/** The article extractor: a cascade of marker scans with a link-inference fallback, run over an
    abstract parsed page. */
module Extraction {
  import opened Text
  import opened Lists
  import opened Articles
  import opened Urls
  import opened DatePattern

  /** A descendant of an article's container: its class tokens and its stripped text. */
  datatype Part = Part(classes: seq<string>, text: string)

  /** The nearest `li`, `div`, `article` or `section` ancestor of a title element: its descendants
      in document order and its full, unstripped text. */
  datatype Container = Container(parts: seq<Part>, text: string)

  /** One element of the parsed page, together with what the extractor asks of the tree around it.
      `text` is the element's stripped text; `innerAnchorHref` is the href of its first descendant
      anchor that has one, `outerAnchorHref` that of its nearest such ancestor; `listParentText` is
      the stripped text of its nearest `li`, `div` or `article` ancestor. */
  datatype Element = Element(
    isAnchor: bool,
    href: Option<string>,
    classes: seq<string>,
    text: string,
    innerAnchorHref: Option<string>,
    outerAnchorHref: Option<string>,
    container: Option<Container>,
    listParentText: Option<string>)

  /** The elements of a page in document order. */
  type Document = seq<Element>

  /** The class that marks a title element, and its lower-case form. */
  const Marker := "infoTitle"
  const MarkerLower := "infotitle"

  /** The path segment of announcement links; the bare listing path is the same text. */
  const InfoSegment := "/info/"

  /** A fallback title taken from the enclosing block keeps at most this many characters. */
  const ParentTitleLimit := 100

  /** A fallback title must be longer than this. */
  const MinTitleLength := 5

  // ---------------------------------------------------------------- stages 1 to 3: marker scans

  /** Stage 1: a class token equal to the marker. */
  predicate HasExactMarker(e: Element) {
    Marker in e.classes
  }

  /** Stage 2: a class token containing the marker, ignoring case (a class filter given as a function). */
  predicate HasMarkerIgnoringCase(e: Element) {
    exists c :: c in e.classes && ContainsIgnoringCase(c, MarkerLower)
  }

  /** Stage 3 tests the tokens one by one, as `any(...)` over the class list does. */
  predicate AnyClassHasMarker(classes: seq<string>) {
    |classes| > 0 && (ContainsIgnoringCase(classes[0], MarkerLower) || AnyClassHasMarker(classes[1..]))
  }

  predicate HasMarkerInSomeClass(e: Element) {
    AnyClassHasMarker(e.classes)
  }

  function Stage1(doc: Document): (marked: seq<Element>)
    ensures |marked| <= |doc|
    ensures forall e :: e in marked <==> e in doc && Marker in e.classes
  {
    Filter(doc, HasExactMarker)
  }

  function Stage2(doc: Document): (marked: seq<Element>)
    ensures |marked| <= |doc|
    ensures forall e :: e in marked <==> e in doc && exists c :: c in e.classes && ContainsIgnoringCase(c, MarkerLower)
  {
    Filter(doc, HasMarkerIgnoringCase)
  }

  function Stage3(doc: Document): (marked: seq<Element>)
    ensures forall e :: e in marked <==> e in doc && AnyClassHasMarker(e.classes)
  {
    Filter(doc, HasMarkerInSomeClass)
  }

  /** The elements of the first marker scan that finds any. */
  function MarkerElements(doc: Document): (marked: seq<Element>)
    ensures forall e :: e in marked ==> e in doc
    ensures marked == [] <==> Stage1(doc) == [] && Stage2(doc) == []
    ensures Stage1(doc) != [] ==> marked == Stage1(doc)
    ensures Stage1(doc) == [] ==> marked == Stage2(doc)
  {
    Stage3SameAsStage2(doc);
    if Stage1(doc) != [] then Stage1(doc)
    else if Stage2(doc) != [] then Stage2(doc)
    else Stage3(doc)
  }

  // ---------------------------------------------------------------- stage 4: link inference

  /** The href filter of the fallback: present, containing `/info/`, and not the bare listing path. */
  predicate IsInfoLink(href: string) {
    href != "" && Contains(href, InfoSegment) && href != InfoSegment
  }

  /** The anchor's own text, or else the first characters of its enclosing block's text. */
  function LinkTitle(e: Element): (title: string)
    ensures e.text != "" ==> title == e.text
    ensures e.text == "" && e.listParentText.Some? ==>
              var t := e.listParentText.value;
              title == t[..if |t| <= ParentTitleLimit then |t| else ParentTitleLimit]
    ensures e.text == "" && e.listParentText.None? ==> title == ""
  {
    if e.text != "" then e.text
    else match e.listParentText
      case Some(t) => SliceTo(t, ParentTitleLimit)
      case None => ""
  }

  /** The article an anchor contributes in the fallback, if any. */
  function LinkArticle(now: string, e: Element): (r: Option<Article>)
    ensures r.Some? <==> e.isAnchor && e.href.Some? && IsInfoLink(e.href.value) && |LinkTitle(e)| > MinTitleLength
    ensures r.Some? ==> r.value == Article(LinkTitle(e), Resolve(e.href.value), "", now)
  {
    if e.isAnchor && e.href.Some? && IsInfoLink(e.href.value) then
      var title := LinkTitle(e);
      if title != "" && |title| > MinTitleLength then Some(Article(title, Resolve(e.href.value), "", now))
      else None
    else None
  }

  function LinkRule(now: string): Element -> Option<Article> {
    e => LinkArticle(now, e)
  }

  function LinkArticles(doc: Document, now: string): (articles: seq<Article>)
    ensures |articles| <= |doc|
  {
    Collect(doc, LinkRule(now))
  }

  // ---------------------------------------------------------------- articles from marker elements

  /** The link of a title element: a descendant anchor first, else an ancestor anchor. */
  function AnchorHref(e: Element): (href: Option<string>)
    ensures e.innerAnchorHref.Some? ==> href == e.innerAnchorHref
    ensures e.innerAnchorHref.None? ==> href == e.outerAnchorHref
    ensures href.None? <==> e.innerAnchorHref.None? && e.outerAnchorHref.None?
  {
    if e.innerAnchorHref.Some? then e.innerAnchorHref else e.outerAnchorHref
  }

  /** A class naming a date or a time, ignoring case. */
  predicate IsDateClass(c: string) {
    ContainsIgnoringCase(c, "date") || ContainsIgnoringCase(c, "time")
  }

  predicate IsDatePart(p: Part) {
    exists c :: c in p.classes && IsDateClass(c)
  }

  /** The first date-classed descendant of a container. */
  function FirstDatePart(parts: seq<Part>): (r: Option<Part>)
    ensures r.None? <==> forall p :: p in parts ==> !IsDatePart(p)
    ensures r.Some? ==> exists k :: 0 <= k < |parts| && parts[k] == r.value && IsDatePart(parts[k]) &&
                                    forall j :: 0 <= j < k ==> !IsDatePart(parts[j])
  {
    if parts == [] then None
    else if IsDatePart(parts[0]) then Some(parts[0])
    else
      var r := FirstDatePart(parts[1..]);
      assert forall p :: p in parts ==> p == parts[0] || p in parts[1..];
      r
  }

  /** The date of a title element (see DateLookup). */
  function DateOf(container: Option<Container>): (date: string)
    ensures container.None? ==> date == ""
    ensures container.Some? && FirstDatePart(container.value.parts).Some? ==>
              date == FirstDatePart(container.value.parts).value.text
  {
    match container
    case None => ""
    case Some(c) =>
      match FirstDatePart(c.parts)
      case Some(p) => p.text
      case None =>
        match SearchDate(c.text)
        case Some(d) => d
        case None => ""
  }

  /** The date lookup: no container, no date; the text of the first date-classed element of the
      container when there is one, even when that text is empty; otherwise the leftmost, longest
      date-shaped text of the container, or no date when there is none. */
  lemma DateLookup(container: Option<Container>)
    ensures container.None? ==> DateOf(container) == ""
    ensures container.Some? && FirstDatePart(container.value.parts).Some? ==>
              DateOf(container) == FirstDatePart(container.value.parts).value.text
    ensures container.Some? && FirstDatePart(container.value.parts).None? ==>
              (DateOf(container) == "" <==> forall i: nat, n: nat :: !MatchesAt(container.value.text, i, n))
    ensures container.Some? && FirstDatePart(container.value.parts).None? && DateOf(container) != "" ==>
              var text := container.value.text;
              exists i: nat, n: nat :: MatchesAt(text, i, n) && DateOf(container) == text[i..i + n] &&
                (forall j: nat, n': nat :: j < i ==> !MatchesAt(text, j, n')) &&
                (forall n': nat :: MatchesAt(text, i, n') ==> n' <= n)
  {
    if container.Some? && FirstDatePart(container.value.parts).None? {
      var text := container.value.text;
      match SearchDate(text)
      case Some(d) =>
        var i: nat, n: nat :| MatchesAt(text, i, n) && d == text[i..i + n];
        MatchAtIsLongest(text, i);
        assert n >= 8;
      case None =>
    }
  }

  /** The article a marker element contributes, if any. */
  function MarkerArticle(now: string, e: Element): (r: Option<Article>)
    ensures r.Some? <==> AnchorHref(e).Some? && e.text != ""
    ensures r.Some? ==> r.value.title == e.text && r.value.timestamp == now &&
                        r.value.date == DateOf(e.container) && StartsWith(r.value.url, "http")
  {
    match AnchorHref(e)
    case None => None
    case Some(href) =>
      var url := Resolve(href);
      if e.text != "" && url != "" then Some(Article(e.text, url, DateOf(e.container), now)) else None
  }

  function MarkerRule(now: string): Element -> Option<Article> {
    e => MarkerArticle(now, e)
  }

  function MarkerArticles(marked: seq<Element>, now: string): (articles: seq<Article>)
    ensures |articles| <= |marked|
  {
    Collect(marked, MarkerRule(now))
  }

  // ---------------------------------------------------------------- the cascade and the page

  /** The articles of a parsed page: those of the first marker scan that finds any element, or,
      when no scan does, those of the link fallback. */
  function Extract(doc: Document, now: string): (articles: seq<Article>)
    ensures |articles| <= |doc|
    ensures forall a :: a in articles ==> a.timestamp == now
  {
    var marked := MarkerElements(doc);
    if marked == [] then LinkArticles(doc, now) else MarkerArticles(marked, now)
  }

  /** The outcome of the plain HTTP fetch. */
  datatype Page = FetchFailed | Fetched(doc: Document)

  /** The browser-rendering fallback: not installed, failed, or the rendered page. */
  datatype Rendering = NoBrowser | RenderFailed | Rendered(doc: Document)

  /** The page the cascade runs on. When the plain page has no exact marker and a browser is
      installed, the rendered page replaces it; a failed rendering leaves no page, which the source
      reaches through an exception that its handler turns into an empty result. */
  function ScannedDocument(page: Page, rendering: Rendering): (scanned: Option<Document>)
    ensures page.FetchFailed? ==> scanned.None?
    ensures page.Fetched? && (Stage1(page.doc) != [] || rendering.NoBrowser?) ==> scanned == Some(page.doc)
    ensures page.Fetched? && Stage1(page.doc) == [] && rendering.Rendered? ==> scanned == Some(rendering.doc)
    ensures page.Fetched? && Stage1(page.doc) == [] && rendering.RenderFailed? ==> scanned.None?
  {
    match page
    case FetchFailed => None
    case Fetched(doc) =>
      if Stage1(doc) == [] && !rendering.NoBrowser? then
        match rendering
        case Rendered(rendered) => Some(rendered)
        case _ => None
      else Some(doc)
  }

  /** What one extraction returns. */
  function InfoArticles(page: Page, rendering: Rendering, now: string): (articles: seq<Article>)
    ensures page.FetchFailed? ==> articles == []
    ensures page.Fetched? && Stage1(page.doc) == [] && rendering.RenderFailed? ==> articles == []
    ensures forall a :: a in articles ==> a.timestamp == now
  {
    match ScannedDocument(page, rendering)
    case None => []
    case Some(doc) => Extract(doc, now)
  }

  /** The extraction as the source runs it: pick the page to scan, then run the cascade on it. */
  method FetchInfoArticles(page: Page, rendering: Rendering, now: string) returns (articles: seq<Article>)
    ensures articles == InfoArticles(page, rendering, now)
  {
    var scanned := ScannedDocument(page, rendering);
    if scanned.None? {
      return [];
    }
    articles := ExtractArticles(scanned.value, now);
  }

  /** The cascade on a parsed page: the marker list is reassigned stage by stage, stage 3 and the
      fallback append in loops, and a last loop turns marker elements into articles. */
  method ExtractArticles(doc: Document, now: string) returns (articles: seq<Article>)
    ensures articles == Extract(doc, now)
  {
    articles := [];
    var infoTitles := Stage1(doc);
    if infoTitles == [] {
      infoTitles := Stage2(doc);
    }
    if infoTitles == [] {
      infoTitles := ScanAllClasses(doc);
    }
    assert infoTitles == MarkerElements(doc);
    if infoTitles == [] {
      articles := InferFromLinks(doc, now);
    }
    var found := ArticlesFromMarkers(infoTitles, now);
    assert infoTitles == [] ==> found == [];
    articles := articles + found;
  }

  /** Stage 3: every element whose class list has a token containing the marker, ignoring case. */
  method ScanAllClasses(doc: Document) returns (infoTitles: seq<Element>)
    ensures infoTitles == Stage3(doc)
  {
    infoTitles := [];
    var i := 0;
    while i < |doc|
      invariant 0 <= i <= |doc|
      invariant infoTitles == Stage3(doc[..i])
    {
      FilterSnoc(doc, i, HasMarkerInSomeClass);
      if AnyClassHasMarker(doc[i].classes) {
        infoTitles := infoTitles + [doc[i]];
      }
      i := i + 1;
    }
    assert doc[..|doc|] == doc;
  }

  /** Stage 4: an article for every announcement link with a long enough title. */
  method InferFromLinks(doc: Document, now: string) returns (articles: seq<Article>)
    ensures articles == LinkArticles(doc, now)
  {
    articles := [];
    var i := 0;
    while i < |doc|
      invariant 0 <= i <= |doc|
      invariant articles == LinkArticles(doc[..i], now)
    {
      CollectSnoc(doc, i, LinkRule(now));
      var link := doc[i];
      if link.isAnchor && link.href.Some? && IsInfoLink(link.href.value) {
        var title := link.text;
        if title == "" {
          match link.listParentText {
            case Some(t) => title := SliceTo(t, ParentTitleLimit);
            case None =>
          }
        }
        if title != "" && |title| > MinTitleLength {
          articles := articles + [Article(title, Resolve(link.href.value), "", now)];
        }
      }
      i := i + 1;
    }
    assert doc[..|doc|] == doc;
  }

  /** An article for every marker element that has a link and a title, with the date found near it. */
  method ArticlesFromMarkers(infoTitles: seq<Element>, now: string) returns (articles: seq<Article>)
    ensures articles == MarkerArticles(infoTitles, now)
  {
    articles := [];
    var j := 0;
    while j < |infoTitles|
      invariant 0 <= j <= |infoTitles|
      invariant articles == MarkerArticles(infoTitles[..j], now)
    {
      var titleElem := infoTitles[j];
      var title := titleElem.text;
      var link := titleElem.innerAnchorHref;
      if link.None? {
        link := titleElem.outerAnchorHref;
      }
      if link.Some? {
        var href := Resolve(link.value);
        var dateText := DateOf(titleElem.container);
        if title != "" && href != "" {
          articles := articles + [Article(title, href, dateText, now)];
        }
      }
      CollectSnoc(infoTitles, j, MarkerRule(now));
      j := j + 1;
    }
    assert infoTitles[..|infoTitles|] == infoTitles;
  }

  // ---------------------------------------------------------------- properties of the cascade

  /** Testing the tokens one by one finds a marker exactly when some token holds one. */
  lemma {:induction false} AnyClassHasMarkerExists(classes: seq<string>)
    ensures AnyClassHasMarker(classes) <==> exists c :: c in classes && ContainsIgnoringCase(c, MarkerLower)
    decreases |classes|
  {
    if classes != [] {
      AnyClassHasMarkerExists(classes[1..]);
      assert forall c :: c in classes <==> c == classes[0] || c in classes[1..];
    }
  }

  /** Stage 3 finds exactly what stage 2 finds, so it runs only to find nothing. */
  lemma Stage3SameAsStage2(doc: Document)
    ensures Stage3(doc) == Stage2(doc)
  {
    forall e | e in doc
      ensures HasMarkerInSomeClass(e) == HasMarkerIgnoringCase(e)
    {
      AnyClassHasMarkerExists(e.classes);
    }
    FilterCongruent(doc, HasMarkerInSomeClass, HasMarkerIgnoringCase);
  }

  /** The link fallback runs exactly when neither the exact nor the case-insensitive scan finds a
      marked element. */
  lemma FallbackExactlyWithoutMarkers(doc: Document, now: string)
    ensures MarkerElements(doc) == [] <==> Stage1(doc) == [] && Stage2(doc) == []
    ensures Stage1(doc) == [] && Stage2(doc) == [] ==> Extract(doc, now) == LinkArticles(doc, now)
  {
    Stage3SameAsStage2(doc);
  }

  /** When stage 1 finds a marked element, the later stages cannot change the result: any page with
      the same stage-1 elements yields the same articles. */
  lemma CascadeShortCircuit(doc: Document, other: Document, now: string)
    requires Stage1(doc) != [] && Stage1(other) == Stage1(doc)
    ensures Extract(doc, now) == MarkerArticles(Stage1(doc), now)
    ensures Extract(other, now) == Extract(doc, now)
  {
  }

  /** A marker element yields an article exactly when it has a descendant or ancestor link and a
      non-empty title; the article carries its text, its resolved link (descendant first) and the
      extraction time. */
  lemma MarkerArticleIff(now: string, e: Element)
    ensures MarkerArticle(now, e).Some? <==>
              (e.innerAnchorHref.Some? || e.outerAnchorHref.Some?) && e.text != ""
    ensures MarkerArticle(now, e).Some? ==>
              var a := MarkerArticle(now, e).value;
              a.title == e.text && a.timestamp == now && a.date == DateOf(e.container) &&
              a.url == Resolve(if e.innerAnchorHref.Some? then e.innerAnchorHref.value else e.outerAnchorHref.value)
  {
    if AnchorHref(e).Some? {
      ResolveNonEmpty(AnchorHref(e).value);
    }
  }

  /** When the exact scan finds nothing and the case-insensitive scan finds something, the result is
      built from the second scan's elements, and neither the third scan nor the fallback matters. */
  lemma SecondStageWins(doc: Document, now: string)
    requires Stage1(doc) == [] && Stage2(doc) != []
    ensures Extract(doc, now) == MarkerArticles(Stage2(doc), now)
  {
  }

  /** Marker elements were found but none has a link: the result is empty and the link fallback is
      not consulted. */
  lemma MarkersWithoutLinksYieldNothing(doc: Document, now: string)
    requires MarkerElements(doc) != []
    requires forall e :: e in MarkerElements(doc) ==> e.innerAnchorHref.None? && e.outerAnchorHref.None?
    ensures Extract(doc, now) == []
  {
    CollectNone(MarkerElements(doc), MarkerRule(now));
  }

  /** Every fallback article comes from an announcement link other than the bare listing path, has a
      title longer than five characters, has no date, and keeps the `/info/` segment in its URL. */
  lemma LinkArticlesShape(doc: Document, now: string)
    ensures forall a :: a in LinkArticles(doc, now) ==>
              a.date == "" && |a.title| > MinTitleLength && a.timestamp == now &&
              Contains(a.url, InfoSegment) &&
              exists e :: e in doc && e.isAnchor && e.href.Some? && IsInfoLink(e.href.value) &&
                          a.url == Resolve(e.href.value)
  {
    forall a | a in LinkArticles(doc, now)
      ensures a.date == "" && |a.title| > MinTitleLength && a.timestamp == now && Contains(a.url, InfoSegment)
      ensures exists e :: e in doc && e.isAnchor && e.href.Some? && IsInfoLink(e.href.value) &&
                          a.url == Resolve(e.href.value)
    {
      var e :| e in doc && LinkRule(now)(e) == Some(a);
      ResolveKeepsSegment(e.href.value, InfoSegment);
    }
  }

  /** Every extracted article has a non-empty title, an absolute URL and the extraction time. */
  lemma ExtractedArticlesWellFormed(doc: Document, now: string)
    ensures forall a :: a in Extract(doc, now) ==>
              a.title != "" && a.url != "" && StartsWith(a.url, "http") && a.timestamp == now
  {
    forall a | a in Extract(doc, now)
      ensures a.title != "" && a.url != "" && StartsWith(a.url, "http") && a.timestamp == now
    {
      var marked := MarkerElements(doc);
      if marked == [] {
        LinkArticlesShape(doc, now);
        var e :| e in doc && LinkRule(now)(e) == Some(a);
        ResolveNonEmpty(e.href.value);
      } else {
        var e :| e in marked && MarkerRule(now)(e) == Some(a);
        MarkerArticleIff(now, e);
      }
    }
  }

  /** A failed fetch, or a failed rendering of a page without exact markers, yields no articles even
      when the plain page has announcement links. */
  lemma FailedPageYieldsNothing(doc: Document, now: string)
    ensures forall r :: InfoArticles(FetchFailed, r, now) == []
    ensures Stage1(doc) == [] ==> InfoArticles(Fetched(doc), RenderFailed, now) == []
    ensures Stage1(doc) == [] ==> InfoArticles(Fetched(doc), NoBrowser, now) == Extract(doc, now)
    ensures Stage1(doc) != [] ==> forall r :: InfoArticles(Fetched(doc), r, now) == Extract(doc, now)
  {
  }
}
