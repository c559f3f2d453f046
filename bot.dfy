/** One check-and-tweet pass: extract, compare with the snapshot, tweet what is new, save. */
module Bot {
  import opened Lists
  import opened Articles
  import opened Store
  import opened ChangeDetection
  import opened Composer
  import opened Extraction

  /** One call to the posting collaborator: the body handed over and whether it was accepted. */
  datatype Delivery = Delivery(body: string, accepted: bool)

  /** The collaborator's answer to the `k`-th tweet of a pass; answers not given count as failures. */
  function Accepted(outcomes: seq<bool>, k: nat): bool {
    k < |outcomes| && outcomes[k]
  }

  /** The tweets a pass sends for its new articles, one per article, in order. */
  function Deliveries(news: seq<Article>, outcomes: seq<bool>): (ds: seq<Delivery>)
    ensures |ds| == |news|
    ensures forall k :: 0 <= k < |news| ==> ds[k] == Delivery(CreateTweet(news[k]), Accepted(outcomes, k))
    decreases |news|
  {
    if news == [] then []
    else
      var n := |news| - 1;
      Deliveries(news[..n], outcomes) + [Delivery(CreateTweet(news[n]), Accepted(outcomes, n))]
  }

  /** What the bot keeps between passes: the snapshot file and the log of every tweet it sent. */
  datatype BotState = BotState(snapshot: SnapshotFile, sent: seq<Delivery>)

  /** The effect of one pass on the articles extracted in it. */
  function Pass(s: BotState, articles: seq<Article>, now: string, outcomes: seq<bool>): (t: BotState)
    ensures articles == [] ==> t == s
    ensures articles != [] ==> LoadLastArticles(t.snapshot) == articles
    ensures |s.sent| <= |t.sent| && t.sent[..|s.sent|] == s.sent
    ensures LoadLastArticles(s.snapshot) == [] ==> t.sent == s.sent
  {
    if articles == [] then s
    else
      var last := LoadLastArticles(s.snapshot);
      if last == [] then BotState(SaveLastChecked(now, articles), s.sent)
      else BotState(SaveLastChecked(now, articles), s.sent + Deliveries(NewArticles(articles, UrlSet(last)), outcomes))
  }

  /** The loop of the pass that picks the new articles: those with a URL the snapshot lacks. */
  method FindNewArticles(articles: seq<Article>, lastUrls: set<string>) returns (newArticles: seq<Article>)
    ensures newArticles == NewArticles(articles, lastUrls)
  {
    newArticles := [];
    var i := 0;
    while i < |articles|
      invariant 0 <= i <= |articles|
      invariant newArticles == NewArticles(articles[..i], lastUrls)
    {
      FilterSnoc(articles, i, NewRule(lastUrls));
      var articleUrl := articles[i].url;
      if articleUrl != "" && articleUrl !in lastUrls {
        newArticles := newArticles + [articles[i]];
      }
      i := i + 1;
    }
    assert articles[..|articles|] == articles;
  }

  class YukiBot {
    var snapshot: SnapshotFile
    var sent: seq<Delivery>

    constructor (file: SnapshotFile)
      ensures snapshot == file && sent == []
    {
      snapshot := file;
      sent := [];
    }

    function State(): BotState
      reads this
    {
      BotState(snapshot, sent)
    }

    /** Overwrites the snapshot with the full list and the time. */
    method SaveSnapshot(now: string, articles: seq<Article>)
      modifies this
      ensures snapshot == SaveLastChecked(now, articles) && sent == old(sent)
    {
      snapshot := SaveLastChecked(now, articles);
    }

    /** Hands one body to the posting collaborator, whose answer is `accepted`, and logs it. */
    method TweetArticle(article: Article, accepted: bool) returns (ok: bool)
      modifies this
      ensures ok == accepted
      ensures sent == old(sent) + [Delivery(CreateTweet(article), accepted)]
      ensures snapshot == old(snapshot)
    {
      var tweetText := CreateTweet(article);
      sent := sent + [Delivery(tweetText, accepted)];
      ok := accepted;
    }

    /** The loop of the pass that tweets each new article in order; a failed tweet does not stop it. */
    method TweetAll(newArticles: seq<Article>, outcomes: seq<bool>)
      modifies this
      ensures sent == old(sent) + Deliveries(newArticles, outcomes)
      ensures snapshot == old(snapshot)
    {
      var k := 0;
      assert newArticles[..0] == [];
      while k < |newArticles|
        invariant 0 <= k <= |newArticles|
        invariant sent == old(sent) + Deliveries(newArticles[..k], outcomes)
        invariant snapshot == old(snapshot)
      {
        assert newArticles[..k + 1][..k] == newArticles[..k];
        var ignored := TweetArticle(newArticles[k], Accepted(outcomes, k));
        k := k + 1;
      }
      assert newArticles[..|newArticles|] == newArticles;
    }

    /** One pass on the page `page` (and the rendered page, when one is needed), at time `now`,
        with the collaborator's answers `outcomes` to the tweets in order. */
    method CheckAndTweet(page: Page, rendering: Rendering, now: string, outcomes: seq<bool>)
      modifies this
      ensures State() == Pass(old(State()), InfoArticles(page, rendering, now), now, outcomes)
    {
      var articles := FetchInfoArticles(page, rendering, now);
      if articles == [] {
        return;
      }

      var lastArticles := LoadLastArticles(snapshot);
      var isFirstRun := |lastArticles| == 0;
      if isFirstRun {
        SaveSnapshot(now, articles);
        return;
      }

      var lastUrls := set a | a in lastArticles :: a.url;
      assert lastUrls == UrlSet(lastArticles);
      var newArticles := FindNewArticles(articles, lastUrls);
      TweetAll(newArticles, outcomes);
      SaveSnapshot(now, articles);
    }
  }

  // ---------------------------------------------------------------- properties of a pass

  /** A pass that extracts nothing changes nothing: no save, no tweet. */
  lemma EmptyExtractionChangesNothing(s: BotState, now: string, outcomes: seq<bool>)
    ensures Pass(s, [], now, outcomes) == s
  {
  }

  /** A pass that extracts something saves the full list, whatever the collaborator answered, so the
      saved snapshot is never empty. */
  lemma SnapshotHoldsFullList(s: BotState, articles: seq<Article>, now: string, outcomes: seq<bool>, other: seq<bool>)
    requires articles != []
    ensures LoadLastArticles(Pass(s, articles, now, outcomes).snapshot) == articles != []
    ensures Pass(s, articles, now, outcomes).snapshot == Pass(s, articles, now, other).snapshot
  {
  }

  /** An empty snapshot is a first run: the list is saved and nothing is tweeted. */
  lemma FirstRunIsSilent(s: BotState, articles: seq<Article>, now: string, outcomes: seq<bool>)
    requires LoadLastArticles(s.snapshot) == []
    ensures Pass(s, articles, now, outcomes).sent == s.sent
  {
  }

  /** Otherwise one tweet per new article is sent, in extraction order, after what was sent before. */
  lemma LaterRunTweetsNewArticles(s: BotState, articles: seq<Article>, now: string, outcomes: seq<bool>)
    requires articles != [] && LoadLastArticles(s.snapshot) != []
    ensures var news := NewArticles(articles, UrlSet(LoadLastArticles(s.snapshot)));
            var t := Pass(s, articles, now, outcomes);
            |t.sent| == |s.sent| + |news| && t.sent[..|s.sent|] == s.sent &&
            forall k :: 0 <= k < |news| ==> t.sent[|s.sent| + k].body == CreateTweet(news[k])
  {
  }

  /** The log of sent tweets only grows. */
  lemma SentLogOnlyGrows(s: BotState, articles: seq<Article>, now: string, outcomes: seq<bool>)
    ensures var t := Pass(s, articles, now, outcomes);
            |s.sent| <= |t.sent| && t.sent[..|s.sent|] == s.sent
  {
  }

  /** Once a pass has extracted something, the next pass is not a first run: it tweets the articles
      whose URLs the earlier pass did not see. */
  lemma FirstRunAtMostOnce(s: BotState, first: seq<Article>, second: seq<Article>,
                           now1: string, now2: string, outcomes1: seq<bool>, outcomes2: seq<bool>)
    requires first != [] && second != []
    ensures var s1 := Pass(s, first, now1, outcomes1);
            Pass(s1, second, now2, outcomes2).sent ==
              s1.sent + Deliveries(NewArticles(second, UrlSet(first)), outcomes2)
  {
  }

  /** Two passes over the same list: the second one tweets nothing. */
  lemma RepeatedPassIsSilent(s: BotState, articles: seq<Article>,
                             now1: string, now2: string, outcomes1: seq<bool>, outcomes2: seq<bool>)
    ensures var s1 := Pass(s, articles, now1, outcomes1);
            Pass(s1, articles, now2, outcomes2).sent == s1.sent
  {
    if articles != [] {
      UnchangedPageHasNothingNew(articles);
    }
  }

  /** Two marked announcements, each a title element around a link. */
  const FirstAnnouncement := Element(false, None, ["infoTitle"], "新曲リリース", Some("/info/123"), None, None, None)
  const SecondAnnouncement := Element(false, None, ["infoTitle"], "ライブ情報公開", Some("/info/124"), None, None, None)

  /** The page with the first announcement yields its article. */
  lemma FirstPageExtraction(now: string)
    ensures InfoArticles(Fetched([FirstAnnouncement]), NoBrowser, now) ==
              [Article("新曲リリース", "https://www.yukiweb.net/info/123", "", now)]
  {
    assert Urls.Resolve("/info/123") == "https://www.yukiweb.net/info/123";
    FilterOne(FirstAnnouncement, HasExactMarker);
    CollectOne(FirstAnnouncement, MarkerRule(now));
  }

  /** Each announcement contributes its article. */
  lemma AnnouncementArticles(now: string)
    ensures MarkerArticle(now, FirstAnnouncement) ==
              Some(Article("新曲リリース", "https://www.yukiweb.net/info/123", "", now))
    ensures MarkerArticle(now, SecondAnnouncement) ==
              Some(Article("ライブ情報公開", "https://www.yukiweb.net/info/124", "", now))
  {
    var p1, p2 := "/info/123", "/info/124";
    assert p1[..1] == "/" && p2[..1] == "/";
    assert Urls.SiteRoot + p1 == "https://www.yukiweb.net/info/123";
    assert Urls.SiteRoot + p2 == "https://www.yukiweb.net/info/124";
  }

  /** Both announcements carry the exact marker, so the first scan keeps both. */
  lemma SecondPageMarkers()
    ensures Stage1([FirstAnnouncement, SecondAnnouncement]) == [FirstAnnouncement, SecondAnnouncement]
  {
    var first, second := FirstAnnouncement, SecondAnnouncement;
    FilterOne(first, HasExactMarker);
    FilterOne(second, HasExactMarker);
    assert [first] + [second] == [first, second];
    FilterAppend([first], [second], HasExactMarker);
  }

  /** Both announcement elements give their articles, in page order. */
  lemma SecondPageArticles(now: string)
    ensures MarkerArticles([FirstAnnouncement, SecondAnnouncement], now) ==
              [Article("新曲リリース", "https://www.yukiweb.net/info/123", "", now),
               Article("ライブ情報公開", "https://www.yukiweb.net/info/124", "", now)]
  {
    var marked := [FirstAnnouncement, SecondAnnouncement];
    AnnouncementArticles(now);
    CollectOne(FirstAnnouncement, MarkerRule(now));
    CollectSnoc(marked, 1, MarkerRule(now));
    assert marked[..1] == [FirstAnnouncement] && marked[..2] == marked;
  }

  /** The page with both announcements yields both articles, in page order. */
  lemma SecondPageExtraction(now: string)
    ensures InfoArticles(Fetched([FirstAnnouncement, SecondAnnouncement]), NoBrowser, now) ==
              [Article("新曲リリース", "https://www.yukiweb.net/info/123", "", now),
               Article("ライブ情報公開", "https://www.yukiweb.net/info/124", "", now)]
  {
    var marked := [FirstAnnouncement, SecondAnnouncement];
    SecondPageMarkers();
    SecondPageArticles(now);
    assert MarkerElements(marked) == marked;
    assert Extract(marked, now) == MarkerArticles(marked, now);
  }

  /** The two passes of the scenario, on the lists the extractor gives. */
  lemma ScenarioPasses(now1: string, now2: string, outcomes: seq<bool>)
    ensures
      var u1, u2 := "https://www.yukiweb.net/info/123", "https://www.yukiweb.net/info/124";
      var s1 := Pass(BotState(Parsed(None, Some([])), []), [Article("新曲リリース", u1, "", now1)], now1, outcomes);
      var s2 := Pass(s1, [Article("新曲リリース", u1, "", now2), Article("ライブ情報公開", u2, "", now2)], now2, outcomes);
      s1.sent == [] &&
      LoadLastArticles(s1.snapshot) == [Article("新曲リリース", u1, "", now1)] &&
      s2.sent == [Delivery(CreateTweet(Article("ライブ情報公開", u2, "", now2)), Accepted(outcomes, 0))]
  {
    ScenarioNewArticles(now1, now2);
  }

  /** Against the snapshot of the first pass, only the second announcement is new. */
  lemma ScenarioNewArticles(now1: string, now2: string)
    ensures
      var u1, u2 := "https://www.yukiweb.net/info/123", "https://www.yukiweb.net/info/124";
      NewArticles([Article("新曲リリース", u1, "", now2), Article("ライブ情報公開", u2, "", now2)],
                  UrlSet([Article("新曲リリース", u1, "", now1)])) ==
        [Article("ライブ情報公開", u2, "", now2)]
  {
    var u1, u2 := "https://www.yukiweb.net/info/123", "https://www.yukiweb.net/info/124";
    assert u1[31] != u2[31];
    var a1 := Article("新曲リリース", u1, "", now1);
    var b1 := Article("新曲リリース", u1, "", now2);
    var b2 := Article("ライブ情報公開", u2, "", now2);
    var p := NewRule(UrlSet([a1]));
    assert UrlSet([a1]) == {u1};
    FilterOne(b1, p);
    FilterOne(b2, p);
    assert [b1] + [b2] == [b1, b2];
    FilterAppend([b1], [b2], p);
  }

  /** A first run on a page with one marked announcement linked to `/info/123` saves it and tweets
      nothing; the next pass, on the page with a second announcement linked to `/info/124`, tweets
      that one only. */
  lemma FirstRunThenOneNewAnnouncement(now1: string, now2: string, outcomes: seq<bool>)
    ensures
      var s0 := BotState(Parsed(None, Some([])), []);
      var s1 := Pass(s0, InfoArticles(Fetched([FirstAnnouncement]), NoBrowser, now1), now1, outcomes);
      var s2 := Pass(s1, InfoArticles(Fetched([FirstAnnouncement, SecondAnnouncement]), NoBrowser, now2), now2, outcomes);
      s1.sent == [] &&
      LoadLastArticles(s1.snapshot) == [Article("新曲リリース", "https://www.yukiweb.net/info/123", "", now1)] &&
      |s2.sent| == 1 &&
      s2.sent[0].body == CreateTweet(Article("ライブ情報公開", "https://www.yukiweb.net/info/124", "", now2))
  {
    FirstPageExtraction(now1);
    SecondPageExtraction(now2);
    ScenarioPasses(now1, now2, outcomes);
  }
}
