/** The change detector: which extracted articles the last snapshot has not seen, by URL alone. */
module ChangeDetection {
  import opened Lists
  import opened Articles

  /** An article is new when it has a URL and that URL is not among the snapshot's. */
  predicate IsNew(lastUrls: set<string>, a: Article) {
    a.url != "" && a.url !in lastUrls
  }

  function NewRule(lastUrls: set<string>): Article -> bool {
    a => IsNew(lastUrls, a)
  }

  /** The new articles of a pass, in extraction order, duplicates kept. */
  function NewArticles(current: seq<Article>, lastUrls: set<string>): (news: seq<Article>)
    ensures forall a :: a in news <==> a in current && a.url != "" && a.url !in lastUrls
  {
    Filter(current, NewRule(lastUrls))
  }

  /** New articles of a concatenation are those of each part, in order. */
  lemma NewArticlesAppend(xs: seq<Article>, ys: seq<Article>, lastUrls: set<string>)
    ensures NewArticles(xs + ys, lastUrls) == NewArticles(xs, lastUrls) + NewArticles(ys, lastUrls)
  {
    FilterAppend(xs, ys, NewRule(lastUrls));
  }

  /** Order is kept: with snapshot `[b]`, the list `[a, b, c]` gives `[a, c]`. */
  lemma OrderPreserved(a: Article, b: Article, c: Article)
    requires a.url != "" && c.url != "" && a.url != b.url && c.url != b.url
    ensures NewArticles([a, b, c], UrlSet([b])) == [a, c]
  {
    var p := NewRule(UrlSet([b]));
    assert UrlSet([b]) == {b.url};
    assert p(a) && !p(b) && p(c);
    assert [a, b, c][..2] == [a, b];
    assert [a, b][..1] == [a];
    assert [a][..0] == [];
    assert Filter([a], p) == [a];
    assert Filter([a, b], p) == [a];
  }

  /** A list compared with a snapshot of itself has nothing new. */
  lemma UnchangedPageHasNothingNew(current: seq<Article>)
    ensures NewArticles(current, UrlSet(current)) == []
  {
    FilterKeepsNone(current, NewRule(UrlSet(current)));
  }

  /** Identity is the URL: an article whose URL the snapshot holds, under any title or date, is not new. */
  lemma UrlIsIdentity(current: seq<Article>, last: seq<Article>, a: Article, b: Article)
    requires b in last && a.url == b.url
    ensures a !in NewArticles(current, UrlSet(last))
  {
  }

  /** The result depends on the snapshot only through its URLs. */
  lemma OnlyUrlsMatter(current: seq<Article>, last: seq<Article>, other: seq<Article>)
    requires |last| == |other|
    requires forall i :: 0 <= i < |last| ==> last[i].url == other[i].url
    ensures NewArticles(current, UrlSet(last)) == NewArticles(current, UrlSet(other))
  {
    assert UrlSet(last) == UrlSet(other) by {
      forall u | u in UrlSet(last) ensures u in UrlSet(other) {
        var a :| a in last && a.url == u;
        var i :| 0 <= i < |last| && last[i] == a;
        assert other[i] in other;
      }
      forall u | u in UrlSet(other) ensures u in UrlSet(last) {
        var a :| a in other && a.url == u;
        var i :| 0 <= i < |other| && other[i] == a;
        assert last[i] in last;
      }
    }
  }

  /** The per-article test of the source, a scan of the snapshot that stops at the first URL match. */
  method IsNewArticle(article: Article, lastArticles: seq<Article>) returns (isNew: bool)
    ensures isNew <==> forall j :: 0 <= j < |lastArticles| ==> lastArticles[j].url != article.url
    ensures isNew <==> article.url !in UrlSet(lastArticles)
  {
    var i := 0;
    while i < |lastArticles|
      invariant 0 <= i <= |lastArticles|
      invariant forall j :: 0 <= j < i ==> lastArticles[j].url != article.url
    {
      if article.url == lastArticles[i].url {
        assert lastArticles[i] in lastArticles;
        return false;
      }
      i := i + 1;
    }
    isNew := true;
  }
}
