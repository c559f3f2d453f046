/** The snapshot file: what a pass reads at its start and overwrites at its end. */
module Store {
  import opened Lists
  import opened Articles

  /** The file as the next load finds it: missing, unreadable as JSON, or a JSON object whose
      `last_check` and `last_articles` keys may each be absent. */
  datatype SnapshotFile =
    | Missing
    | Unparsable
    | Parsed(lastCheck: Option<string>, lastArticles: Option<seq<Article>>)

  /** The articles of the last pass; a missing or unparsable file, or one without
      `last_articles`, reads as no articles. */
  function LoadLastArticles(f: SnapshotFile): (last: seq<Article>)
    ensures f.Parsed? && f.lastArticles.Some? ==> last == f.lastArticles.value
    ensures !(f.Parsed? && f.lastArticles.Some?) ==> last == []
  {
    match f
    case Parsed(_, Some(articles)) => articles
    case _ => []
  }

  /** The file a save writes: the time of the save and the full list. */
  function SaveLastChecked(now: string, articles: seq<Article>): (f: SnapshotFile)
    ensures LoadLastArticles(f) == articles
  {
    Parsed(Some(now), Some(articles))
  }

  /** Loading what was saved gives back the saved list. */
  lemma LoadAfterSave(now: string, articles: seq<Article>)
    ensures LoadLastArticles(SaveLastChecked(now, articles)) == articles
    ensures SaveLastChecked(now, articles).lastCheck == Some(now)
  {
  }
}
