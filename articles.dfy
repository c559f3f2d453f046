/** The article record the bot extracts, persists and tweets. */
module Articles {

  /** One announcement. `url` is its only identity; `timestamp` is the moment of extraction,
      kept as an opaque string. */
  datatype Article = Article(title: string, url: string, date: string, timestamp: string)

  /** The URLs of a list of articles, as the set the change detector compares against. */
  function UrlSet(xs: seq<Article>): (urls: set<string>)
    ensures forall a {:trigger a in xs} :: a in xs ==> a.url in urls
    ensures forall u {:trigger u in urls} :: u in urls ==> exists a :: a in xs && a.url == u
  {
    set a | a in xs :: a.url
  }
}
