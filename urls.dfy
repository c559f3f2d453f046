/** Turning the `href` of an anchor into the URL an article is stored and tweeted under. */
module Urls {
  import opened Text

  /** Scheme and host, prepended to root-relative links. */
  const SiteRoot := "https://www.yukiweb.net"

  /** The announcement listing, prepended to every other link not starting with `http`. */
  const InfoUrl := "https://www.yukiweb.net/info/"

  /** The three-way rule shared by the marker scan and the link fallback. */
  function Resolve(href: string): (url: string)
    ensures StartsWith(url, "http")
    ensures StartsWith(href, "http") ==> url == href
    ensures StartsWith(href, "/") ==> url == SiteRoot + href
    ensures !StartsWith(href, "/") && !StartsWith(href, "http") ==> url == InfoUrl + href
  {
    if StartsWith(href, "/") then
      assert (SiteRoot + href)[..4] == SiteRoot[..4] == "http";
      assert href[0] == '/';
      SiteRoot + href
    else if !StartsWith(href, "http") then
      assert (InfoUrl + href)[..4] == InfoUrl[..4] == "http";
      InfoUrl + href
    else href
  }

  /** A resolved URL is never empty, and the empty href resolves to the listing itself. */
  lemma ResolveNonEmpty(href: string)
    ensures Resolve(href) != []
    ensures href == [] ==> Resolve(href) == InfoUrl
  {
    if href == [] {
      assert InfoUrl + href == InfoUrl;
    }
  }

  /** Resolution leaves exactly the links already starting with `http` unchanged. */
  lemma ResolveFixedPoints(href: string)
    ensures Resolve(href) == href <==> StartsWith(href, "http")
  {
    if !StartsWith(href, "http") {
      assert |Resolve(href)| > |href|;
    }
  }

  /** Resolving twice is resolving once. */
  lemma ResolveIdempotent(href: string)
    ensures Resolve(Resolve(href)) == Resolve(href)
  {
    ResolveFixedPoints(Resolve(href));
  }

  /** A path segment present in the href is present in the resolved URL. */
  lemma ResolveKeepsSegment(href: string, segment: string)
    requires Contains(href, segment)
    ensures Contains(Resolve(href), segment)
  {
    if StartsWith(href, "/") {
      ContainsAfterPrefix(SiteRoot, href, segment);
    } else if !StartsWith(href, "http") {
      ContainsAfterPrefix(InfoUrl, href, segment);
    }
  }
}
