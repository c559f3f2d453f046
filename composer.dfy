/** The tweet body for one new article, with the title cut to fit the length budget. Lengths are
    counts of code points, as Python's `len` gives them. */
module Composer {
  import opened Text
  import opened Articles

  const Header := "【YUKI INFO更新】"
  const MaxLength := 280
  const Ellipsis := "..."

  /** Characters kept free for the template's decoration. */
  const Slack := 20

  /** The room left for the title: the limit less the URL's reserve, the date's reserve when there
      is a date, and the slack. */
  function Available(a: Article): (available: int)
    ensures available + |a.url| + (if a.date != "" then |a.date| + 3 else 0) == MaxLength - Slack - 3
  {
    MaxLength - (|a.url| + 3) - (if a.date != "" then |a.date| + 3 else 0) - Slack
  }

  /** A title longer than `available` becomes `title[:available-3]` followed by an ellipsis. */
  function FitTitle(title: string, available: int): (t: string)
    ensures |title| <= available ==> t == title
    ensures |title| > available && available >= 3 ==>
              |t| == available && t == title[..available - 3] + Ellipsis
    ensures |title| > available && available < 3 ==>
              |t| == (if |title| + available - 3 >= 0 then |title| + available - 3 else 0) + 3
    ensures |title| > available && available < 3 ==>
              t == title[..if |title| + available - 3 >= 0 then |title| + available - 3 else 0] + Ellipsis
  {
    if |title| > available then SliceTo(title, available - 3) + Ellipsis else title
  }

  /** The body: header, title, the date only when there is one, and the URL, one per line. */
  function CreateTweet(a: Article): (body: string)
    ensures StartsWith(body, Header + "\n")
    ensures |body| > |a.url| && body[|body| - |a.url|..] == a.url
  {
    var title := FitTitle(a.title, Available(a));
    var body := if a.date != "" then Header + "\n" + title + "\n" + a.date + "\n" + a.url
                else Header + "\n" + title + "\n" + a.url;
    assert body == (Header + "\n") + (title + (if a.date != "" then "\n" + a.date else "") + "\n") + a.url;
    body
  }

  /** The body's length: 15 code points of header and line breaks, the fitted title, the URL, and
      the date with its line break when there is one. */
  lemma TweetLength(a: Article)
    ensures |Header| == 13
    ensures |CreateTweet(a)| ==
              15 + |FitTitle(a.title, Available(a))| + |a.url| + (if a.date != "" then 1 + |a.date| else 0)
  {
  }

  /** The body starts with the header line and ends with the URL line. */
  lemma TweetShape(a: Article)
    ensures StartsWith(CreateTweet(a), Header + "\n")
    ensures var body := CreateTweet(a);
            |body| >= |a.url| + 1 && body[|body| - |a.url| - 1..] == "\n" + a.url
  {
    var t := FitTitle(a.title, Available(a));
    var body := CreateTweet(a);
    var middle := if a.date != "" then "\n" + a.date else "";
    assert body == (Header + "\n" + t + middle) + ("\n" + a.url);
  }

  /** After the title line comes the date line exactly when there is a date, then the URL line. */
  lemma TweetDateLine(a: Article)
    ensures a.date != "" ==>
              var t := FitTitle(a.title, Available(a));
              CreateTweet(a)[|Header| + 1 + |t|..] == "\n" + a.date + "\n" + a.url
    ensures a.date == "" ==>
              var t := FitTitle(a.title, Available(a));
              CreateTweet(a)[|Header| + 1 + |t|..] == "\n" + a.url
  {
    var t := FitTitle(a.title, Available(a));
    var body := CreateTweet(a);
    if a.date != "" {
      assert body == (Header + "\n" + t) + ("\n" + a.date + "\n" + a.url);
    } else {
      assert body == (Header + "\n" + t) + ("\n" + a.url);
    }
  }

  /** When the URL and the date leave at least room for the ellipsis (a URL plus date reserve of at
      most 254), the body fits in 280 code points; in fact in 272. */
  lemma TweetFits(a: Article)
    requires |a.url| + (if a.date != "" then |a.date| + 3 else 0) <= 254
    ensures |CreateTweet(a)| <= 272 <= MaxLength
  {
    TweetLength(a);
  }

  /** The title line is always the fitted title: a title that fits is tweeted whole, and with room
      for the ellipsis a longer one keeps its first `available - 3` characters. */
  lemma TitlePreservedOrCut(a: Article)
    ensures StartsWith(CreateTweet(a), Header + "\n" + FitTitle(a.title, Available(a)) + "\n")
    ensures |a.title| <= Available(a) ==> StartsWith(CreateTweet(a), Header + "\n" + a.title + "\n")
    ensures |a.title| > Available(a) >= 3 ==>
              StartsWith(CreateTweet(a), Header + "\n" + a.title[..Available(a) - 3] + Ellipsis + "\n")
  {
    var t := FitTitle(a.title, Available(a));
    var body := CreateTweet(a);
    var rest := if a.date != "" then a.date + "\n" + a.url else a.url;
    assert body == Header + "\n" + t + "\n" + rest;
    assert body[..|Header + "\n" + t + "\n"|] == Header + "\n" + t + "\n";
  }

  /** With a URL of 23 code points, no date and a title of 300, the body fits and the title is cut
      with an ellipsis. */
  lemma LongTitleExample(a: Article)
    requires |a.url| == 23 && a.date == "" && |a.title| == 300
    ensures |CreateTweet(a)| <= MaxLength
    ensures FitTitle(a.title, Available(a)) == a.title[..231] + Ellipsis
  {
    TweetFits(a);
  }

  /** When the reserves leave less than 3 code points, the cut of a too-long title counts from its
      end (a negative slice bound), so the cut title is longer than the room left for it, and a
      long URL can push the body past the limit. */
  lemma ShortBudgetOverrun(a: Article)
    requires Available(a) < 3 && |a.title| > Available(a)
    ensures |FitTitle(a.title, Available(a))| > Available(a)
    ensures a.date == "" && |a.url| == 260 && |a.title| == 10 ==> |CreateTweet(a)| == 282 > MaxLength
  {
    TweetLength(a);
  }
}
