# YUKI INFO bot — a verified model of its decision logic

`yuki_bot.py` watches the announcement listing of the YUKI official site
(`https://www.yukiweb.net/info/`) and tweets every announcement it has not seen before. This
project models in Dafny the parts of that bot that make its decisions, and proves what they
promise:

- **The pass** (`check_and_tweet`). This is the class `Bot.YukiBot`, with a `snapshot` field (the
  last-checked file) and an append-only `sent` log of tweets handed to the posting service.
  `CheckAndTweet` is proved equal to the pass function `Bot.Pass`. Lemmas about `Pass` state the
  rules of a pass:
  - an empty extraction changes nothing;
  - an empty snapshot is a first run: record, do not tweet;
  - otherwise tweet the articles whose URL is non-empty and not in the snapshot, in page order;
  - then overwrite the snapshot with the full list, whatever the tweets returned.
- **Change detection** (`ChangeDetection`). New articles are a filter of the current list by URL.
  `is_new_article` is modelled as the early-return loop it is.
- **The snapshot file** (`Store`): missing, unparsable, or parsed with or without `last_articles`.
- **The tweet composer** (`Composer`). This covers the length budget and the truncation with
  `...`. Lengths are code-point counts, as Python's `len` gives them; the header is 13 code points.
- **URL resolution** (`Urls`): the three-way prefix rule used by both the marker scan and the link
  fallback.
- **The extraction cascade** (`Extraction`, `DatePattern`). This is run over an abstract page: a
  list of element records. It covers:
  - the three marker scans and the `/info/` link fallback;
  - the anchor lookup (descendant first, then ancestor);
  - the date lookup: a date/time-classed element first, else a leftmost-longest search for
    `\d{4}[/\-年]\d{1,2}[/\-月]\d{1,2}[日]?`, modelled as a small matcher and proved against a
    declarative reading of the pattern.
- **The credential check** (`Credentials`): the ordered list of unset or empty credentials.

The extraction loops (`ScanAllClasses`, `InferFromLinks`, `ArticlesFromMarkers`) and the pass
loops (`FindNewArticles`, `TweetAll`) are methods proved against the functions that specify them.

One behaviour of `create_tweet` is worth knowing. When the URL and date reserves leave fewer than
3 code points for the title, `title[:available-3]` has a negative bound. Python then counts from
the end of the title, so the cut title is longer than the room it was cut for
(`Composer.ShortBudgetOverrun`). The 280 bound is proved only when the reserves leave room for the
ellipsis (`Composer.TweetFits`).

## Model

| member | source | states |
|---|---|---|
| Text.Lower | yuki_bot.py:157 | `x.lower()` keeps the length and lower-cases each ASCII capital, leaving every other character alone |
| Text.SliceTo | yuki_bot.py:177 | Python's `s[:n]`: a prefix of `n` characters, the whole string past the end, and a bound counted from the end when `n` is negative |
| Articles.UrlSet | yuki_bot.py:373 | the set of snapshot URLs holds the URL of every snapshot article and nothing else |
| Urls.Resolve | yuki_bot.py:181-184 | the result starts with `http`; an href starting with `http` is kept, one starting with `/` gets the host prepended, any other gets the listing URL prepended |
| Urls.ResolveNonEmpty | yuki_bot.py:209-212 | a resolved URL is never empty; the empty href resolves to the listing URL |
| Urls.ResolveFixedPoints | yuki_bot.py:209-212 | resolution leaves an href unchanged exactly when it starts with `http` |
| Urls.ResolveIdempotent | yuki_bot.py:209-212 | resolving twice gives the same URL as resolving once |
| Urls.ResolveKeepsSegment | yuki_bot.py:181-184 | a substring of the href, such as `/info/`, survives resolution |
| DatePattern.DigitRun | yuki_bot.py:225 | the greedy `\d{1,2}` takes at most two digits, all digits, and stops only at the end or at a non-digit |
| DatePattern.MatchAt | yuki_bot.py:225-227 | a match of the engine at a position is 8 to 11 code points long, inside the text, starts with a digit, has a year separator after four characters and ends with a digit or `日` |
| DatePattern.MatchAtIsLongest | yuki_bot.py:225 | the greedy matcher at a position finds a word of the pattern, and finds one whenever the pattern has one there, never shorter than any |
| DatePattern.SearchFrom | yuki_bot.py:227 | the search from a position returns the first position holding a word of the pattern and the longest word there, or none when no later position holds one |
| DatePattern.SearchDate | yuki_bot.py:225-229 | `re.search(...).group(0)` is the leftmost, longest word of the pattern in the text; no result exactly when the text has none |
| DatePattern.SearchDateExample | yuki_bot.py:225-229 | in `公開 2024年3月15日` the search skips the prefix and takes the day suffix |
| Extraction.Stage1 | yuki_bot.py:153 | the exact scan keeps, in page order, exactly the elements with a class token equal to `infoTitle` |
| Extraction.Stage2 | yuki_bot.py:157 | the case-insensitive scan keeps, in page order, exactly the elements with a class token containing `infotitle` once lower-cased |
| Extraction.MarkerElements | yuki_bot.py:152-165 | the marker list is empty exactly when the first two scans find nothing, holds only page elements, is the exact scan's result whenever that is non-empty, and the case-insensitive scan's result otherwise |
| Extraction.LinkTitle | yuki_bot.py:172-177 | a fallback title is the anchor's own text when non-empty, else the first 100 code points of the enclosing block's text (all of it when shorter), else empty |
| Extraction.LinkArticle | yuki_bot.py:168-191 | an anchor gives a fallback article exactly when its href contains `/info/`, is not `/info/` and its title is longer than 5; the article has that title, the resolved href, no date and the pass time |
| Extraction.AnchorHref | yuki_bot.py:198-203 | the link of a title element is its descendant anchor's href when there is one, else its ancestor anchor's, and none exactly when it has neither |
| Extraction.LinkArticles | yuki_bot.py:167-191 | the fallback gives at most one article per page element |
| Extraction.MarkerArticles | yuki_bot.py:193-238 | the marker loop gives at most one article per marker element |
| Extraction.FirstDatePart | yuki_bot.py:219 | the first descendant of the container with a class containing `date` or `time` (ignoring case), or none exactly when no descendant has one |
| Extraction.DateOf | yuki_bot.py:214-221 | no container gives no date, and the first date-classed element's text is the date whenever there is one |
| Extraction.DateLookup | yuki_bot.py:214-229 | no container gives no date; a date-classed element's text is used even when empty; otherwise the date is the leftmost-longest pattern match, empty exactly when there is none |
| Extraction.AnyClassHasMarkerExists | yuki_bot.py:164 | the token-by-token `any(...)` holds exactly when some class token contains `infotitle` ignoring case |
| Extraction.Stage3SameAsStage2 | yuki_bot.py:155-165 | the third scan keeps exactly the elements the second keeps, so it cannot add matches |
| Extraction.FallbackExactlyWithoutMarkers | yuki_bot.py:167-169 | the link fallback runs exactly when neither the exact nor the case-insensitive scan finds an element, and then its articles are the result |
| Extraction.SecondStageWins | yuki_bot.py:155-157 | when the exact scan finds nothing and the case-insensitive scan finds something, the articles are built from the case-insensitive scan's elements |
| Extraction.CascadeShortCircuit | yuki_bot.py:152-160 | when the exact scan finds elements, the result is built from them alone, and any page with the same exact-scan elements gives the same articles |
| Extraction.MarkerArticle | yuki_bot.py:193-238 | a marker element gives an article exactly when it has a link and a non-empty title; the article carries that title, the pass time, the looked-up date and a URL starting with `http` |
| Extraction.Extract | yuki_bot.py:153-238 | the cascade gives at most one article per page element, each stamped with the pass time |
| Extraction.ScannedDocument | yuki_bot.py:142-153 | a failed fetch leaves no page; a page with exact markers, or without a browser, is scanned itself; otherwise the rendered page is scanned, and a failed rendering leaves no page |
| Extraction.InfoArticles | yuki_bot.py:126-280 | a failed fetch, or a failed rendering of a page without exact markers, gives no articles; every article carries the pass time |
| Extraction.MarkerArticleIff | yuki_bot.py:197-238 | a marker element gives an article exactly when it has a descendant or ancestor link and a non-empty title; the article has that title, the resolved link (descendant first), the looked-up date and the pass time |
| Extraction.MarkersWithoutLinksYieldNothing | yuki_bot.py:193-205 | marker elements without any link give no articles, and the link fallback is not consulted |
| Extraction.LinkArticlesShape | yuki_bot.py:168-191 | every fallback article comes from an anchor whose href contains `/info/` and is not `/info/`, has a title longer than 5, an empty date, and a URL containing `/info/` |
| Extraction.ExtractedArticlesWellFormed | yuki_bot.py:153-238 | every extracted article has a non-empty title, a URL starting with `http` and the pass time |
| Extraction.FailedPageYieldsNothing | yuki_bot.py:142-153 | a failed fetch gives no articles whatever the browser; without exact markers a failed rendering gives none and a missing browser leaves the plain page; with exact markers the rendering is never used |
| Extraction.FetchInfoArticles | yuki_bot.py:126-153 | the extraction of a pass returns exactly the articles of the cascade on the page it scans |
| Extraction.ExtractArticles | yuki_bot.py:151-238 | reassigning the marker list stage by stage and then building articles gives exactly the cascade's result |
| Extraction.Stage3 | yuki_bot.py:159-165 | the third scan keeps exactly the elements with some class token containing `infotitle` once lower-cased, tested token by token |
| Extraction.ScanAllClasses | yuki_bot.py:159-165 | the third-scan loop appends exactly the elements with a class token containing the marker, in page order |
| Extraction.InferFromLinks | yuki_bot.py:167-191 | the fallback loop builds exactly the fallback articles, in page order |
| Extraction.ArticlesFromMarkers | yuki_bot.py:193-238 | the marker loop builds exactly one article per marker element that qualifies, in order |
| Composer.Available | yuki_bot.py:315-320 | the room for the title and the URL and date reserves together are the 280 limit less the 20 of slack and the URL's 3 |
| Composer.FitTitle | yuki_bot.py:315-322 | a title that fits is kept; a longer one, with at least 3 code points of room, becomes its first `available-3` code points plus `...`, exactly `available` long; with less room the cut keeps the first `len(title)+available-3` code points (none when that is negative) plus `...` |
| Composer.CreateTweet | yuki_bot.py:308-330 | the body opens with the header line and ends with the URL; `TitlePreservedOrCut` gives the fitted title line and `TweetDateLine` the rest |
| Composer.TweetLength | yuki_bot.py:324-328 | the header is 13 code points; the body is 15 plus the fitted title, the URL, and the date with its line break when there is a date |
| Composer.TweetShape | yuki_bot.py:324-328 | the body opens with the header line and ends with the URL line |
| Composer.TweetDateLine | yuki_bot.py:324-328 | after the title line comes a date line exactly when the date is non-empty, then the URL line |
| Composer.TweetFits | yuki_bot.py:314-322 | when the URL's length plus the date reserve is at most 254, the body is at most 272 code points, within 280 |
| Composer.TitlePreservedOrCut | yuki_bot.py:319-328 | the line after the header is always the fitted title: the whole title when it fits, else, with at least 3 code points of room, its first `available-3` code points and `...`, and with less room the cut counted from the end of the title plus `...` |
| Composer.LongTitleExample | yuki_bot.py:315-322 | a 300-code-point title with a 23-code-point URL and no date is cut to 231 plus `...` and the body fits |
| Composer.ShortBudgetOverrun | yuki_bot.py:320-322 | with less than 3 code points of room the cut title is longer than the room, and a 260-code-point URL gives a 282-code-point body |
| Store.LoadLastArticles | yuki_bot.py:282-290 | a missing or unparsable file, or one without `last_articles`, loads as no articles; otherwise the stored list |
| Store.SaveLastChecked | yuki_bot.py:292-299 | the saved file loads back as the saved list |
| Store.LoadAfterSave | yuki_bot.py:292-299 | loading a saved file gives back the saved list, and the save records its time |
| ChangeDetection.NewArticles | yuki_bot.py:371-379 | an article is new exactly when it is in the current list, its URL is non-empty, and the URL is not a snapshot URL |
| ChangeDetection.NewArticlesAppend | yuki_bot.py:375-379 | new articles of a concatenation are those of each part, in order |
| ChangeDetection.OrderPreserved | yuki_bot.py:375-379 | against the snapshot `[b]`, the list `[a, b, c]` gives `[a, c]`: current order kept |
| ChangeDetection.UnchangedPageHasNothingNew | yuki_bot.py:373-379 | a list compared with a snapshot of itself has no new article |
| ChangeDetection.UrlIsIdentity | yuki_bot.py:373 | an article whose URL the snapshot holds is not new, whatever its title or date |
| ChangeDetection.OnlyUrlsMatter | yuki_bot.py:373 | two snapshots with the same URLs position by position give the same new articles |
| ChangeDetection.IsNewArticle | yuki_bot.py:301-306 | the early-return scan says new exactly when no snapshot article has the same URL |
| Credentials.MissingCredentials | yuki_bot.py:49-57 | at most the four names are reported, and none exactly when all four credentials are set and non-empty |
| Credentials.FirstTwoMissing | yuki_bot.py:49-53 | the first two checks report the unset ones of the first two names, in order |
| Credentials.MissingInRequiredOrder | yuki_bot.py:49-57 | the reported names are exactly the unset or empty credentials, in the order of the four checks |
| Credentials.CheckCredentials | yuki_bot.py:49-68 | start-up goes on exactly when all four credentials are set, and otherwise fails with the non-empty list of missing names |
| Bot.Deliveries | yuki_bot.py:381-387 | one tweet per new article, in order, with the composed body and the service's answer to that tweet |
| Bot.Pass | yuki_bot.py:344-392 | an empty extraction leaves the state as it was; otherwise the snapshot loads back as the full list; the sent log only grows, and does not grow when the snapshot was empty |
| Bot.FindNewArticles | yuki_bot.py:371-379 | the selection loop appends exactly the new articles, in order, duplicates kept |
| Bot.YukiBot.SaveSnapshot | yuki_bot.py:292-299 | the snapshot is overwritten with the time and the full list; the sent log is unchanged |
| Bot.YukiBot.TweetArticle | yuki_bot.py:332-342 | one composed body is appended to the sent log, and the result is the service's answer |
| Bot.YukiBot.TweetAll | yuki_bot.py:381-387 | the tweet loop appends one delivery per new article, in order, and does not stop at a failure |
| Bot.YukiBot.CheckAndTweet | yuki_bot.py:344-392 | the new snapshot and sent log are those of one pass on the extracted articles |
| Bot.EmptyExtractionChangesNothing | yuki_bot.py:349-353 | a pass that extracts nothing neither saves nor tweets |
| Bot.SnapshotHoldsFullList | yuki_bot.py:385-392 | after a pass that extracts something, the snapshot holds the full list, never empty, whatever the tweets returned |
| Bot.FirstRunIsSilent | yuki_bot.py:357-369 | an empty snapshot means nothing is tweeted in the pass |
| Bot.LaterRunTweetsNewArticles | yuki_bot.py:371-387 | with a non-empty snapshot, the pass sends one tweet per new article, in order, after the earlier log |
| Bot.SentLogOnlyGrows | yuki_bot.py:344-392 | a pass only appends to the sent log |
| Bot.FirstRunAtMostOnce | yuki_bot.py:362-392 | after a pass that extracted something, the next pass is not a first run and tweets the articles with URLs new against the earlier list |
| Bot.RepeatedPassIsSilent | yuki_bot.py:371-392 | two passes over the same list: the second tweets nothing |
| Bot.AnnouncementArticles | yuki_bot.py:193-238 | each announcement element of the scenario gives its article, with the link resolved against the host |
| Bot.SecondPageMarkers | yuki_bot.py:153 | the exact scan keeps both announcement elements of the scenario page |
| Bot.FirstPageExtraction | yuki_bot.py:153-238 | the scenario's first page gives the one article |
| Bot.SecondPageArticles | yuki_bot.py:193-238 | the two announcement elements give their two articles, in page order |
| Bot.SecondPageExtraction | yuki_bot.py:153-238 | the scenario's second page gives both articles, in page order |
| Bot.ScenarioNewArticles | yuki_bot.py:371-379 | against the first page's snapshot only the second announcement is new |
| Bot.ScenarioPasses | yuki_bot.py:344-392 | in the scenario, the first pass records and tweets nothing, and the second tweets only the new announcement |
| Bot.FirstRunThenOneNewAnnouncement | yuki_bot.py:344-392 | from the pages to the log: a first run stays silent, and the next pass tweets only the announcement added since |

## Left out

- Posting (yuki_bot.py:71-86, 336-338): the client and the network are not modelled. The service's answers to the tweets of a pass are a parameter (`outcomes`), and `tweet_article` only appends to the sent log.
- Browser rendering (yuki_bot.py:88-124): modelled as an optional alternative page (`Rendering`). A failed rendering leads to an exception at line 153, which the handler turns into an empty result; that is what the model returns.
- HTTP fetch and HTML parsing (yuki_bot.py:134-138): the page is a list of element records. Each record carries what the extractor asks of the tree: class tokens, stripped text, descendant and ancestor anchor hrefs, the container's descendants and text, and the enclosing block's text.
- Extraction.HasMarkerIgnoringCase: class filters are tested token by token. The HTML library also tests the space-joined class string, but no needle (`infotitle`, `date`, `time`) contains a space, so that adds no match.
- Text.Lower: only the ASCII capitals are lower-cased. Python lower-cases every cased letter, but no other letter lower-cases into the ASCII needles searched for.
- DatePattern.SearchDate: `\d` is restricted to the ASCII digits. Python also matches the other Unicode decimal digits.
- Store.LoadLastArticles: JSON reading and writing (yuki_bot.py:284-299) are not modelled. The file is `Missing`, `Unparsable` or `Parsed`. Files the source cannot handle are not modelled either: JSON that is not an object; a `last_articles` value that is not a list, where `null` or a number makes `len` raise at yuki_bot.py:362 and a non-empty string makes `article.get` raise at yuki_bot.py:373, ending the pass with an exception the pass does not catch; and articles without a `url` key, whose URL the source counts as empty.
- Timestamps (yuki_bot.py:190, 236, 295): one opaque `now` string per pass is used for every article timestamp and for `last_check`.
- Timing and process lifetime: the sleep between tweets, the schedule loop, interrupt handling and command-line mode selection (yuki_bot.py:387, 394-441) are not modelled.
- Diagnostic printing (yuki_bot.py:240-272): output only.
- Twitter's weighted counting of characters is not in the code; lengths here are code-point counts, as `len` gives them.
- ChangeDetection.IsNewArticle: modelled as written, although the pass does not call it. The pass uses the set comparison of yuki_bot.py:372-379, which also rejects empty URLs.
