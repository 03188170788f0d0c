# crawler-rss fetch pipeline in Dafny

This project models the fetch pipeline of the crawler-rss news crawler (`app.py`):

- `scrape_rss_feed` turns an RSS feed URL into a list of article URLs.
- `scrape_articles` fetches each article URL and keeps its paragraph text when it is long enough.
- `scrape` builds the feed list from the selected presets and a custom URL, runs both stages feed by feed, and produces the log and the output text.

Both fetchers make up to `max_retries` attempts per URL and stop at the first good attempt. After every failed attempt they log a "Waiting … before retry" line, the last one included. Exhaustion logs a "Giving up" line.

The network and the HTML/XML parser are oracles indexed by (URL, attempt number), so repeated fetches of one URL see the same replies (see "## Left out"):

- `PageNet` gives, per attempt, an exception or a status with the paragraph texts.
- `FeedNet` gives, per attempt, an exception or a status with, per `<item>`, its `<link>` text or nothing.

Log lines are `LogEvent` values. They carry no timestamp and no random wait duration.

The `logs` list is a `Log` object whose `entries` only grow. The fetch methods take it and append to it in place, as the Python functions do. Each imperative method is proved against a specification function:

| method | specification function |
|---|---|
| `Articles.TryArticle` | `ArticleStep` |
| `Articles.RetryArticle` | `FetchArticle` |
| `Articles.ScrapeOne` | `ArticleBlock` |
| `Articles.ScrapeArticles` | `Scraped` |
| `Feeds.TryFeed` | `FeedStep` |
| `Feeds.RetryFeed` | `FetchFeed` |
| `Feeds.ScrapeRssFeed` | `Resolve` |
| `Pipeline.ScrapeFeed` | `FeedBatch` |
| `Pipeline.ScrapeFeeds` | `Run` |
| `Pipeline.BuildFeedList` | `FeedList` |
| `Pipeline.WriteOutput` | `Render` |
| `Pipeline.Scrape` | `ScrapeResult` |

The lemmas below state what the source promises about those functions.

Modules:

- `Wrappers` defines `Option`.
- `Text` models Python's `str.strip()` and `"\n".join`.
- `Events` defines the log events, line counting and the `Log` class.
- `Retry` is the attempt loop shared by both fetchers, as a function `Tries` over the outcomes of the allowed attempts.
- `Articles`, `Feeds` and `Pipeline` model the three Python functions.

A retry loop usually waits only between attempts; this code also waits after the last failed one, before giving up (app.py:67-70 and 105-108). The model follows the code: a URL whose every attempt fails logs `max_retries` RetryWait lines.

## Model

| member | source | states |
|---|---|---|
| Text.StripLeftSpec | app.py:57 | lstrip drops exactly a whitespace prefix and leaves a result that is empty or starts with a non-whitespace character |
| Text.StripRightSpec | app.py:57 | rstrip drops exactly a whitespace suffix and leaves a result that is empty or ends with a non-whitespace character |
| Text.StripSpec | app.py:57 | strip returns a slice of its input whose surroundings are all whitespace and whose ends are not whitespace |
| Text.StripEmptyIff | app.py:97 | a string strips to "" exactly when it is all whitespace, which is the test `if s.strip():` makes |
| Text.StripIdempotent | app.py:98 | stripping an already stripped link changes nothing |
| Text.SplitJoinLines | app.py:56 | joining a non-empty list of newline-free paragraph texts with "\n" loses nothing: splitting the content at newlines gives them back in order |
| Text.JoinNoParagraphs | app.py:55-56 | a page with no `<p>` gives the content "", the same as one empty paragraph, and "" splits back to [""] |
| Events.CountAppend | app.py:44-77 | line counts add up over appended log segments |
| Events.Log.constructor | app.py:119 | `scrape` starts from an empty log |
| Events.Log.Append | app.py:44 | `logs.append` adds exactly one line at the end and changes nothing before it |
| Retry.TriesFailIff | app.py:46-70 | the attempt loop ends without a value exactly when every allowed attempt fails |
| Retry.TriesSound | app.py:60-63 | a value the loop yields is that of some attempt, and every attempt before it failed |
| Retry.TriesFirst | app.py:62-63 | the loop yields the value of the first good attempt (the `break`) |
| Retry.TriesCounts | app.py:46-70 | at most one GET line per allowed attempt, all of them on failure; one RetryWait line per failed attempt, the last included; no give-up line inside the loop |
| Retry.TriesOrder | app.py:46-70 | the loop's lines are, in order, each failed attempt's lines followed at once by its RetryWait line, then the good attempt's lines (and nothing after them) or, after the last failure, its RetryWait line |
| Retry.FailedCounts | app.py:46-70 | the failed attempts before the end logged one GET and one RetryWait line each, and no give-up line |
| Retry.TriesStopsAtFirst | app.py:46-63 | when attempt j is the first good one, exactly j GETs are made |
| Articles.ArticleStepGood | app.py:47-65 | an attempt is good exactly when the status is 200 and the stripped joined paragraphs are at least 50 characters long; it keeps the unstripped joined text |
| Articles.TryArticle | app.py:47-65 | one attempt logs its lines and returns the content exactly as ArticleStep says |
| Articles.RetryArticle | app.py:45-70 | the attempt loop appends exactly FetchArticle's lines and returns its content |
| Articles.ScrapeOne | app.py:44-77 | one URL appends its progress line, attempt lines, give-up line on failure and pacing line, and yields at most one record |
| Articles.ScrapeArticles | app.py:41-79 | returns Scraped's records, and the log gains exactly Scraped's lines after what it held (append-only) |
| Articles.ArticleAttemptGoodAt | app.py:46-63 | entry i of the outcome list is good exactly when reply i+1 passes both checks |
| Articles.ArticleStepLines | app.py:48-65 | each attempt logs exactly one GET line and no wait or give-up line of its own |
| Articles.ArticleAttemptsLines | app.py:46-65 | every attempt of a URL logs exactly one GET line |
| Articles.FetchArticleFails | app.py:46-73 | a URL gets no record exactly when none of its max_retries replies passes both checks |
| Articles.FetchArticleFirstGood | app.py:46-63 | when attempt j is the first good one, the record holds that reply's joined paragraphs and exactly j GETs were made |
| Articles.FetchArticleKeptIsGood | app.py:56-60 | kept content passes the 50-character floor and is the joined text of a good reply |
| Articles.ArticleBlockLines | app.py:44-77 | per URL: at most max_retries GETs, all of them when dropped; one RetryWait per failed attempt; one give-up line exactly when dropped |
| Articles.ScrapedPrefixKept | app.py:43-63 | the records after n URLs are Kept of the first n URLs, whatever the progress numbering |
| Articles.ScrapedKept | app.py:41-79 | scrape_articles keeps exactly one record per URL whose attempt loop succeeded, in URL order |
| Articles.KeptAppend | app.py:43 | record lists concatenate with URL lists, so order is preserved |
| Articles.KeptSound | app.py:60 | there are no more records than URLs; each names a URL of the list, holds the content its loop kept, and passes the floor |
| Articles.KeptInOrder | app.py:43-60 | the records are a subsequence of the URL list: their positions strictly increase |
| Articles.KeptComplete | app.py:60-63 | every URL whose loop succeeded has its record |
| Articles.ScrapedPrefixLines | app.py:43-77 | over the first n URLs: at most n·max_retries GETs; one give-up line per URL without a record; one RetryWait per failed attempt |
| Articles.ScrapedLines | app.py:41-79 | the same counts for the whole call |
| Feeds.FeedStepGood | app.py:86-101 | a feed attempt succeeds exactly on status 200, even with no link, and yields the extracted links |
| Feeds.TryFeed | app.py:86-103 | one attempt logs its lines and returns the links as FeedStep says; its item loop collects exactly Links |
| Feeds.RetryFeed | app.py:85-108 | the attempt loop appends exactly FetchFeed's lines and returns its links |
| Feeds.ScrapeRssFeed | app.py:81-113 | returns Resolve's URLs, and the log gains exactly Resolve's lines (append-only) |
| Feeds.LinksAppend | app.py:95-98 | link extraction concatenates over item lists, so item order is preserved |
| Feeds.LinksSound | app.py:95-98 | every URL is non-empty, already stripped, and the stripped link of some item; there are no more URLs than items |
| Feeds.LinksComplete | app.py:95-98 | every item whose link is not blank contributes its stripped link |
| Feeds.FeedAttemptGoodAt | app.py:85-101 | entry i of the outcome list is good exactly when reply i+1 has status 200 |
| Feeds.FeedStepLines | app.py:87-103 | each attempt logs exactly one GET line and no wait or give-up line of its own |
| Feeds.FeedAttemptsLines | app.py:85-103 | every attempt of a feed logs exactly one GET line |
| Feeds.FetchFeedFails | app.py:85-113 | a feed fails, returns no URL and logs the give-up line exactly when none of its replies has status 200 |
| Feeds.ResolveFirstOk | app.py:85-101 | when attempt j is the first with status 200, the URLs are that response's links and exactly j GETs were made |
| Feeds.ResolveLines | app.py:81-111 | per feed: at most max_retries GETs, all of them on failure; one RetryWait per failed attempt; one give-up line exactly on failure |
| Pipeline.PresetsAt | app.py:121-122 | the preset part of the list has one URL per selected name, in selection order |
| Pipeline.FeedListSpec | app.py:120-124 | the list fails exactly on an unknown name; otherwise it holds the selected presets' URLs in order, then the stripped custom URL exactly when that is not blank |
| Pipeline.BuildFeedList | app.py:120-124 | the loop builds FeedList, and stops at the first unknown name |
| Pipeline.RunAppend | app.py:126-131 | running two feed lists in turn gives the records and the lines of the first, then those of the second |
| Pipeline.RunSound | app.py:126-131 | every record comes from a URL some feed listed, holds what that URL's attempt loop kept, and passes the floor |
| Pipeline.RunComplete | app.py:126-131 | every URL a feed listed whose attempt loop succeeded has its record in `all_articles` |
| Pipeline.FeedBatchLines | app.py:128-131 | per feed: waits plus successes equal GETs; one give-up line for a failed feed and one per listed URL without a record |
| Pipeline.ScrapeFeed | app.py:128-131 | one pass of the feeds loop appends exactly FeedBatch's lines; articles are fetched only when the feed listed URLs |
| Pipeline.ScrapeFeeds | app.py:126-131 | the feeds loop yields Run's records and appends exactly Run's lines |
| Pipeline.BlocksAppend | app.py:141-143 | the text of two record lists is the text of the first followed by that of the second |
| Pipeline.RenderHoldsBlock | app.py:139-143 | record k's `URL: …\nContent: …\n\n` block sits between the blocks of the records before and after it |
| Pipeline.RenderNoArticlesIff | app.py:139-147 | the output is "No articles found." exactly when there is no record |
| Pipeline.WriteOutput | app.py:139-147 | the writing loop produces exactly Render's text |
| Pipeline.ScrapeOutcome | app.py:115-150 | scrape ends normally exactly when every name is a preset; the log is the run's lines plus one summary line; "No articles found." in the file goes with the no-articles line, otherwise the line counts the records |
| Pipeline.ReportOutcome | app.py:139-150 | for any run, the summary line is appended after the run's lines and says "no articles" exactly when the output text is "No articles found.", and otherwise counts the records |
| Pipeline.ScrapeQuality | app.py:126-144 | every record written passes the floor and was listed by a selected feed |
| Pipeline.Scrape | app.py:115-150 | scrape produces ScrapeResult: the feed list, the run, the output text and the summary line |

## Left out

- The network, timeouts and parsers: `requests.get`, its timeout argument, BeautifulSoup and `get_text(strip=True)` are the `PageNet`/`FeedNet` oracles. The model receives paragraph texts and link texts as given.
- Exceptions raised by the parsers after a 200 response, and so after the "Successfully fetched" line, are not modelled. Only `requests.get` raises, as a `Raised` reply.
- `time.sleep` and `random.uniform`: a wait is logged as RetryWait or NextArticleWait, without its duration.
- The `datetime.now()` prefix of every log line, and the exact wording of the lines: they are `LogEvent` values.
- The newline join of the returned log: `Scrape` returns the list of events.
- The output file name: the timestamp, `uuid4` and path, and writing to disk. The model returns the text that would be written.
- `cleanup_old_files`, `os.makedirs`, the Gradio interface and `HEADERS` are not part of this model.
- `max_retries` is a natural number. A negative value behaves like 0 in Python and is never passed.
- A `KeyError` from an unknown preset name ends `scrape` as `None`. What Python does after that (an exception reaching Gradio) is not modelled.
- Repeated fetches of one URL within a run get the same replies. `PageNet` and `FeedNet` depend only on the URL and the attempt number, whereas the code makes a fresh GET for every occurrence: a story carried by two feeds, a custom URL equal to a selected preset, or a link listed twice by one feed. The model therefore cannot express one occurrence keeping a record while another gives up, or two records of one URL holding different content.
- Articles.KeptSound, Articles.KeptComplete, Pipeline.RunSound and Pipeline.RunComplete: "what that URL's attempt loop kept" is one value per URL only because of the same-replies assumption above.
- Text.SplitJoinLines: holds only when no paragraph text contains a newline of its own. `get_text(strip=True)` can keep inner newlines, so the output content is not claimed to split back in general. It also holds only for at least one paragraph: a page with no `<p>` joins to "", which splits back to [""] (Text.JoinNoParagraphs).
- Pipeline.RenderHoldsBlock: states where each block sits, but no parse of the output file back into records is claimed. A content containing `"\n\nURL: "` would make such a parse ambiguous.
