/**
 * The run's log: one event per line the crawler appends to `logs`, without the
 * `[datetime.now()]` prefix and without the random wait durations.
 */
module Events {

  datatype LogEvent =
    // scrape_articles
    | ProcessingArticle(index: nat, total: nat, url: string)  // "Processing article i/n: url"
    | ArticleAttempt(attempt: nat, url: string)               // "Attempt k - GET url"
    | ArticleStatus(url: string, status: int)                 // "Failed to fetch url. HTTP Status Code: s"
    | ArticleFetched(url: string)                             // "Successfully fetched url, parsing content..."
    | ContentTooShort(url: string)                            // "Content too short for article: url"
    | ArticleParsed(url: string)                              // "Successfully parsed article: url"
    | ArticleError(url: string, message: string)              // "Error processing url: e"
    | ArticleGiveUp(url: string, maxRetries: nat)             // "Giving up on article url after m attempts."
    | NextArticleWait                                         // "Waiting d seconds before next article..."
    // shared by both retry loops
    | RetryWait                                               // "Waiting ds before retry..."
    // scrape_rss_feed
    | FeedStart(url: string)                                  // "Starting to fetch RSS: url"
    | FeedAttempt(attempt: nat, url: string)                  // "Attempt k - GET url"
    | FeedStatus(url: string, status: int)                    // "Failed to fetch RSS url. HTTP Status: s"
    | FeedFetched(url: string)                                // "Successfully fetched RSS url, parsing XML..."
    | FeedFound(count: nat, url: string)                      // "Found n articles from url"
    | FeedError(url: string, message: string)                 // "Error fetching RSS: url, e"
    | FeedGiveUp(url: string, maxRetries: nat)                // "Giving up on RSS url after m attempts."
    // scrape
    | Completed(total: nat)                                   // "Scraping completed. Total articles: n. ..."
    | NoArticles                                              // "No articles found from the selected RSS sources."

  /** The kinds of line whose number the retry properties are about. */
  datatype Kind = GetLine | WaitLine | GiveUpLine

  predicate Is(e: LogEvent, kind: Kind) {
    match kind
    case GetLine => e.ArticleAttempt? || e.FeedAttempt?
    case WaitLine => e.RetryWait?
    case GiveUpLine => e.ArticleGiveUp? || e.FeedGiveUp?
  }

  /** How many lines of `log` are of the given kind. */
  function Count(log: seq<LogEvent>, kind: Kind): (r: nat) {
    if log == [] then 0 else (if Is(log[0], kind) then 1 else 0) + Count(log[1..], kind)
  }

  /** Counting distributes over appending lines. */
  lemma {:induction false} CountAppend(a: seq<LogEvent>, b: seq<LogEvent>, kind: Kind)
    ensures Count(a + b, kind) == Count(a, kind) + Count(b, kind)
  {
    if a == [] {
      assert a + b == b;
    } else {
      assert (a + b)[1..] == a[1..] + b;
      CountAppend(a[1..], b, kind);
    }
  }

  lemma CountOne(e: LogEvent, kind: Kind)
    ensures Count([e], kind) == if Is(e, kind) then 1 else 0
  {
    assert [e][1..] == [];
  }

  lemma AppendAssoc<T>(a: seq<T>, b: seq<T>, c: seq<T>)
    ensures a + (b + c) == (a + b) + c
  {
  }

  /** The `logs` list, which every stage appends to in place and never shrinks. */
  class Log {
    var entries: seq<LogEvent>

    constructor ()
      ensures entries == []
    {
      entries := [];
    }

    method Append(e: LogEvent)
      modifies this
      ensures entries == old(entries) + [e]
    {
      entries := entries + [e];
    }
  }
}
