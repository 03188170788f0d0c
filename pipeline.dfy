/**
 * `scrape` (app.py:115-150): build the list of RSS URLs from the selected
 * preset names and the custom URL, resolve each feed, scrape the articles of
 * every feed that gave URLs, write the output text and append the summary line.
 */
module Pipeline {
  import opened Wrappers
  import opened Text
  import opened Events
  import opened Retry
  import opened Articles
  import opened Feeds

  /** The preset RSS sources, by the name the interface shows (app.py:11-18). */
  const DEFAULT_SOURCES: map<string, string> := map[
    "BBC Business" := "https://feeds.bbci.co.uk/news/business/rss.xml",
    "Bloomberg Technology" := "https://feeds.bloomberg.com/technology/news.rss",
    "WSJ World News" := "https://feeds.content.dowjones.io/public/rss/RSSWorldNews",
    "WSJ US Business" := "https://feeds.content.dowjones.io/public/rss/WSJcomUSBusiness",
    "WSJ Markets" := "https://feeds.content.dowjones.io/public/rss/RSSMarketsMain",
    "WSJ Technology" := "https://feeds.content.dowjones.io/public/rss/RSSWSJD"
  ]

  /** `scrape` calls both fetchers with their default `max_retries=3`. */
  const DEFAULT_MAX_RETRIES: nat := 3

  /** The whole output file when no article was kept. */
  const NO_ARTICLES := "No articles found."

  // ---------------------------------------------------------------------------
  // The feed list (app.py:120-124)

  predicate AllKnown(selected: seq<string>) {
    forall i :: 0 <= i < |selected| ==> selected[i] in DEFAULT_SOURCES
  }

  /** The preset URLs of the selected names, in selection order. */
  function Presets(selected: seq<string>): (r: seq<string>)
    requires AllKnown(selected)
  {
    if selected == [] then []
    else Presets(selected[..|selected| - 1]) + [DEFAULT_SOURCES[selected[|selected| - 1]]]
  }

  /**
   * The RSS list, or None when a selected name is not a preset (the
   * `DEFAULT_SOURCES[src]` lookup raises KeyError and `scrape` ends there).
   */
  function FeedList(selected: seq<string>, custom: string): (r: Option<seq<string>>) {
    if AllKnown(selected) then
      Some(Presets(selected) + (if Strip(custom) != [] then [Strip(custom)] else []))
    else None
  }

  lemma {:induction false} PresetsAt(selected: seq<string>)
    requires AllKnown(selected)
    ensures |Presets(selected)| == |selected|
    ensures forall i :: 0 <= i < |selected| ==> Presets(selected)[i] == DEFAULT_SOURCES[selected[i]]
  {
    if selected != [] {
      var init := selected[..|selected| - 1];
      assert AllKnown(init) by {
        forall i | 0 <= i < |init| ensures init[i] in DEFAULT_SOURCES {
          assert init[i] == selected[i];
        }
      }
      PresetsAt(init);
    }
  }

  /**
   * The list fails exactly when some selected name is unknown; otherwise it
   * holds each selected preset's URL in order, then the stripped custom URL
   * exactly when that is not blank.
   */
  lemma FeedListSpec(selected: seq<string>, custom: string)
    ensures FeedList(selected, custom).None? <==> exists i :: 0 <= i < |selected| && selected[i] !in DEFAULT_SOURCES
    ensures FeedList(selected, custom).Some? ==>
              var feeds := FeedList(selected, custom).value;
              |feeds| == |selected| + (if AllSpace(custom) then 0 else 1) &&
              (forall i :: 0 <= i < |selected| ==> feeds[i] == DEFAULT_SOURCES[selected[i]]) &&
              (!AllSpace(custom) ==> feeds[|selected|] == Strip(custom))
  {
    StripEmptyIff(custom);
    if AllKnown(selected) {
      PresetsAt(selected);
    }
  }

  /** The loop of app.py:120-124; returns None where the lookup would raise KeyError. */
  method BuildFeedList(selected: seq<string>, custom: string) returns (rssList: Option<seq<string>>)
    ensures rssList == FeedList(selected, custom)
  {
    var list: seq<string> := [];
    var i := 0;
    while i < |selected|
      invariant 0 <= i <= |selected|
      invariant AllKnown(selected[..i])
      invariant list == Presets(selected[..i])
    {
      var src := selected[i];
      if src !in DEFAULT_SOURCES {
        assert !AllKnown(selected);
        assert FeedList(selected, custom) == None;
        return None;
      }
      assert selected[..i + 1][..i] == selected[..i];
      list := list + [DEFAULT_SOURCES[src]];
      i := i + 1;
    }
    assert selected[..i] == selected;
    assert AllKnown(selected);
    assert list == Presets(selected);
    var stripped := Strip(custom);
    if stripped != [] {
      list := list + [stripped];
    } else {
      assert list == list + [];
    }
    rssList := Some(list);
    assert rssList == FeedList(selected, custom);
  }

  // ---------------------------------------------------------------------------
  // The feeds loop (app.py:126-131)

  /** One feed's contribution: its scrape_rss_feed lines, then, if it gave URLs, their scrape_articles batch. */
  function FeedBatch(feed: string, feedNet: FeedNet, pageNet: PageNet, maxRetries: nat): (r: Batch) {
    var r := Resolve(feed, feedNet, maxRetries);
    var s := if r.urls != [] then Scraped(r.urls, pageNet, maxRetries) else Batch([], []);
    Batch(s.articles, r.events + s.events)
  }

  /** `all_articles` and `logs` after the loop over `feeds`: the feed batches, concatenated in feed order. */
  function Run(feeds: seq<string>, feedNet: FeedNet, pageNet: PageNet, maxRetries: nat): (r: Batch) {
    if feeds == [] then Batch([], [])
    else
      var b := Run(feeds[..|feeds| - 1], feedNet, pageNet, maxRetries);
      var f := FeedBatch(feeds[|feeds| - 1], feedNet, pageNet, maxRetries);
      Batch(b.articles + f.articles, b.events + f.events)
  }

  lemma RunLast(feeds: seq<string>, feedNet: FeedNet, pageNet: PageNet, maxRetries: nat)
    requires feeds != []
    ensures var done := Run(feeds[..|feeds| - 1], feedNet, pageNet, maxRetries);
            var batch := FeedBatch(feeds[|feeds| - 1], feedNet, pageNet, maxRetries);
            Run(feeds, feedNet, pageNet, maxRetries) == Batch(done.articles + batch.articles, done.events + batch.events)
  {
  }

  lemma RunNext(feeds: seq<string>, feedNet: FeedNet, pageNet: PageNet, maxRetries: nat, n: nat)
    requires n < |feeds|
    ensures var done := Run(feeds[..n], feedNet, pageNet, maxRetries);
            var batch := FeedBatch(feeds[n], feedNet, pageNet, maxRetries);
            Run(feeds[..n + 1], feedNet, pageNet, maxRetries) == Batch(done.articles + batch.articles, done.events + batch.events)
  {
    assert feeds[..n + 1][..n] == feeds[..n];
  }

  /**
   * Running two feed lists one after the other gives the records and the
   * lines of the first, then those of the second: nothing is reordered, lost
   * or shared between feeds.
   */
  lemma {:induction false} RunAppend(a: seq<string>, b: seq<string>, feedNet: FeedNet, pageNet: PageNet, maxRetries: nat)
    ensures Run(a + b, feedNet, pageNet, maxRetries).articles
            == Run(a, feedNet, pageNet, maxRetries).articles + Run(b, feedNet, pageNet, maxRetries).articles
    ensures Run(a + b, feedNet, pageNet, maxRetries).events
            == Run(a, feedNet, pageNet, maxRetries).events + Run(b, feedNet, pageNet, maxRetries).events
    decreases |b|
  {
    if b == [] {
      assert a + b == a;
    } else {
      var init := b[..|b| - 1];
      var last := FeedBatch(b[|b| - 1], feedNet, pageNet, maxRetries);
      var ra := Run(a, feedNet, pageNet, maxRetries);
      var ri := Run(init, feedNet, pageNet, maxRetries);
      assert (a + b)[..|a + b| - 1] == a + init && (a + b)[|a + b| - 1] == b[|b| - 1];
      RunLast(a + b, feedNet, pageNet, maxRetries);
      RunLast(b, feedNet, pageNet, maxRetries);
      RunAppend(a, init, feedNet, pageNet, maxRetries);
      AppendAssoc(ra.events, ri.events, last.events);
      AppendAssoc(ra.articles, ri.articles, last.articles);
    }
  }

  /**
   * Every record kept comes from a URL one of the feeds listed, holds the
   * content that URL's attempt loop kept, and passes the quality floor.
   */
  lemma {:induction false} RunSound(feeds: seq<string>, feedNet: FeedNet, pageNet: PageNet, maxRetries: nat)
    ensures forall a :: a in Run(feeds, feedNet, pageNet, maxRetries).articles ==>
              (exists k :: 0 <= k < |feeds| && a.url in Resolve(feeds[k], feedNet, maxRetries).urls) &&
              FetchArticle(a.url, pageNet, maxRetries).value == Some(a.content) && Acceptable(a.content)
  {
    if feeds != [] {
      var init := feeds[..|feeds| - 1];
      RunSound(init, feedNet, pageNet, maxRetries);
      var r := Resolve(feeds[|feeds| - 1], feedNet, maxRetries);
      if r.urls != [] {
        ScrapedKept(r.urls, pageNet, maxRetries);
        KeptSound(r.urls, pageNet, maxRetries);
      }
      forall a | a in Run(init, feedNet, pageNet, maxRetries).articles
        ensures exists k :: 0 <= k < |feeds| && a.url in Resolve(feeds[k], feedNet, maxRetries).urls
      {
        var k :| 0 <= k < |init| && a.url in Resolve(init[k], feedNet, maxRetries).urls;
        assert init[k] == feeds[k];
      }
    }
  }

  /** Every URL a feed listed whose attempt loop kept content has its record in the output. */
  lemma {:induction false} RunComplete(feeds: seq<string>, feedNet: FeedNet, pageNet: PageNet, maxRetries: nat,
                                       k: nat, url: string)
    requires k < |feeds|
    requires url in Resolve(feeds[k], feedNet, maxRetries).urls
    requires FetchArticle(url, pageNet, maxRetries).value.Some?
    ensures Article(url, FetchArticle(url, pageNet, maxRetries).value.value)
              in Run(feeds, feedNet, pageNet, maxRetries).articles
  {
    var init := feeds[..|feeds| - 1];
    if k < |feeds| - 1 {
      assert init[k] == feeds[k];
      RunComplete(init, feedNet, pageNet, maxRetries, k, url);
    } else {
      var r := Resolve(feeds[k], feedNet, maxRetries);
      ScrapedKept(r.urls, pageNet, maxRetries);
      KeptComplete(r.urls, pageNet, maxRetries, url);
    }
  }

  /**
   * One feed's lines: every GET that did not end its loop with a success is
   * followed by a RetryWait line, and there is one give-up line for a failed
   * feed and one per listed URL left without a record.
   */
  lemma FeedBatchLines(feed: string, feedNet: FeedNet, pageNet: PageNet, maxRetries: nat)
    ensures var f := FeedBatch(feed, feedNet, pageNet, maxRetries);
            var ok := if FetchFeed(feed, feedNet, maxRetries).value.Some? then 1 else 0;
            var listed := |Resolve(feed, feedNet, maxRetries).urls|;
            |f.articles| <= listed &&
            Count(f.events, WaitLine) + ok + |f.articles| == Count(f.events, GetLine) &&
            Count(f.events, GiveUpLine) == (1 - ok) + (listed - |f.articles|)
  {
    var r := Resolve(feed, feedNet, maxRetries);
    var s := if r.urls != [] then Scraped(r.urls, pageNet, maxRetries) else Batch([], []);
    ResolveLines(feed, feedNet, maxRetries);
    FetchFeedFails(feed, feedNet, maxRetries);
    if r.urls != [] {
      ScrapedLines(r.urls, pageNet, maxRetries);
      ScrapedKept(r.urls, pageNet, maxRetries);
      KeptSound(r.urls, pageNet, maxRetries);
    }
    CountAppend(r.events, s.events, GetLine);
    CountAppend(r.events, s.events, WaitLine);
    CountAppend(r.events, s.events, GiveUpLine);
  }

  // ---------------------------------------------------------------------------
  // The output text (app.py:139-148)

  /** What app.py:142-143 writes for one record. */
  function Block(a: Article): (r: string) {
    "URL: " + a.url + "\n" + "Content: " + a.content + "\n\n"
  }

  function Blocks(articles: seq<Article>): (r: string) {
    if articles == [] then ""
    else Blocks(articles[..|articles| - 1]) + Block(articles[|articles| - 1])
  }

  /** The whole output file. */
  function Render(articles: seq<Article>): (r: string) {
    if articles == [] then NO_ARTICLES else Blocks(articles)
  }

  /** Writing two lists one after the other writes their blocks one after the other. */
  lemma {:induction false} BlocksAppend(a: seq<Article>, b: seq<Article>)
    ensures Blocks(a + b) == Blocks(a) + Blocks(b)
    decreases |b|
  {
    if b == [] {
      assert a + b == a;
    } else {
      var init := b[..|b| - 1];
      var last := b[|b| - 1];
      assert (a + b)[..|a + b| - 1] == a + init;
      assert (a + b)[|a + b| - 1] == last;
      BlocksAppend(a, init);
      calc {
        Blocks(a + b);
        Blocks(a + init) + Block(last);
        (Blocks(a) + Blocks(init)) + Block(last);
        Blocks(a) + (Blocks(init) + Block(last));
      }
    }
  }

  /** Record k's block sits between the blocks of the records before it and those after it. */
  lemma RenderHoldsBlock(articles: seq<Article>, k: nat)
    requires k < |articles|
    ensures Render(articles) == Blocks(articles[..k]) + Block(articles[k]) + Blocks(articles[k + 1..])
  {
    assert articles == articles[..k] + [articles[k]] + articles[k + 1..];
    BlocksAppend(articles[..k] + [articles[k]], articles[k + 1..]);
    BlocksAppend(articles[..k], [articles[k]]);
    assert Blocks([articles[k]]) == Block(articles[k]) by {
      assert [articles[k]][..0] == [];
    }
  }

  /** The file says "No articles found." exactly when there is no record: a record's text starts with "URL: ". */
  lemma RenderNoArticlesIff(articles: seq<Article>)
    ensures Render(articles) == NO_ARTICLES <==> articles == []
  {
    if articles != [] {
      RenderHoldsBlock(articles, 0);
      assert articles[..0] == [];
      assert Render(articles)[0] == 'U';
    }
  }

  /** The `with open(...)` block of app.py:139-147: appends what each `f.write` writes. */
  method WriteOutput(articles: seq<Article>) returns (text: string)
    ensures text == Render(articles)
  {
    if articles == [] {
      text := NO_ARTICLES;
      return;
    }
    text := "";
    var i := 0;
    while i < |articles|
      invariant 0 <= i <= |articles|
      invariant text == Blocks(articles[..i])
    {
      var article := articles[i];
      text := text + ("URL: " + article.url + "\n");
      text := text + ("Content: " + article.content + "\n\n");
      assert articles[..i + 1][..i] == articles[..i];
      i := i + 1;
    }
    assert articles[..i] == articles;
  }

  // ---------------------------------------------------------------------------
  // scrape

  /** The last log line (app.py:144 or app.py:148). */
  function Summary(articles: seq<Article>): (r: LogEvent) {
    if articles != [] then Completed(|articles|) else NoArticles
  }

  /** What `scrape` leaves behind: its log lines and the text of the output file. */
  datatype Report = Report(logs: seq<LogEvent>, output: string)

  /** What `scrape(selected, custom)` produces, or None when it raises KeyError. */
  function ScrapeResult(selected: seq<string>, custom: string, feedNet: FeedNet, pageNet: PageNet): (r: Option<Report>) {
    match FeedList(selected, custom)
    case None => None
    case Some(feeds) =>
      var run := Run(feeds, feedNet, pageNet, DEFAULT_MAX_RETRIES);
      Some(Report(run.events + [Summary(run.articles)], Render(run.articles)))
  }

  /**
   * `scrape` ends normally exactly when every selected name is a preset; the
   * file is "No articles found." exactly when the last log line says none was
   * found, and otherwise that line counts the records the file holds.
   */
  lemma ScrapeOutcome(selected: seq<string>, custom: string, feedNet: FeedNet, pageNet: PageNet)
    ensures ScrapeResult(selected, custom, feedNet, pageNet).Some? <==> AllKnown(selected)
    ensures ScrapeResult(selected, custom, feedNet, pageNet).Some? ==>
              var rep := ScrapeResult(selected, custom, feedNet, pageNet).value;
              var run := Run(FeedList(selected, custom).value, feedNet, pageNet, DEFAULT_MAX_RETRIES);
              |rep.logs| > 0 && rep.logs[..|rep.logs| - 1] == run.events &&
              (rep.output == NO_ARTICLES <==> rep.logs[|rep.logs| - 1] == NoArticles) &&
              (rep.output != NO_ARTICLES ==> rep.logs[|rep.logs| - 1] == Completed(|run.articles|) && |run.articles| > 0)
  {
    if AllKnown(selected) {
      ReportOutcome(Run(FeedList(selected, custom).value, feedNet, pageNet, DEFAULT_MAX_RETRIES));
    }
  }

  /** The report built from any run: its lines, then one summary line that agrees with the output text. */
  lemma ReportOutcome(run: Batch)
    ensures var logs := run.events + [Summary(run.articles)];
            logs[..|logs| - 1] == run.events &&
            (Render(run.articles) == NO_ARTICLES <==> logs[|logs| - 1] == NoArticles) &&
            (Render(run.articles) != NO_ARTICLES ==> logs[|logs| - 1] == Completed(|run.articles|) && |run.articles| > 0)
  {
    RenderNoArticlesIff(run.articles);
    var logs := run.events + [Summary(run.articles)];
    assert logs[..|logs| - 1] == run.events;
  }

  /** Every record in the output file passes the quality floor and was listed by a selected feed. */
  lemma ScrapeQuality(selected: seq<string>, custom: string, feedNet: FeedNet, pageNet: PageNet, a: Article)
    requires AllKnown(selected)
    requires a in Run(FeedList(selected, custom).value, feedNet, pageNet, DEFAULT_MAX_RETRIES).articles
    ensures Acceptable(a.content)
    ensures exists k :: 0 <= k < |FeedList(selected, custom).value| &&
              a.url in Resolve(FeedList(selected, custom).value[k], feedNet, DEFAULT_MAX_RETRIES).urls
  {
    RunSound(FeedList(selected, custom).value, feedNet, pageNet, DEFAULT_MAX_RETRIES);
  }

  /** One pass of the feeds loop (app.py:128-131): `log` gains exactly FeedBatch's lines. */
  method ScrapeFeed(rssUrl: string, log: Log, feedNet: FeedNet, pageNet: PageNet, maxRetries: nat) returns (scraped: seq<Article>)
    modifies log
    ensures scraped == FeedBatch(rssUrl, feedNet, pageNet, maxRetries).articles
    ensures log.entries == old(log.entries) + FeedBatch(rssUrl, feedNet, pageNet, maxRetries).events
  {
    ghost var r := Resolve(rssUrl, feedNet, maxRetries);
    var articleUrls := ScrapeRssFeed(rssUrl, log, feedNet, maxRetries);
    if articleUrls != [] {
      ghost var s := Scraped(articleUrls, pageNet, maxRetries);
      scraped := ScrapeArticles(articleUrls, log, pageNet, maxRetries);
      AppendAssoc(old(log.entries), r.events, s.events);
    } else {
      scraped := [];
      assert r.events + [] == r.events;
    }
  }

  /** The feeds loop of app.py:127-131: `log` gains exactly Run's lines. */
  method ScrapeFeeds(feeds: seq<string>, log: Log, feedNet: FeedNet, pageNet: PageNet, maxRetries: nat) returns (allArticles: seq<Article>)
    modifies log
    ensures allArticles == Run(feeds, feedNet, pageNet, maxRetries).articles
    ensures log.entries == old(log.entries) + Run(feeds, feedNet, pageNet, maxRetries).events
  {
    allArticles := [];
    var i := 0;
    while i < |feeds|
      invariant 0 <= i <= |feeds|
      invariant allArticles == Run(feeds[..i], feedNet, pageNet, maxRetries).articles
      invariant log.entries == old(log.entries) + Run(feeds[..i], feedNet, pageNet, maxRetries).events
    {
      ghost var done := Run(feeds[..i], feedNet, pageNet, maxRetries);
      ghost var batch := FeedBatch(feeds[i], feedNet, pageNet, maxRetries);
      RunNext(feeds, feedNet, pageNet, maxRetries, i);
      var scraped := ScrapeFeed(feeds[i], log, feedNet, pageNet, maxRetries);
      AppendAssoc(old(log.entries), done.events, batch.events);
      allArticles := allArticles + scraped;
      i := i + 1;
    }
    assert feeds[..i] == feeds;
  }

  /**
   * scrape: builds the feed list, resolves each feed and scrapes the article
   * URLs of every feed that listed some, writes the output text and appends
   * the summary line, all into a log it starts empty.
   */
  method Scrape(selectedSources: seq<string>, customRss: string, feedNet: FeedNet, pageNet: PageNet)
    returns (report: Option<Report>)
    ensures report == ScrapeResult(selectedSources, customRss, feedNet, pageNet)
  {
    var rssList := BuildFeedList(selectedSources, customRss);
    if rssList.None? {
      return None;
    }
    var log := new Log();
    var allArticles := ScrapeFeeds(rssList.value, log, feedNet, pageNet, DEFAULT_MAX_RETRIES);
    var output := WriteOutput(allArticles);
    log.Append(Summary(allArticles));
    report := Some(Report(log.entries, output));
    assert [] + Run(rssList.value, feedNet, pageNet, DEFAULT_MAX_RETRIES).events
        == Run(rssList.value, feedNet, pageNet, DEFAULT_MAX_RETRIES).events;
  }
}
