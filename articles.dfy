/**
 * `scrape_articles` (app.py:41-79): every article URL is tried up to
 * `max_retries` times; an attempt is good only when the response has status
 * 200 and the paragraph texts, joined with newlines and stripped, are at
 * least 50 characters long. A good attempt adds one `{URL, Content}` record.
 */
module Articles {
  import opened Wrappers
  import opened Text
  import opened Events
  import opened Retry

  /** The quality floor on the stripped content. */
  const MIN_CONTENT_LENGTH := 50

  /** The `{"URL": ..., "Content": ...}` record; `content` is the joined text before stripping. */
  datatype Article = Article(url: string, content: string)

  /**
   * The network and the HTML parser: attempt k of GET url either raises or
   * yields a status and the texts of the page's `<p>` elements, in document order.
   */
  type PageNet = (string, nat) -> Reply<seq<string>>

  /** The content passes the quality floor: `len(content.strip()) >= 50`. */
  predicate Acceptable(content: string) {
    |Strip(content)| >= MIN_CONTENT_LENGTH
  }

  /** One pass of the attempt loop's body for `url` (app.py:47-65): its lines and, when good, the content. */
  function ArticleStep(url: string, attempt: nat, reply: Reply<seq<string>>): (r: Attempted<string>) {
    match reply
    case Raised(message) =>
      Attempted(None, [ArticleAttempt(attempt, url), ArticleError(url, message)])
    case Received(status, paragraphs) =>
      if status != HTTP_OK then
        Attempted(None, [ArticleAttempt(attempt, url), ArticleStatus(url, status)])
      else
        var content := JoinLines(paragraphs);
        if |Strip(content)| < MIN_CONTENT_LENGTH then
          Attempted(None, [ArticleAttempt(attempt, url), ArticleFetched(url), ContentTooShort(url)])
        else
          Attempted(Some(content), [ArticleAttempt(attempt, url), ArticleFetched(url), ArticleParsed(url)])
  }

  /**
   * An attempt is good exactly when the reply has status 200 and its joined
   * paragraphs pass the quality floor; what it keeps is the joined text itself,
   * not the stripped one.
   */
  lemma ArticleStepGood(url: string, attempt: nat, reply: Reply<seq<string>>)
    ensures ArticleStep(url, attempt, reply).value.Some? <==>
            reply.Received? && reply.status == HTTP_OK && Acceptable(JoinLines(reply.body))
    ensures ArticleStep(url, attempt, reply).value.Some? ==>
            ArticleStep(url, attempt, reply).value.value == JoinLines(reply.body)
  {
  }

  /** The outcomes of attempts k, k+1, ..., maxRetries at `url`. */
  function ArticleAttempts(url: string, net: PageNet, k: nat, maxRetries: nat): (r: seq<Attempted<string>>)
    decreases maxRetries + 1 - k
  {
    if k > maxRetries then []
    else [ArticleStep(url, k, net(url, k))] + ArticleAttempts(url, net, k + 1, maxRetries)
  }

  /** The attempt loop for one URL (app.py:45-70): the content kept, if any, and the lines logged. */
  function FetchArticle(url: string, net: PageNet, maxRetries: nat): (r: Attempted<string>) {
    Tries(ArticleAttempts(url, net, 1, maxRetries))
  }

  /** Everything one URL of `article_urls` contributes (app.py:44-77): its record, if any, and its lines. */
  function ArticleBlock(index: nat, total: nat, url: string, net: PageNet, maxRetries: nat): (r: Attempted<Article>) {
    var f := FetchArticle(url, net, maxRetries);
    Attempted(
      if f.value.Some? then Some(Article(url, f.value.value)) else None,
      [ProcessingArticle(index, total, url)] + f.events +
      (if f.value.None? then [ArticleGiveUp(url, maxRetries)] else []) + [NextArticleWait])
  }

  /** The articles kept and the lines logged so far. */
  datatype Batch = Batch(articles: seq<Article>, events: seq<LogEvent>)

  /** What `scrape_articles` has produced after the first n URLs. */
  function ScrapedPrefix(urls: seq<string>, net: PageNet, maxRetries: nat, n: nat): (r: Batch)
    requires n <= |urls|
  {
    if n == 0 then Batch([], [])
    else
      var b := ScrapedPrefix(urls, net, maxRetries, n - 1);
      var a := ArticleBlock(n, |urls|, urls[n - 1], net, maxRetries);
      Batch(b.articles + (if a.value.Some? then [a.value.value] else []), b.events + a.events)
  }

  lemma ScrapedPrefixNext(urls: seq<string>, net: PageNet, maxRetries: nat, n: nat)
    requires 0 < n <= |urls|
    ensures var done := ScrapedPrefix(urls, net, maxRetries, n - 1);
            var block := ArticleBlock(n, |urls|, urls[n - 1], net, maxRetries);
            ScrapedPrefix(urls, net, maxRetries, n)
              == Batch(done.articles + (if block.value.Some? then [block.value.value] else []), done.events + block.events)
  {
  }

  /** What `scrape_articles(urls, logs, maxRetries)` returns and appends to `logs`. */
  function Scraped(urls: seq<string>, net: PageNet, maxRetries: nat): (r: Batch) {
    ScrapedPrefix(urls, net, maxRetries, |urls|)
  }

  /** One pass of the attempt loop's body (app.py:47-65): logs its lines and returns the content when good. */
  method TryArticle(fullUrl: string, attempt: nat, log: Log, net: PageNet) returns (content: Option<string>)
    modifies log
    ensures content == ArticleStep(fullUrl, attempt, net(fullUrl, attempt)).value
    ensures log.entries == old(log.entries) + ArticleStep(fullUrl, attempt, net(fullUrl, attempt)).events
  {
    ghost var step := ArticleStep(fullUrl, attempt, net(fullUrl, attempt));
    log.Append(ArticleAttempt(attempt, fullUrl));
    match net(fullUrl, attempt) {
      case Raised(message) =>
        log.Append(ArticleError(fullUrl, message));
        content := None;
        assert step.events == [ArticleAttempt(attempt, fullUrl), ArticleError(fullUrl, message)];
      case Received(status, paragraphs) =>
        if status != HTTP_OK {
          log.Append(ArticleStatus(fullUrl, status));
          content := None;
          assert step.events == [ArticleAttempt(attempt, fullUrl), ArticleStatus(fullUrl, status)];
        } else {
          log.Append(ArticleFetched(fullUrl));
          var joined := JoinLines(paragraphs);
          if |Strip(joined)| < MIN_CONTENT_LENGTH {
            log.Append(ContentTooShort(fullUrl));
            content := None;
            assert step.events == [ArticleAttempt(attempt, fullUrl), ArticleFetched(fullUrl), ContentTooShort(fullUrl)];
          } else {
            log.Append(ArticleParsed(fullUrl));
            content := Some(joined);
            assert step.events == [ArticleAttempt(attempt, fullUrl), ArticleFetched(fullUrl), ArticleParsed(fullUrl)];
          }
        }
    }
  }

  /**
   * The attempt loop for one URL (app.py:45-70): at most maxRetries attempts,
   * stopping at the first good one, with a RetryWait line after each failed one.
   */
  method RetryArticle(fullUrl: string, log: Log, net: PageNet, maxRetries: nat) returns (content: Option<string>)
    modifies log
    ensures content == FetchArticle(fullUrl, net, maxRetries).value
    ensures log.entries == old(log.entries) + FetchArticle(fullUrl, net, maxRetries).events
  {
    ghost var all := ArticleAttempts(fullUrl, net, 1, maxRetries);
    var success := false;
    content := None;
    // lines of the attempts made so far, waits included
    ghost var done: seq<LogEvent> := [];
    ResumesStart(all);
    var attempt := 1;
    while attempt <= maxRetries
      invariant 1 <= attempt <= maxRetries + 1
      invariant !success && content == None
      invariant log.entries == old(log.entries) + done
      invariant Resumes(all, done, ArticleAttempts(fullUrl, net, attempt, maxRetries))
      decreases maxRetries + 1 - attempt
    {
      var got := TryArticle(fullUrl, attempt, log, net);
      ghost var step := ArticleStep(fullUrl, attempt, net(fullUrl, attempt));
      ghost var rest := ArticleAttempts(fullUrl, net, attempt + 1, maxRetries);
      assert ArticleAttempts(fullUrl, net, attempt, maxRetries) == [step] + rest;
      AppendAssoc(old(log.entries), done, step.events);
      if got.Some? {
        content := got;
        success := true;
        ResumesStop(all, done, step, rest);
        break;
      }
      ResumesFail(all, done, step, rest);
      if !success {
        log.Append(RetryWait);
      }
      AppendAssoc(old(log.entries), done + step.events, [RetryWait]);
      done := done + step.events + [RetryWait];
      attempt := attempt + 1;
    }
    if !success {
      ResumesEnd(all, done);
    }
  }

  /**
   * One pass of the URL loop (app.py:44-77): the progress line, the attempt
   * loop, the give-up line when it failed, and the wait before the next URL.
   */
  method ScrapeOne(index: nat, total: nat, fullUrl: string, log: Log, net: PageNet, maxRetries: nat)
    returns (article: Option<Article>)
    modifies log
    ensures article == ArticleBlock(index, total, fullUrl, net, maxRetries).value
    ensures log.entries == old(log.entries) + ArticleBlock(index, total, fullUrl, net, maxRetries).events
  {
    ghost var fetched := FetchArticle(fullUrl, net, maxRetries);
    ghost var head := [ProcessingArticle(index, total, fullUrl)];
    log.Append(ProcessingArticle(index, total, fullUrl));
    var content := RetryArticle(fullUrl, log, net, maxRetries);
    var success := content.Some?;
    article := None;
    if success {
      article := Some(Article(fullUrl, content.value));
    }
    ghost var giveUp := if success then [] else [ArticleGiveUp(fullUrl, maxRetries)];
    if !success {
      log.Append(ArticleGiveUp(fullUrl, maxRetries));
    }
    log.Append(NextArticleWait);
    AppendAssoc(old(log.entries), head, fetched.events);
    AppendAssoc(old(log.entries), head + fetched.events, giveUp);
    AppendAssoc(old(log.entries), head + fetched.events + giveUp, [NextArticleWait]);
  }

  /**
   * scrape_articles: the records kept, in URL order; `log` gains exactly the
   * lines of Scraped, appended after what it held.
   */
  method ScrapeArticles(articleUrls: seq<string>, log: Log, net: PageNet, maxRetries: nat)
    returns (articles: seq<Article>)
    modifies log
    ensures articles == Scraped(articleUrls, net, maxRetries).articles
    ensures log.entries == old(log.entries) + Scraped(articleUrls, net, maxRetries).events
  {
    articles := [];
    var index := 1;
    while index <= |articleUrls|
      invariant 1 <= index <= |articleUrls| + 1
      invariant articles == ScrapedPrefix(articleUrls, net, maxRetries, index - 1).articles
      invariant log.entries == old(log.entries) + ScrapedPrefix(articleUrls, net, maxRetries, index - 1).events
    {
      var fullUrl := articleUrls[index - 1];
      ghost var done := ScrapedPrefix(articleUrls, net, maxRetries, index - 1);
      ghost var block := ArticleBlock(index, |articleUrls|, fullUrl, net, maxRetries);
      ScrapedPrefixNext(articleUrls, net, maxRetries, index);
      var article := ScrapeOne(index, |articleUrls|, fullUrl, log, net, maxRetries);
      if article.Some? {
        articles := articles + [article.value];
      }
      AppendAssoc(old(log.entries), done.events, block.events);
      index := index + 1;
    }
  }

  // ---------------------------------------------------------------------------
  // Properties of one URL's attempt loop

  /** The reply passes both checks of app.py:50 and app.py:57. */
  predicate GoodReply(reply: Reply<seq<string>>) {
    reply.Received? && reply.status == HTTP_OK && Acceptable(JoinLines(reply.body))
  }

  /** The list of outcomes has one entry per allowed attempt... */
  lemma {:induction false} ArticleAttemptsLength(url: string, net: PageNet, k: nat, maxRetries: nat)
    requires k <= maxRetries + 1
    ensures |ArticleAttempts(url, net, k, maxRetries)| == maxRetries + 1 - k
    decreases maxRetries + 1 - k
  {
    if k <= maxRetries {
      ArticleAttemptsLength(url, net, k + 1, maxRetries);
    }
  }

  /** ... and its i-th entry is the outcome of attempt k + i. */
  lemma {:induction false} ArticleAttemptsAt(url: string, net: PageNet, k: nat, maxRetries: nat, i: nat)
    requires k + i <= maxRetries
    ensures i < |ArticleAttempts(url, net, k, maxRetries)|
    decreases i
    ensures ArticleAttempts(url, net, k, maxRetries)[i] == ArticleStep(url, k + i, net(url, k + i))
  {
    if i > 0 {
      ArticleAttemptsAt(url, net, k + 1, maxRetries, i - 1);
    }
  }

  /** Each attempt logs one GET line, and no wait or give-up line of its own. */
  lemma ArticleStepLines(url: string, attempt: nat, reply: Reply<seq<string>>)
    ensures var events := ArticleStep(url, attempt, reply).events;
            Count(events, GetLine) == 1 && Count(events, WaitLine) == 0 && Count(events, GiveUpLine) == 0
  {
    var events := ArticleStep(url, attempt, reply).events;
    var tail := events[1..];
    assert events == [ArticleAttempt(attempt, url)] + tail;
    forall kind: Kind
      ensures Count(events, kind) == (if kind == GetLine then 1 else 0)
    {
      CountAppend([ArticleAttempt(attempt, url)], tail, kind);
      CountOne(ArticleAttempt(attempt, url), kind);
      CountOne(tail[0], kind);
      if |tail| == 2 {
        assert tail == [tail[0]] + [tail[1]];
        CountAppend([tail[0]], [tail[1]], kind);
        CountOne(tail[1], kind);
      } else {
        assert tail == [tail[0]];
      }
    }
  }

  lemma ArticleAttemptsLines(url: string, net: PageNet, maxRetries: nat)
    ensures OneGetPerAttempt(ArticleAttempts(url, net, 1, maxRetries))
  {
    var all := ArticleAttempts(url, net, 1, maxRetries);
    ArticleAttemptsLength(url, net, 1, maxRetries);
    forall i | 0 <= i < |all|
      ensures Count(all[i].events, GetLine) == 1 && Count(all[i].events, WaitLine) == 0
      ensures Count(all[i].events, GiveUpLine) == 0
    {
      ArticleAttemptsAt(url, net, 1, maxRetries, i);
      ArticleStepLines(url, 1 + i, net(url, 1 + i));
    }
  }

  /** Entry i of the outcomes is good exactly when reply i + 1 is, and then holds its joined paragraphs. */
  lemma ArticleAttemptGoodAt(url: string, net: PageNet, maxRetries: nat, i: nat)
    requires i < maxRetries
    ensures i < |ArticleAttempts(url, net, 1, maxRetries)|
    ensures var s := ArticleAttempts(url, net, 1, maxRetries)[i];
            (s.value.Some? <==> GoodReply(net(url, i + 1))) &&
            (s.value.Some? ==> s.value.value == JoinLines(net(url, i + 1).body))
  {
    ArticleAttemptsAt(url, net, 1, maxRetries, i);
    ArticleStepGood(url, i + 1, net(url, i + 1));
  }

  /** A URL yields no record exactly when none of its maxRetries attempts was good. */
  lemma FetchArticleFails(url: string, net: PageNet, maxRetries: nat)
    ensures FetchArticle(url, net, maxRetries).value.None? <==>
            forall j :: 1 <= j <= maxRetries ==> !GoodReply(net(url, j))
  {
    var all := ArticleAttempts(url, net, 1, maxRetries);
    ArticleAttemptsLength(url, net, 1, maxRetries);
    TriesFailIff(all);
    forall j | 1 <= j <= maxRetries
      ensures all[j - 1].value.None? <==> !GoodReply(net(url, j))
    {
      ArticleAttemptGoodAt(url, net, maxRetries, j - 1);
    }
    if FetchArticle(url, net, maxRetries).value.None? {
      forall j | 1 <= j <= maxRetries
        ensures !GoodReply(net(url, j))
      {
        assert all[j - 1].value.None?;
      }
    } else {
      var i :| 0 <= i < |all| && all[i].value.Some?;
      assert GoodReply(net(url, i + 1)) by {
        assert all[(i + 1) - 1] == all[i];
      }
    }
  }

  /**
   * When attempt j is the first good one, the record holds that attempt's
   * joined paragraphs, unstripped, and exactly j GETs were made.
   */
  lemma FetchArticleFirstGood(url: string, net: PageNet, maxRetries: nat, j: nat)
    requires 1 <= j <= maxRetries && GoodReply(net(url, j))
    requires forall i :: 1 <= i < j ==> !GoodReply(net(url, i))
    ensures FetchArticle(url, net, maxRetries).value == Some(JoinLines(net(url, j).body))
    ensures Count(FetchArticle(url, net, maxRetries).events, GetLine) == j
  {
    var all := ArticleAttempts(url, net, 1, maxRetries);
    ArticleAttemptsLength(url, net, 1, maxRetries);
    ArticleAttemptsLines(url, net, maxRetries);
    ArticleAttemptGoodAt(url, net, maxRetries, j - 1);
    forall i | 0 <= i < j - 1
      ensures all[i].value.None?
    {
      ArticleAttemptGoodAt(url, net, maxRetries, i);
    }
    TriesFirst(all, j - 1);
    TriesStopsAtFirst(all, j - 1);
  }

  /** Kept content always comes from a good attempt, so it passes the quality floor. */
  lemma FetchArticleKeptIsGood(url: string, net: PageNet, maxRetries: nat)
    requires FetchArticle(url, net, maxRetries).value.Some?
    ensures Acceptable(FetchArticle(url, net, maxRetries).value.value)
    ensures exists j :: 1 <= j <= maxRetries && GoodReply(net(url, j)) &&
                        FetchArticle(url, net, maxRetries).value.value == JoinLines(net(url, j).body)
  {
    var all := ArticleAttempts(url, net, 1, maxRetries);
    ArticleAttemptsLength(url, net, 1, maxRetries);
    TriesSound(all);
    var j :| 0 <= j < |all| && all[j].value == Tries(all).value && forall i :: 0 <= i < j ==> all[i].value.None?;
    ArticleAttemptGoodAt(url, net, maxRetries, j);
  }

  /**
   * The lines of one URL: at most maxRetries GETs (all of them when it is
   * dropped), one RetryWait per failed attempt, the last included, and one
   * give-up line exactly when the URL is dropped.
   */
  lemma ArticleBlockLines(index: nat, total: nat, url: string, net: PageNet, maxRetries: nat)
    ensures var b := ArticleBlock(index, total, url, net, maxRetries);
            var gets := Count(b.events, GetLine);
            gets <= maxRetries &&
            (b.value.None? ==> gets == maxRetries) &&
            Count(b.events, WaitLine) == gets - (if b.value.Some? then 1 else 0) &&
            Count(b.events, GiveUpLine) == (if b.value.Some? then 0 else 1)
  {
    var f := FetchArticle(url, net, maxRetries);
    var b := ArticleBlock(index, total, url, net, maxRetries);
    ArticleAttemptsLength(url, net, 1, maxRetries);
    ArticleAttemptsLines(url, net, maxRetries);
    var all := ArticleAttempts(url, net, 1, maxRetries);
    TriesCounts(all);
    assert f == Tries(all);
    var gets := Count(f.events, GetLine);
    assert gets <= maxRetries && (f.value.None? ==> gets == maxRetries);
    assert Count(f.events, WaitLine) == gets - (if f.value.Some? then 1 else 0);
    assert Count(f.events, GiveUpLine) == 0;
    var head := [ProcessingArticle(index, total, url)];
    var giveUp := if f.value.None? then [ArticleGiveUp(url, maxRetries)] else [];
    assert b.events == head + f.events + giveUp + [NextArticleWait];
    forall kind: Kind
      ensures Count(b.events, kind) == Count(f.events, kind) + Count(giveUp, kind)
    {
      CountAppend(head, f.events, kind);
      CountAppend(head + f.events, giveUp, kind);
      CountAppend(head + f.events + giveUp, [NextArticleWait], kind);
      CountOne(ProcessingArticle(index, total, url), kind);
      CountOne(NextArticleWait, kind);
      if f.value.None? {
        CountOne(ArticleGiveUp(url, maxRetries), kind);
      }
    }
    assert Count(giveUp, GetLine) == 0 && Count(giveUp, WaitLine) == 0;
    assert Count(giveUp, GiveUpLine) == (if f.value.Some? then 0 else 1);
    assert b.value.Some? == f.value.Some?;
  }

  // ---------------------------------------------------------------------------
  // Properties of the whole batch

  /**
   * The records a list of URLs yields, independently of how the loop numbers
   * and logs them: one per URL whose attempt loop kept content, in URL order.
   */
  function Kept(urls: seq<string>, net: PageNet, maxRetries: nat): (r: seq<Article>) {
    if urls == [] then []
    else
      var last := urls[|urls| - 1];
      var f := FetchArticle(last, net, maxRetries);
      Kept(urls[..|urls| - 1], net, maxRetries) + (if f.value.Some? then [Article(last, f.value.value)] else [])
  }

  /** The loop's records are exactly Kept: the progress numbering does not affect them. */
  lemma {:induction false} ScrapedPrefixKept(urls: seq<string>, net: PageNet, maxRetries: nat, n: nat)
    requires n <= |urls|
    ensures ScrapedPrefix(urls, net, maxRetries, n).articles == Kept(urls[..n], net, maxRetries)
  {
    if n > 0 {
      ScrapedPrefixKept(urls, net, maxRetries, n - 1);
      assert urls[..n][..n - 1] == urls[..n - 1];
    }
  }

  lemma ScrapedKept(urls: seq<string>, net: PageNet, maxRetries: nat)
    ensures Scraped(urls, net, maxRetries).articles == Kept(urls, net, maxRetries)
  {
    ScrapedPrefixKept(urls, net, maxRetries, |urls|);
    assert urls[..|urls|] == urls;
  }

  /** Keeping distributes over concatenating URL lists: records stay in URL order. */
  lemma {:induction false} KeptAppend(a: seq<string>, b: seq<string>, net: PageNet, maxRetries: nat)
    ensures Kept(a + b, net, maxRetries) == Kept(a, net, maxRetries) + Kept(b, net, maxRetries)
    decreases |b|
  {
    if b == [] {
      assert a + b == a;
    } else {
      assert (a + b)[..|a + b| - 1] == a + b[..|b| - 1];
      KeptAppend(a, b[..|b| - 1], net, maxRetries);
    }
  }

  /**
   * Every record names a URL of the list, holds the content that URL's
   * attempt loop kept, and that content passes the quality floor.
   */
  lemma {:induction false} KeptSound(urls: seq<string>, net: PageNet, maxRetries: nat)
    ensures |Kept(urls, net, maxRetries)| <= |urls|
    ensures forall a :: a in Kept(urls, net, maxRetries) ==>
              a.url in urls && FetchArticle(a.url, net, maxRetries).value == Some(a.content) &&
              Acceptable(a.content)
  {
    if urls != [] {
      var init := urls[..|urls| - 1];
      var last := urls[|urls| - 1];
      KeptSound(init, net, maxRetries);
      assert urls == init + [last];
      if FetchArticle(last, net, maxRetries).value.Some? {
        FetchArticleKeptIsGood(last, net, maxRetries);
      }
    }
  }

  /**
   * The records are a subsequence of the URLs: record k comes from URL idx[k],
   * and the positions strictly increase, so each position gives at most one record.
   */
  ghost predicate InOrderAt(articles: seq<Article>, urls: seq<string>, idx: seq<nat>) {
    |idx| == |articles| &&
    (forall k :: 0 <= k < |idx| ==> idx[k] < |urls| && articles[k].url == urls[idx[k]]) &&
    (forall k, l :: 0 <= k < l < |idx| ==> idx[k] < idx[l])
  }

  /** The position in `urls` of each record of Kept. */
  function KeptPositions(urls: seq<string>, net: PageNet, maxRetries: nat): (r: seq<nat>) {
    if urls == [] then []
    else
      KeptPositions(urls[..|urls| - 1], net, maxRetries) +
      (if FetchArticle(urls[|urls| - 1], net, maxRetries).value.Some? then [|urls| - 1] else [])
  }

  lemma {:induction false} KeptInOrder(urls: seq<string>, net: PageNet, maxRetries: nat)
    ensures InOrderAt(Kept(urls, net, maxRetries), urls, KeptPositions(urls, net, maxRetries))
  {
    if urls != [] {
      var init := urls[..|urls| - 1];
      KeptInOrder(init, net, maxRetries);
      var idx := KeptPositions(init, net, maxRetries);
      var kept0 := Kept(init, net, maxRetries);
      var kept := Kept(urls, net, maxRetries);
      var pos := KeptPositions(urls, net, maxRetries);
      var f := FetchArticle(urls[|urls| - 1], net, maxRetries);
      var extra := if f.value.Some? then [Article(urls[|urls| - 1], f.value.value)] else [];
      var extraPos := if f.value.Some? then [|urls| - 1] else [];
      assert kept == kept0 + extra && pos == idx + extraPos;
      forall k | 0 <= k < |pos|
        ensures pos[k] < |urls| && kept[k].url == urls[pos[k]]
      {
        if k < |idx| {
          assert pos[k] == idx[k] && kept[k] == kept0[k];
          assert init[idx[k]] == urls[idx[k]];
        }
      }
      forall k, l | 0 <= k < l < |pos|
        ensures pos[k] < pos[l]
      {
        if l < |idx| {
          assert pos[k] == idx[k] && pos[l] == idx[l];
        }
      }
    }
  }

  /** Every URL whose attempt loop kept content has its record. */
  lemma {:induction false} KeptComplete(urls: seq<string>, net: PageNet, maxRetries: nat, url: string)
    requires url in urls && FetchArticle(url, net, maxRetries).value.Some?
    ensures Article(url, FetchArticle(url, net, maxRetries).value.value) in Kept(urls, net, maxRetries)
  {
    var init := urls[..|urls| - 1];
    assert urls == init + [urls[|urls| - 1]];
    if url != urls[|urls| - 1] {
      KeptComplete(init, net, maxRetries, url);
    }
  }

  /**
   * Over the first n URLs: at most maxRetries GETs each, one give-up line per
   * URL without a record, and one RetryWait per failed attempt.
   */
  lemma {:induction false} ScrapedPrefixLines(urls: seq<string>, net: PageNet, maxRetries: nat, n: nat)
    requires n <= |urls|
    ensures var p := ScrapedPrefix(urls, net, maxRetries, n);
            var gets := Count(p.events, GetLine);
            |p.articles| <= n && gets <= n * maxRetries &&
            Count(p.events, GiveUpLine) == n - |p.articles| &&
            Count(p.events, WaitLine) == gets - |p.articles|
  {
    if n > 0 {
      var p := ScrapedPrefix(urls, net, maxRetries, n - 1);
      var b := ArticleBlock(n, |urls|, urls[n - 1], net, maxRetries);
      ScrapedPrefixLines(urls, net, maxRetries, n - 1);
      ArticleBlockLines(n, |urls|, urls[n - 1], net, maxRetries);
      CountAppend(p.events, b.events, GetLine);
      CountAppend(p.events, b.events, WaitLine);
      CountAppend(p.events, b.events, GiveUpLine);
      assert (n - 1) * maxRetries + maxRetries == n * maxRetries;
    }
  }

  /** scrape_articles' log: one give-up line per URL left without a record, one RetryWait per failed attempt. */
  lemma ScrapedLines(urls: seq<string>, net: PageNet, maxRetries: nat)
    ensures var s := Scraped(urls, net, maxRetries);
            var gets := Count(s.events, GetLine);
            gets <= |urls| * maxRetries &&
            Count(s.events, GiveUpLine) == |urls| - |s.articles| &&
            Count(s.events, WaitLine) == gets - |s.articles|
  {
    ScrapedPrefixLines(urls, net, maxRetries, |urls|);
  }
}
