/**
 * `scrape_rss_feed` (app.py:81-113): one RSS URL is tried up to `max_retries`
 * times; the first response with status 200 ends the loop, and its items'
 * non-blank `<link>` texts, stripped, are the article URLs.
 */
module Feeds {
  import opened Wrappers
  import opened Text
  import opened Events
  import opened Retry

  /**
   * The network and the XML parser: attempt k of GET url either raises or
   * yields a status and, per `<item>` in document order, the text of its
   * `<link>` child (None when the item has none).
   */
  type FeedNet = (string, nat) -> Reply<seq<Option<string>>>

  /** The item has a link whose text is not blank (app.py:97). */
  predicate HasLink(item: Option<string>) {
    item.Some? && Strip(item.value) != []
  }

  /** The article URLs of a list of items (app.py:95-98): each non-blank link, stripped, in item order. */
  function Links(items: seq<Option<string>>): (r: seq<string>) {
    if items == [] then []
    else
      var last := items[|items| - 1];
      Links(items[..|items| - 1]) + (if HasLink(last) then [Strip(last.value)] else [])
  }

  /** One pass of the attempt loop's body for `url` (app.py:86-103): its lines and, on status 200, the links. */
  function FeedStep(url: string, attempt: nat, reply: Reply<seq<Option<string>>>): (r: Attempted<seq<string>>) {
    match reply
    case Raised(message) =>
      Attempted(None, [FeedAttempt(attempt, url), FeedError(url, message)])
    case Received(status, items) =>
      if status != HTTP_OK then
        Attempted(None, [FeedAttempt(attempt, url), FeedStatus(url, status)])
      else
        var links := Links(items);
        Attempted(Some(links), [FeedAttempt(attempt, url), FeedFetched(url), FeedFound(|links|, url)])
  }

  /** An attempt succeeds exactly on status 200, even when no item has a link, and then yields Links. */
  lemma FeedStepGood(url: string, attempt: nat, reply: Reply<seq<Option<string>>>)
    ensures FeedStep(url, attempt, reply).value.Some? <==> reply.Received? && reply.status == HTTP_OK
    ensures FeedStep(url, attempt, reply).value.Some? ==> FeedStep(url, attempt, reply).value.value == Links(reply.body)
  {
  }

  /** The outcomes of attempts k, k+1, ..., maxRetries at `url`. */
  function FeedAttempts(url: string, net: FeedNet, k: nat, maxRetries: nat): (r: seq<Attempted<seq<string>>>)
    decreases maxRetries + 1 - k
  {
    if k > maxRetries then []
    else [FeedStep(url, k, net(url, k))] + FeedAttempts(url, net, k + 1, maxRetries)
  }

  /** The attempt loop (app.py:85-108): the links of the first good attempt, if any, and the lines logged. */
  function FetchFeed(url: string, net: FeedNet, maxRetries: nat): (r: Attempted<seq<string>>) {
    Tries(FeedAttempts(url, net, 1, maxRetries))
  }

  /** What `scrape_rss_feed` returns and appends to `logs`. */
  datatype Resolved = Resolved(urls: seq<string>, events: seq<LogEvent>)

  /** scrape_rss_feed as a whole (app.py:81-113): the start line, the attempts, and a give-up line on failure. */
  function Resolve(url: string, net: FeedNet, maxRetries: nat): (r: Resolved) {
    var f := FetchFeed(url, net, maxRetries);
    Resolved(f.value.GetOr([]),
             [FeedStart(url)] + f.events + (if f.value.None? then [FeedGiveUp(url, maxRetries)] else []))
  }

  /** One pass of the attempt loop's body (app.py:86-103): logs its lines and returns the links on status 200. */
  method TryFeed(rssUrl: string, attempt: nat, log: Log, net: FeedNet) returns (links: Option<seq<string>>)
    modifies log
    ensures links == FeedStep(rssUrl, attempt, net(rssUrl, attempt)).value
    ensures log.entries == old(log.entries) + FeedStep(rssUrl, attempt, net(rssUrl, attempt)).events
  {
    ghost var step := FeedStep(rssUrl, attempt, net(rssUrl, attempt));
    log.Append(FeedAttempt(attempt, rssUrl));
    match net(rssUrl, attempt) {
      case Raised(message) =>
        log.Append(FeedError(rssUrl, message));
        links := None;
        assert step.events == [FeedAttempt(attempt, rssUrl), FeedError(rssUrl, message)];
      case Received(status, items) =>
        if status != HTTP_OK {
          log.Append(FeedStatus(rssUrl, status));
          links := None;
          assert step.events == [FeedAttempt(attempt, rssUrl), FeedStatus(rssUrl, status)];
        } else {
          log.Append(FeedFetched(rssUrl));
          var articleUrls: seq<string> := [];
          var i := 0;
          while i < |items|
            invariant 0 <= i <= |items|
            invariant articleUrls == Links(items[..i])
          {
            var linkTag := items[i];
            if linkTag.Some? && Strip(linkTag.value) != [] {
              articleUrls := articleUrls + [Strip(linkTag.value)];
            }
            assert items[..i + 1][..i] == items[..i];
            i := i + 1;
          }
          assert items[..i] == items;
          log.Append(FeedFound(|articleUrls|, rssUrl));
          links := Some(articleUrls);
          assert step.events == [FeedAttempt(attempt, rssUrl), FeedFetched(rssUrl), FeedFound(|articleUrls|, rssUrl)];
        }
    }
  }

  /**
   * The attempt loop (app.py:85-108): at most maxRetries attempts, stopping at
   * the first response with status 200, with a RetryWait line after each failed one.
   */
  method RetryFeed(rssUrl: string, log: Log, net: FeedNet, maxRetries: nat) returns (links: Option<seq<string>>)
    modifies log
    ensures links == FetchFeed(rssUrl, net, maxRetries).value
    ensures log.entries == old(log.entries) + FetchFeed(rssUrl, net, maxRetries).events
  {
    ghost var all := FeedAttempts(rssUrl, net, 1, maxRetries);
    var success := false;
    links := None;
    // lines of the attempts made so far, waits included
    ghost var done: seq<LogEvent> := [];
    ResumesStart(all);
    var attempt := 1;
    while attempt <= maxRetries
      invariant 1 <= attempt <= maxRetries + 1
      invariant !success && links == None
      invariant log.entries == old(log.entries) + done
      invariant Resumes(all, done, FeedAttempts(rssUrl, net, attempt, maxRetries))
      decreases maxRetries + 1 - attempt
    {
      var got := TryFeed(rssUrl, attempt, log, net);
      ghost var step := FeedStep(rssUrl, attempt, net(rssUrl, attempt));
      ghost var rest := FeedAttempts(rssUrl, net, attempt + 1, maxRetries);
      assert FeedAttempts(rssUrl, net, attempt, maxRetries) == [step] + rest;
      AppendAssoc(old(log.entries), done, step.events);
      if got.Some? {
        links := got;
        success := true;
        ResumesStop(all, done, step, rest);
        break;
      }
      ResumesFail(all, done, step, rest);
      if !success {
        log.Append(RetryWait);
      }
      AppendAssoc(old(log.entries), done + step.events, [RetryWait]);
      done := done + step.events + [RetryWait];
      attempt := attempt + 1;
    }
    if !success {
      ResumesEnd(all, done);
    }
  }

  /** scrape_rss_feed: returns Resolve's URLs, and `log` gains exactly its lines. */
  method ScrapeRssFeed(rssUrl: string, log: Log, net: FeedNet, maxRetries: nat) returns (articleUrls: seq<string>)
    modifies log
    ensures articleUrls == Resolve(rssUrl, net, maxRetries).urls
    ensures log.entries == old(log.entries) + Resolve(rssUrl, net, maxRetries).events
  {
    log.Append(FeedStart(rssUrl));
    var links := RetryFeed(rssUrl, log, net, maxRetries);
    ghost var fetched := FetchFeed(rssUrl, net, maxRetries);
    ghost var giveUp := if links.None? then [FeedGiveUp(rssUrl, maxRetries)] else [];
    if links.None? {
      log.Append(FeedGiveUp(rssUrl, maxRetries));
    }
    articleUrls := links.GetOr([]);
    AppendAssoc(old(log.entries), [FeedStart(rssUrl)], fetched.events);
    AppendAssoc(old(log.entries), [FeedStart(rssUrl)] + fetched.events, giveUp);
  }

  // ---------------------------------------------------------------------------
  // Properties of link extraction

  /** Link extraction distributes over concatenating item lists: URLs stay in item order. */
  lemma {:induction false} LinksAppend(a: seq<Option<string>>, b: seq<Option<string>>)
    ensures Links(a + b) == Links(a) + Links(b)
    decreases |b|
  {
    if b == [] {
      assert a + b == a;
    } else {
      assert (a + b)[..|a + b| - 1] == a + b[..|b| - 1];
      LinksAppend(a, b[..|b| - 1]);
    }
  }

  /**
   * Every URL is non-empty, already stripped, and the stripped link of some
   * item; there are never more URLs than items.
   */
  lemma {:induction false} LinksSound(items: seq<Option<string>>)
    ensures |Links(items)| <= |items|
    ensures forall u :: u in Links(items) ==>
              u != [] && Strip(u) == u && exists i :: 0 <= i < |items| && HasLink(items[i]) && Strip(items[i].value) == u
  {
    if items != [] {
      var init := items[..|items| - 1];
      var last := items[|items| - 1];
      LinksSound(init);
      assert items == init + [last];
      forall u | u in Links(items)
        ensures u != [] && Strip(u) == u
        ensures exists i :: 0 <= i < |items| && HasLink(items[i]) && Strip(items[i].value) == u
      {
        if u in Links(init) {
          var i :| 0 <= i < |init| && HasLink(init[i]) && Strip(init[i].value) == u;
          assert items[i] == init[i];
        } else {
          assert u == Strip(last.value);
          StripIdempotent(last.value);
          assert items[|items| - 1] == last;
        }
      }
    }
  }

  /** Every item with a non-blank link contributes its stripped link. */
  lemma {:induction false} LinksComplete(items: seq<Option<string>>, i: nat)
    requires i < |items| && HasLink(items[i])
    ensures Strip(items[i].value) in Links(items)
  {
    var init := items[..|items| - 1];
    if i < |items| - 1 {
      assert init[i] == items[i];
      LinksComplete(init, i);
    }
  }

  // ---------------------------------------------------------------------------
  // Properties of one feed's attempt loop

  /** The list of outcomes has one entry per allowed attempt... */
  lemma {:induction false} FeedAttemptsLength(url: string, net: FeedNet, k: nat, maxRetries: nat)
    requires k <= maxRetries + 1
    ensures |FeedAttempts(url, net, k, maxRetries)| == maxRetries + 1 - k
    decreases maxRetries + 1 - k
  {
    if k <= maxRetries {
      FeedAttemptsLength(url, net, k + 1, maxRetries);
    }
  }

  /** ... and its i-th entry is the outcome of attempt k + i. */
  lemma {:induction false} FeedAttemptsAt(url: string, net: FeedNet, k: nat, maxRetries: nat, i: nat)
    requires k + i <= maxRetries
    ensures i < |FeedAttempts(url, net, k, maxRetries)|
    ensures FeedAttempts(url, net, k, maxRetries)[i] == FeedStep(url, k + i, net(url, k + i))
    decreases i
  {
    if i > 0 {
      FeedAttemptsAt(url, net, k + 1, maxRetries, i - 1);
    }
  }

  /** The reply has status 200 (app.py:89). */
  predicate OkReply(reply: Reply<seq<Option<string>>>) {
    reply.Received? && reply.status == HTTP_OK
  }

  /** Entry i of the outcomes is good exactly when reply i + 1 is OK, and then holds its links. */
  lemma FeedAttemptGoodAt(url: string, net: FeedNet, maxRetries: nat, i: nat)
    requires i < maxRetries
    ensures i < |FeedAttempts(url, net, 1, maxRetries)|
    ensures var s := FeedAttempts(url, net, 1, maxRetries)[i];
            (s.value.Some? <==> OkReply(net(url, i + 1))) &&
            (s.value.Some? ==> s.value.value == Links(net(url, i + 1).body))
  {
    FeedAttemptsAt(url, net, 1, maxRetries, i);
    FeedStepGood(url, i + 1, net(url, i + 1));
  }

  /** Each attempt logs one GET line, and no wait or give-up line of its own. */
  lemma FeedStepLines(url: string, attempt: nat, reply: Reply<seq<Option<string>>>)
    ensures var events := FeedStep(url, attempt, reply).events;
            Count(events, GetLine) == 1 && Count(events, WaitLine) == 0 && Count(events, GiveUpLine) == 0
  {
    var events := FeedStep(url, attempt, reply).events;
    var tail := events[1..];
    assert events == [FeedAttempt(attempt, url)] + tail;
    forall kind: Kind
      ensures Count(events, kind) == (if kind == GetLine then 1 else 0)
    {
      CountAppend([FeedAttempt(attempt, url)], tail, kind);
      CountOne(FeedAttempt(attempt, url), kind);
      CountOne(tail[0], kind);
      if |tail| == 2 {
        assert tail == [tail[0]] + [tail[1]];
        CountAppend([tail[0]], [tail[1]], kind);
        CountOne(tail[1], kind);
      } else {
        assert tail == [tail[0]];
      }
    }
  }

  lemma FeedAttemptsLines(url: string, net: FeedNet, maxRetries: nat)
    ensures OneGetPerAttempt(FeedAttempts(url, net, 1, maxRetries))
  {
    var all := FeedAttempts(url, net, 1, maxRetries);
    FeedAttemptsLength(url, net, 1, maxRetries);
    forall i | 0 <= i < |all|
      ensures Count(all[i].events, GetLine) == 1 && Count(all[i].events, WaitLine) == 0
      ensures Count(all[i].events, GiveUpLine) == 0
    {
      FeedAttemptsAt(url, net, 1, maxRetries, i);
      FeedStepLines(url, 1 + i, net(url, 1 + i));
    }
  }

  /** A feed yields no URL list, and logs the give-up line, exactly when none of its attempts got status 200. */
  lemma FetchFeedFails(url: string, net: FeedNet, maxRetries: nat)
    ensures FetchFeed(url, net, maxRetries).value.None? <==>
            forall j :: 1 <= j <= maxRetries ==> !OkReply(net(url, j))
    ensures FetchFeed(url, net, maxRetries).value.None? ==> Resolve(url, net, maxRetries).urls == []
    ensures FetchFeed(url, net, maxRetries).value.None? <==> Count(Resolve(url, net, maxRetries).events, GiveUpLine) == 1
  {
    ResolveLines(url, net, maxRetries);
    var all := FeedAttempts(url, net, 1, maxRetries);
    FeedAttemptsLength(url, net, 1, maxRetries);
    TriesFailIff(all);
    forall j | 1 <= j <= maxRetries
      ensures all[j - 1].value.None? <==> !OkReply(net(url, j))
    {
      FeedAttemptGoodAt(url, net, maxRetries, j - 1);
    }
    if FetchFeed(url, net, maxRetries).value.None? {
      forall j | 1 <= j <= maxRetries
        ensures !OkReply(net(url, j))
      {
        assert all[j - 1].value.None?;
      }
    } else {
      var i :| 0 <= i < |all| && all[i].value.Some?;
      assert OkReply(net(url, i + 1)) by {
        assert all[(i + 1) - 1] == all[i];
      }
    }
  }

  /**
   * When attempt j is the first with status 200, scrape_rss_feed returns the
   * links of that response and made exactly j GETs.
   */
  lemma ResolveFirstOk(url: string, net: FeedNet, maxRetries: nat, j: nat)
    requires 1 <= j <= maxRetries && OkReply(net(url, j))
    requires forall i :: 1 <= i < j ==> !OkReply(net(url, i))
    ensures Resolve(url, net, maxRetries).urls == Links(net(url, j).body)
    ensures Count(Resolve(url, net, maxRetries).events, GetLine) == j
  {
    var all := FeedAttempts(url, net, 1, maxRetries);
    FeedAttemptsLength(url, net, 1, maxRetries);
    FeedAttemptsLines(url, net, maxRetries);
    FeedAttemptGoodAt(url, net, maxRetries, j - 1);
    forall i | 0 <= i < j - 1
      ensures all[i].value.None?
    {
      FeedAttemptGoodAt(url, net, maxRetries, i);
    }
    TriesFirst(all, j - 1);
    TriesStopsAtFirst(all, j - 1);
    var f := FetchFeed(url, net, maxRetries);
    CountAppend([FeedStart(url)], f.events, GetLine);
    CountAppend([FeedStart(url)] + f.events, [], GetLine);
    CountOne(FeedStart(url), GetLine);
  }

  /**
   * The lines of one feed: at most maxRetries GETs (all of them when it
   * fails), one RetryWait per failed attempt, the last included, and one
   * give-up line exactly when it fails.
   */
  lemma ResolveLines(url: string, net: FeedNet, maxRetries: nat)
    ensures var r := Resolve(url, net, maxRetries);
            var ok := FetchFeed(url, net, maxRetries).value.Some?;
            var gets := Count(r.events, GetLine);
            gets <= maxRetries &&
            (!ok ==> gets == maxRetries) &&
            Count(r.events, WaitLine) == gets - (if ok then 1 else 0) &&
            Count(r.events, GiveUpLine) == (if ok then 0 else 1)
  {
    var f := FetchFeed(url, net, maxRetries);
    var r := Resolve(url, net, maxRetries);
    FeedAttemptsLength(url, net, 1, maxRetries);
    FeedAttemptsLines(url, net, maxRetries);
    var all := FeedAttempts(url, net, 1, maxRetries);
    TriesCounts(all);
    assert f == Tries(all);
    var gets := Count(f.events, GetLine);
    assert gets <= maxRetries && (f.value.None? ==> gets == maxRetries);
    assert Count(f.events, WaitLine) == gets - (if f.value.Some? then 1 else 0);
    assert Count(f.events, GiveUpLine) == 0;
    var head := [FeedStart(url)];
    var giveUp := if f.value.None? then [FeedGiveUp(url, maxRetries)] else [];
    assert r.events == head + f.events + giveUp;
    forall kind: Kind
      ensures Count(r.events, kind) == Count(f.events, kind) + Count(giveUp, kind)
    {
      CountAppend(head, f.events, kind);
      CountAppend(head + f.events, giveUp, kind);
      CountOne(FeedStart(url), kind);
      if f.value.None? {
        CountOne(FeedGiveUp(url, maxRetries), kind);
      }
    }
    assert Count(giveUp, GetLine) == 0 && Count(giveUp, WaitLine) == 0;
    assert Count(giveUp, GiveUpLine) == (if f.value.Some? then 0 else 1);
  }
}
