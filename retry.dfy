/**
 * The bounded-retry loop both fetchers share: `for attempt in range(1, max_retries+1)`
 * with a `success` flag, a `break` on the first good attempt and a "Waiting ... before
 * retry" line after every attempt that was not good.
 */
module Retry {
  import opened Wrappers
  import opened Events

  /** The only status code the crawler treats as a successful response. */
  const HTTP_OK := 200

  /**
   * What one `requests.get` call gave: an exception (with its message) or a
   * response with a status code and the part of its body the parser extracts.
   */
  datatype Reply<B> = Raised(message: string) | Received(status: int, body: B)

  /** What an attempt, or a whole series of attempts, produced: a value on success, and the lines it logged. */
  datatype Attempted<T> = Attempted(value: Option<T>, events: seq<LogEvent>)

  /**
   * A retry loop whose attempts, in order, behave as `steps` (one entry per
   * attempt the bound allows): the loop ends at the first attempt that yields
   * a value, and every attempt that does not is followed by a RetryWait line,
   * the last one too.
   */
  function Tries<T>(steps: seq<Attempted<T>>): (r: Attempted<T>) {
    if steps == [] then Attempted(None, [])
    else if steps[0].value.Some? then steps[0]
    else
      var rest := Tries(steps[1..]);
      Attempted(rest.value, steps[0].events + [RetryWait] + rest.events)
  }

  /**
   * Running `all` is the same as having logged `done` and then running `rest`:
   * the invariant of an attempt loop part-way through.
   */
  ghost predicate Resumes<T>(all: seq<Attempted<T>>, done: seq<LogEvent>, rest: seq<Attempted<T>>) {
    Tries(all).value == Tries(rest).value && Tries(all).events == done + Tries(rest).events
  }

  lemma ResumesStart<T>(all: seq<Attempted<T>>)
    ensures Resumes(all, [], all)
  {
    assert [] + Tries(all).events == Tries(all).events;
  }

  /** A failed attempt adds its lines and one RetryWait line to what has been logged. */
  lemma ResumesFail<T>(all: seq<Attempted<T>>, done: seq<LogEvent>, s: Attempted<T>, rest: seq<Attempted<T>>)
    requires Resumes(all, done, [s] + rest) && s.value.None?
    ensures Resumes(all, done + s.events + [RetryWait], rest)
  {
    assert ([s] + rest)[1..] == rest;
    AppendAssoc(done, s.events + [RetryWait], Tries(rest).events);
  }

  /** A good attempt ends the loop with its value. */
  lemma ResumesStop<T>(all: seq<Attempted<T>>, done: seq<LogEvent>, s: Attempted<T>, rest: seq<Attempted<T>>)
    requires Resumes(all, done, [s] + rest) && s.value.Some?
    ensures Tries(all) == Attempted(s.value, done + s.events)
  {
  }

  /** With no attempt left, the loop has failed and logged `done`. */
  lemma ResumesEnd<T>(all: seq<Attempted<T>>, done: seq<LogEvent>)
    requires Resumes(all, done, [])
    ensures Tries(all) == Attempted(None, done)
  {
    assert done + [] == done;
  }

  /** The loop fails exactly when every attempt fails. */
  lemma {:induction false} TriesFailIff<T>(steps: seq<Attempted<T>>)
    ensures Tries(steps).value.None? <==> forall j :: 0 <= j < |steps| ==> steps[j].value.None?
  {
    if steps != [] && steps[0].value.None? {
      TriesFailIff(steps[1..]);
      assert forall j :: 1 <= j < |steps| ==> steps[j] == steps[1..][j - 1];
    }
  }

  /** A value the loop yields is that of some attempt, and every attempt before it failed. */
  lemma {:induction false} TriesSound<T>(steps: seq<Attempted<T>>)
    requires Tries(steps).value.Some?
    ensures exists j :: 0 <= j < |steps| && steps[j].value == Tries(steps).value &&
                        forall i :: 0 <= i < j ==> steps[i].value.None?
  {
    if steps[0].value.None? {
      TriesSound(steps[1..]);
      var j :| 0 <= j < |steps[1..]| && steps[1..][j].value == Tries(steps[1..]).value &&
               forall i :: 0 <= i < j ==> steps[1..][i].value.None?;
      assert steps[j + 1] == steps[1..][j];
      assert forall i :: 1 <= i < j + 1 ==> steps[i] == steps[1..][i - 1];
    }
  }

  /** The loop yields the value of the first attempt that has one. */
  lemma {:induction false} TriesFirst<T>(steps: seq<Attempted<T>>, j: nat)
    requires j < |steps| && steps[j].value.Some?
    requires forall i :: 0 <= i < j ==> steps[i].value.None?
    ensures Tries(steps).value == steps[j].value
  {
    if j > 0 {
      assert steps[1..][j - 1] == steps[j];
      TriesFirst(steps[1..], j - 1);
    }
  }

  /** Each attempt logs exactly one "Attempt k - GET" line and no wait or give-up line of its own. */
  predicate OneGetPerAttempt<T>(steps: seq<Attempted<T>>) {
    forall j :: 0 <= j < |steps| ==>
      Count(steps[j].events, GetLine) == 1 && Count(steps[j].events, WaitLine) == 0 &&
      Count(steps[j].events, GiveUpLine) == 0
  }

  /**
   * At most one GET per allowed attempt, all of them when the loop fails; one
   * RetryWait per failed attempt, the final failed one included; no give-up line.
   */
  lemma {:induction false} TriesCounts<T>(steps: seq<Attempted<T>>)
    requires OneGetPerAttempt(steps)
    ensures var t := Tries(steps);
            var gets := Count(t.events, GetLine);
            gets <= |steps| &&
            (t.value.None? ==> gets == |steps|) &&
            Count(t.events, WaitLine) == gets - (if t.value.Some? then 1 else 0) &&
            Count(t.events, GiveUpLine) == 0
  {
    if steps != [] && steps[0].value.None? {
      var s := steps[0];
      var rest := Tries(steps[1..]);
      assert OneGetPerAttempt(steps[1..]) by {
        forall j | 0 <= j < |steps[1..]| ensures steps[1..][j] == steps[j + 1] { }
      }
      TriesCounts(steps[1..]);
      assert Count([RetryWait], WaitLine) == 1;
      forall kind: Kind
        ensures Count(s.events + [RetryWait] + rest.events, kind)
             == Count(s.events, kind) + Count([RetryWait], kind) + Count(rest.events, kind)
      {
        CountAppend(s.events, [RetryWait], kind);
        CountAppend(s.events + [RetryWait], rest.events, kind);
      }
    }
  }

  /** When attempt j is the first good one, the loop made exactly j + 1 GETs. */
  lemma {:induction false} TriesStopsAtFirst<T>(steps: seq<Attempted<T>>, j: nat)
    requires j < |steps| && steps[j].value.Some?
    requires forall i :: 0 <= i < j ==> steps[i].value.None?
    requires OneGetPerAttempt(steps)
    ensures Count(Tries(steps).events, GetLine) == j + 1
  {
    if j > 0 {
      var s := steps[0];
      var rest := Tries(steps[1..]);
      assert steps[1..][j - 1] == steps[j];
      assert OneGetPerAttempt(steps[1..]) by {
        forall i | 0 <= i < |steps[1..]| ensures steps[1..][i] == steps[i + 1] { }
      }
      TriesStopsAtFirst(steps[1..], j - 1);
      CountAppend(s.events, [RetryWait], GetLine);
      CountAppend(s.events + [RetryWait], rest.events, GetLine);
    }
  }
  /** The lines of attempts that all failed, each followed by its RetryWait line. */
  function Failed<T>(steps: seq<Attempted<T>>): (r: seq<LogEvent>) {
    if steps == [] then [] else steps[0].events + [RetryWait] + Failed(steps[1..])
  }

  /**
   * The order of the loop's lines: when attempts 0..j-1 failed, the log is
   * theirs (each with its wait), then attempt j's own lines; if attempt j
   * failed too, its RetryWait line comes right after them and before
   * anything a later attempt logs, and if it was good the loop ends there.
   */
  lemma {:induction false} TriesOrder<T>(steps: seq<Attempted<T>>, j: nat)
    requires j < |steps|
    requires forall i :: 0 <= i < j ==> steps[i].value.None?
    ensures steps[j].value.None? ==>
              Tries(steps).events == Failed(steps[..j]) + steps[j].events + [RetryWait] + Tries(steps[j + 1..]).events
    ensures steps[j].value.Some? ==>
              Tries(steps) == Attempted(steps[j].value, Failed(steps[..j]) + steps[j].events)
  {
    if j > 0 {
      var s := steps[0];
      var tail := steps[1..];
      assert tail[j - 1] == steps[j];
      assert tail[j..] == steps[j + 1..];
      assert steps[..j][1..] == tail[..j - 1];
      TriesOrder(tail, j - 1);
      var mid := Failed(tail[..j - 1]);
      assert Failed(steps[..j]) == s.events + [RetryWait] + mid;
      if steps[j].value.None? {
        var w := steps[j].events + [RetryWait] + Tries(steps[j + 1..]).events;
        assert Tries(tail).events == mid + steps[j].events + [RetryWait] + Tries(steps[j + 1..]).events;
        assert mid + steps[j].events + [RetryWait] + Tries(steps[j + 1..]).events == mid + w;
        assert Failed(steps[..j]) + steps[j].events + [RetryWait] + Tries(steps[j + 1..]).events
            == s.events + [RetryWait] + mid + w;
      } else {
        assert Failed(steps[..j]) + steps[j].events == s.events + [RetryWait] + (mid + steps[j].events);
      }
    }
  }

  /** The failed attempts before the loop's end logged one GET and one RetryWait line each, and no give-up line. */
  lemma {:induction false} FailedCounts<T>(steps: seq<Attempted<T>>)
    requires OneGetPerAttempt(steps)
    ensures Count(Failed(steps), GetLine) == |steps|
    ensures Count(Failed(steps), WaitLine) == |steps|
    ensures Count(Failed(steps), GiveUpLine) == 0
  {
    if steps != [] {
      var s := steps[0];
      assert OneGetPerAttempt(steps[1..]) by {
        forall j | 0 <= j < |steps[1..]| ensures steps[1..][j] == steps[j + 1] { }
      }
      FailedCounts(steps[1..]);
      forall kind: Kind
        ensures Count(Failed(steps), kind) == Count(s.events, kind) + Count([RetryWait], kind) + Count(Failed(steps[1..]), kind)
      {
        CountAppend(s.events, [RetryWait], kind);
        CountAppend(s.events + [RetryWait], Failed(steps[1..]), kind);
        CountOne(RetryWait, kind);
      }
      CountOne(RetryWait, GetLine);
      CountOne(RetryWait, WaitLine);
      CountOne(RetryWait, GiveUpLine);
    }
  }
}
