/**
 * Requests served one after another by the same process, and what the shared
 * debug window does across them (app.py:17, app.py:29-30, app.py:188).
 *
 * Run folds Step over a trace of timestamped requests, starting from the value
 * `debug_enabled_until` has at that point. The lemmas say that the window is
 * decided by the last raising request alone, that it opens for whoever asks
 * next, and that it closes 45 seconds after that request.
 */
module Trace {
  import opened Wrappers
  import opened Calculator
  import opened Service

  /** A request and the wall-clock time at which it is handled. */
  datatype Event = Event(req: Request, now: real)

  /** The responses to a trace, in order, and the window after it. */
  datatype Transcript<N> = Transcript(responses: seq<Response<N>>, debugEnabledUntil: real)

  /** Serve every request of `trace` in order, starting from `debugEnabledUntil`. */
  function Run<N>(fp: FloatOps<N>, secrets: Secrets, debugEnabledUntil: real, trace: seq<Event>)
    : (t: Transcript<N>)
    ensures |t.responses| == |trace|
    decreases |trace|
  {
    if trace == [] then Transcript([], debugEnabledUntil)
    else
      var prev := Run(fp, secrets, debugEnabledUntil, trace[..|trace| - 1]);
      var last := trace[|trace| - 1];
      var s := Step(fp, secrets, prev.debugEnabledUntil, last.req, last.now);
      Transcript(prev.responses + [s.response], s.debugEnabledUntil)
  }

  /** The time of the last request in `trace` that raised, if any did. */
  ghost function LastFault<N>(fp: FloatOps<N>, trace: seq<Event>): Option<real>
    decreases |trace|
  {
    if trace == [] then None
    else if Raises(fp, trace[|trace| - 1].req) then Some(trace[|trace| - 1].now)
    else LastFault(fp, trace[..|trace| - 1])
  }

  /** No request of `trace` raises. */
  ghost predicate Quiet<N>(fp: FloatOps<N>, trace: seq<Event>)
  {
    forall i :: 0 <= i < |trace| ==> !Raises(fp, trace[i].req)
  }

  /** The clock never goes backwards along `trace`. */
  ghost predicate ClockMonotone(trace: seq<Event>)
  {
    forall i, j :: 0 <= i < j < |trace| ==> trace[i].now <= trace[j].now
  }

  /**
   * The window after a trace is set by the last raising request alone: 45
   * seconds after it, overwriting whatever earlier faults set; with no raising
   * request it is the value the trace started from.
   */
  lemma {:induction false} WindowIsSetByLastFault<N>(
    fp: FloatOps<N>, secrets: Secrets, start: real, trace: seq<Event>)
    ensures Run(fp, secrets, start, trace).debugEnabledUntil ==
              match LastFault(fp, trace)
              case None => start
              case Some(t) => t + DebugWindowSeconds
    decreases |trace|
  {
    if trace != [] {
      WindowIsSetByLastFault(fp, secrets, start, trace[..|trace| - 1]);
    }
  }

  /** The last raising request is one of the trace's raising requests. */
  lemma {:induction false} LastFaultIsAFault<N>(fp: FloatOps<N>, trace: seq<Event>)
    ensures LastFault(fp, trace).None? <==> Quiet(fp, trace)
    ensures LastFault(fp, trace).Some? ==>
              exists i :: 0 <= i < |trace| && Raises(fp, trace[i].req) && trace[i].now == LastFault(fp, trace).value
    decreases |trace|
  {
    if trace != [] {
      var init := trace[..|trace| - 1];
      LastFaultIsAFault(fp, init);
      assert forall i :: 0 <= i < |init| ==> init[i] == trace[i];
    }
  }

  /** Appending requests that do not raise leaves the last fault where it was. */
  lemma {:induction false} QuietSuffixKeepsLastFault<N>(fp: FloatOps<N>, prefix: seq<Event>, quiet: seq<Event>)
    requires Quiet(fp, quiet)
    ensures LastFault(fp, prefix + quiet) == LastFault(fp, prefix)
    decreases |quiet|
  {
    if quiet != [] {
      var whole := prefix + quiet;
      assert whole[..|whole| - 1] == prefix + quiet[..|quiet| - 1];
      assert whole[|whole| - 1] == quiet[|quiet| - 1];
      QuietSuffixKeepsLastFault(fp, prefix, quiet[..|quiet| - 1]);
    } else {
      assert prefix + quiet == prefix;
    }
  }

  /**
   * The k-th response is the k-th request served against the window left by
   * the requests before it: every handler sees every earlier fault.
   */
  lemma {:induction false} ResponseAt<N>(
    fp: FloatOps<N>, secrets: Secrets, start: real, trace: seq<Event>, k: nat)
    requires k < |trace|
    ensures Run(fp, secrets, start, trace).responses[k] ==
              Step(fp, secrets, Run(fp, secrets, start, trace[..k]).debugEnabledUntil, trace[k].req, trace[k].now).response
    decreases |trace|
  {
    if k < |trace| - 1 {
      var init := trace[..|trace| - 1];
      ResponseAt(fp, secrets, start, init, k);
      assert init[..k] == trace[..k];
    }
  }

  /**
   * After a raising request at time t followed only by requests that do not
   * raise, the window stands at t + 45, whatever came before t.
   */
  lemma WindowAfterFault<N>(
    fp: FloatOps<N>, secrets: Secrets, start: real, before: seq<Event>, fault: Event, after: seq<Event>)
    requires Raises(fp, fault.req)
    requires Quiet(fp, after)
    ensures Run(fp, secrets, start, before + [fault] + after).debugEnabledUntil == fault.now + DebugWindowSeconds
  {
    QuietSuffixKeepsLastFault(fp, before + [fault], after);
    WindowIsSetByLastFault(fp, secrets, start, before + [fault] + after);
  }

  /**
   * The leak: after a raising request at time t and any number of requests
   * that do not raise, /debug_status at `now` shows the debug secret and the
   * flag exactly when now < t + 45, and shows the constant OFF page from
   * t + 45 on. Nothing in a request identifies its client, so this holds for
   * every caller alike.
   */
  lemma DebugStatusAfterFault<N>(
    fp: FloatOps<N>, secrets: Secrets, start: real,
    before: seq<Event>, fault: Event, after: seq<Event>, now: real)
    requires Raises(fp, fault.req)
    requires Quiet(fp, after)
    ensures var trace := before + [fault] + after + [Event(DebugStatusRequest, now)];
            var last := Run(fp, secrets, start, trace).responses[|trace| - 1];
            && last.status == 200
            && (now < fault.now + DebugWindowSeconds ==>
                  last.body == DebugActivePage(secrets.debugSecret, secrets.flag, fault.now + DebugWindowSeconds))
            && (now >= fault.now + DebugWindowSeconds ==> last.body == DebugOffPage)
  {
    WindowAfterFault(fp, secrets, start, before, fault, after);
    var trace := before + [fault] + after + [Event(DebugStatusRequest, now)];
    assert trace[..|trace| - 1] == before + [fault] + after;
  }

  /**
   * The window starts closed: from the initial value 0, a process that has
   * seen no raising request answers /debug_status at any time now >= 0 with
   * the OFF page.
   */
  lemma NoFaultNoDisclosure<N>(fp: FloatOps<N>, secrets: Secrets, trace: seq<Event>, now: real)
    requires Quiet(fp, trace)
    requires now >= 0.0
    ensures var whole := trace + [Event(DebugStatusRequest, now)];
            Run(fp, secrets, InitialDebugEnabledUntil, whole).responses[|trace|].body == DebugOffPage
  {
    LastFaultIsAFault(fp, trace);
    WindowIsSetByLastFault(fp, secrets, InitialDebugEnabledUntil, trace);
    var whole := trace + [Event(DebugStatusRequest, now)];
    assert whole[..|whole| - 1] == trace;
  }

  /**
   * The window only ever moves because a request raised: if it differs from
   * where the trace started, some request of the trace raised.
   */
  lemma OnlyFaultsMoveWindow<N>(fp: FloatOps<N>, secrets: Secrets, start: real, trace: seq<Event>)
    ensures Run(fp, secrets, start, trace).debugEnabledUntil != start ==>
              exists i :: 0 <= i < |trace| && Raises(fp, trace[i].req)
  {
    LastFaultIsAFault(fp, trace);
    WindowIsSetByLastFault(fp, secrets, start, trace);
  }

  /**
   * With a clock that never goes backwards and starts at 0 or later, from
   * the initial value 0 no request ever shortens the window: each fault only
   * extends it. The code itself overwrites, so this relies on the clock.
   */
  lemma WindowNeverShrinks<N>(fp: FloatOps<N>, secrets: Secrets, trace: seq<Event>, k: nat)
    requires ClockMonotone(trace)
    requires |trace| > 0 ==> trace[0].now >= 0.0
    requires k < |trace|
    ensures Run(fp, secrets, InitialDebugEnabledUntil, trace[..k]).debugEnabledUntil
              <= Run(fp, secrets, InitialDebugEnabledUntil, trace[..k + 1]).debugEnabledUntil
  {
    var prefix := trace[..k];
    assert trace[..k + 1][..k] == prefix;
    WindowIsSetByLastFault(fp, secrets, InitialDebugEnabledUntil, prefix);
    LastFaultIsAFault(fp, prefix);
    if LastFault(fp, prefix).Some? {
      var i :| 0 <= i < |prefix| && Raises(fp, prefix[i].req) && prefix[i].now == LastFault(fp, prefix).value;
      assert trace[i].now <= trace[k].now;
    } else {
      assert trace[0].now <= trace[k].now;
    }
  }
}
