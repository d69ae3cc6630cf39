/** The circuit breaker of the GPU client: a sliding failure window pruned as it goes, checked against a
    machine that remembers every failure. */
module Breaker {
  import opened Prelude

  datatype Status = Closed | Open | HalfOpen

  datatype Config = Config(threshold: int, window: real, recovery: real)

  const DEFAULTS := Config(3, 60.0, 30.0)

  datatype State = State(failures: seq<real>, openedAt: Option<real>, status: Status)

  const FRESH := State([], None, Closed)

  /** The times younger than the window at `now`, in order. */
  function Recent(times: seq<real>, now: real, window: real): seq<real> {
    if times == [] then []
    else
      var n := |times| - 1;
      Recent(times[..n], now, window) + (if now - times[n] < window then [times[n]] else [])
  }

  /** Reading the state property: an open breaker becomes half-open once the recovery time has passed. */
  function Looked(c: Config, b: State, now: real): State {
    var since := if b.openedAt.Some? then b.openedAt.value else 0.0;
    if b.status.Open? && now - since > c.recovery then b.(status := HalfOpen) else b
  }

  function Failed(c: Config, b: State, now: real): State {
    var fs := Recent(b.failures, now, c.window) + [now];
    if |fs| >= c.threshold then State(fs, Some(now), Open) else b.(failures := fs)
  }

  class CircuitBreaker {
    const config: Config
    var failures: seq<real>
    var openedAt: Option<real>
    var status: Status

    function Abs(): State
      reads this
    {
      State(failures, openedAt, status)
    }

    constructor (config: Config)
      ensures this.config == config && Abs() == State([], None, Closed)
    {
      this.config := config;
      failures, openedAt, status := [], None, Closed;
    }

    method ReadState(now: real) returns (s: Status)
      modifies `status
      ensures Abs() == Looked(config, old(Abs()), now) && s == status
    {
      var since := if openedAt.Some? then openedAt.value else 0.0;
      if status == Open && now - since > config.recovery {
        status := HalfOpen;
      }
      return status;
    }

    method RecordSuccess()
      modifies this
      ensures Abs() == FRESH
    {
      failures := [];
      openedAt := None;
      status := Closed;
    }

    method RecordFailure(now: real)
      modifies this
      ensures Abs() == Failed(config, old(Abs()), now)
    {
      var kept := [];
      for k := 0 to |failures|
        invariant kept == Recent(failures[..k], now, config.window)
      {
        assert failures[..k + 1][..k] == failures[..k];
        if now - failures[k] < config.window {
          kept := kept + [failures[k]];
        }
      }
      assert failures[..|failures|] == failures;
      failures := kept + [now];
      if |failures| >= config.threshold {
        status := Open;
        openedAt := Some(now);
      }
    }

    /** False where the source raises. */
    method Check(now: real) returns (ok: bool)
      modifies `status
      ensures Abs() == Looked(config, old(Abs()), now) && (ok <==> !status.Open?)
    {
      var s := ReadState(now);
      ok := s != Open;
    }
  }

  // ---- Histories ------------------------------------------------------------------------

  datatype Happening = Look(at: real) | Success(at: real) | Failure(at: real)

  ghost predicate Chronological(hs: seq<Happening>) {
    forall j, k :: 0 <= j < k < |hs| ==> hs[j].at <= hs[k].at
  }

  function After(c: Config, b: State, h: Happening): State {
    match h
    case Look(t) => Looked(c, b, t)
    case Success(_) => FRESH
    case Failure(t) => Failed(c, b, t)
  }

  function Replay(c: Config, hs: seq<Happening>): State {
    if hs == [] then FRESH else After(c, Replay(c, hs[..|hs| - 1]), hs[|hs| - 1])
  }

  /** Every failure since the latest success, oldest first; nothing is ever pruned. */
  function FailuresSinceSuccess(hs: seq<Happening>): seq<real> {
    if hs == [] then []
    else
      var earlier := FailuresSinceSuccess(hs[..|hs| - 1]);
      match hs[|hs| - 1]
      case Look(_) => earlier
      case Success(_) => []
      case Failure(t) => earlier + [t]
  }

  /** The window as the documentation describes it, read off the full history at its latest failure. */
  function WindowOf(c: Config, all: seq<real>): seq<real> {
    if all == [] then []
    else
      var n := |all| - 1;
      Recent(all[..n], all[n], c.window) + [all[n]]
  }

  /** No remembered failure is later than the next happening. */
  lemma {:induction false} FailuresArePast(hs: seq<Happening>, t: real)
    requires Chronological(hs) && (hs != [] ==> hs[|hs| - 1].at <= t)
    ensures forall k :: 0 <= k < |FailuresSinceSuccess(hs)| ==> FailuresSinceSuccess(hs)[k] <= t
  {
    if hs != [] {
      var n := |hs| - 1;
      if n > 0 {
        assert hs[n - 1].at <= hs[n].at;
      }
      FailuresArePast(hs[..n], t);
    }
  }

  /** Pruning at an earlier time loses nothing that a later pruning would keep. */
  lemma {:induction false} PruneTwice(times: seq<real>, t: real, u: real, window: real)
    requires t <= u
    ensures Recent(Recent(times, t, window), u, window) == Recent(times, u, window)
  {
    if times != [] {
      var n := |times| - 1;
      PruneTwice(times[..n], t, u, window);
      if t - times[n] < window {
        RecentSnoc(Recent(times[..n], t, window), times[n], u, window);
      } else {
        assert Recent(times, t, window) == Recent(times[..n], t, window);
      }
    }
  }

  lemma RecentSnoc(times: seq<real>, x: real, now: real, window: real)
    ensures Recent(times + [x], now, window)
         == Recent(times, now, window) + (if now - x < window then [x] else [])
  {
    assert (times + [x])[..|times|] == times;
  }

  lemma PruneWindow(c: Config, all: seq<real>, now: real)
    requires all != [] ==> all[|all| - 1] <= now
    ensures Recent(WindowOf(c, all), now, c.window) == Recent(all, now, c.window)
  {
    if all != [] {
      var n := |all| - 1;
      PruneTwice(all[..n], all[n], now, c.window);
      RecentSnoc(Recent(all[..n], all[n], c.window), all[n], now, c.window);
    }
  }

  /** The incrementally pruned list is always the window of the full history. */
  lemma {:induction false} PrunedListIsWindow(c: Config, hs: seq<Happening>)
    requires Chronological(hs)
    ensures Replay(c, hs).failures == WindowOf(c, FailuresSinceSuccess(hs))
  {
    if hs != [] {
      var n := |hs| - 1;
      PrunedListIsWindow(c, hs[..n]);
      if hs[n].Failure? {
        FailureKeepsWindow(c, hs[..n], hs[n].at);
      }
    }
  }

  lemma FailureKeepsWindow(c: Config, hs: seq<Happening>, t: real)
    requires Chronological(hs) && (hs != [] ==> hs[|hs| - 1].at <= t)
    requires Replay(c, hs).failures == WindowOf(c, FailuresSinceSuccess(hs))
    ensures Recent(Replay(c, hs).failures, t, c.window) == Recent(FailuresSinceSuccess(hs), t, c.window)
    ensures Failed(c, Replay(c, hs), t).failures == WindowOf(c, FailuresSinceSuccess(hs) + [t])
  {
    var all := FailuresSinceSuccess(hs);
    FailuresArePast(hs, t);
    PruneWindow(c, all, t);
    assert (all + [t])[..|all|] == all;
  }

  /** A failure at t opens the breaker exactly when the unpruned history has threshold - 1 failures younger
      than the window at t; otherwise it leaves the status and the opening time alone. */
  lemma FailureOpensIff(c: Config, hs: seq<Happening>, t: real)
    requires Chronological(hs) && (hs != [] ==> hs[|hs| - 1].at <= t)
    ensures var before := Replay(c, hs);
            var r := Replay(c, hs + [Failure(t)]);
            var inWindow := |Recent(FailuresSinceSuccess(hs), t, c.window)|;
            && (inWindow + 1 >= c.threshold ==> r.status == Open && r.openedAt == Some(t))
            && (inWindow + 1 < c.threshold ==> r.status == before.status && r.openedAt == before.openedAt)
  {
    PrunedListIsWindow(c, hs);
    FailureKeepsWindow(c, hs, t);
    assert (hs + [Failure(t)])[..|hs|] == hs;
  }

  /** With a positive window the kept list is simply the full history filtered at its latest failure. */
  lemma WindowIsFilter(c: Config, all: seq<real>)
    requires c.window > 0.0 && all != []
    ensures WindowOf(c, all) == Recent(all, all[|all| - 1], c.window)
  {
  }

  // ---- Invariants of every history ------------------------------------------------------

  /** An open breaker remembers when it opened, which is its latest failure, and has a full window; a
      breaker that has not opened since the last success has less than a full one. */
  ghost predicate Sound(c: Config, b: State) {
    var n := |b.failures|;
    && (b.status.Closed? ==> b.openedAt.None? && (n > 0 ==> n < c.threshold))
    && (!b.status.Closed? ==> b.openedAt.Some? && n > 0 && b.openedAt.value <= b.failures[n - 1])
    && (b.status.Open? ==> n >= c.threshold && b.openedAt.value == b.failures[n - 1])
  }

  /** No client calls the breaker while it is open: a failure is only recorded after a check that passed. */
  ghost predicate Guarded(c: Config, hs: seq<Happening>) {
    forall k :: 0 <= k < |hs| && hs[k].Failure? ==> !Replay(c, hs[..k]).status.Open?
  }

  lemma {:induction false} HistoriesAreSound(c: Config, hs: seq<Happening>)
    requires Chronological(hs) && Guarded(c, hs)
    ensures Sound(c, Replay(c, hs))
  {
    if hs != [] {
      var n := |hs| - 1;
      forall k | 0 <= k < n && hs[..n][k].Failure? ensures !Replay(c, hs[..n][..k]).status.Open? {
        assert hs[..n][..k] == hs[..k] && hs[k].Failure?;
      }
      HistoriesAreSound(c, hs[..n]);
      if hs[n].Failure? && Replay(c, hs[..n]).failures != [] {
        LatestKeptIsPast(c, hs);
      }
    }
  }

  lemma LatestKeptIsPast(c: Config, hs: seq<Happening>)
    requires Chronological(hs) && hs != [] && Replay(c, hs[..|hs| - 1]).failures != []
    ensures var fs := Replay(c, hs[..|hs| - 1]).failures; fs[|fs| - 1] <= hs[|hs| - 1].at
  {
    var n := |hs| - 1;
    PrunedListIsWindow(c, hs[..n]);
    if n > 0 {
      assert hs[n - 1].at <= hs[n].at;
    }
    FailuresArePast(hs[..n], hs[n].at);
  }
}
