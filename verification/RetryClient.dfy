/** The send path of the GPU client: the 429 retry loop over an arbitrary upstream, its delays, and runs of
    sequential calls through the shared breaker. */
module RetryClient {
  import opened Prelude
  import opened Breaker

  const MAX_RETRIES := 3
  const BASE_DELAY := 0.8
  const MAX_DELAY := 5.0

  type Duration = x: real | 0.0 <= x

  /** A draw of `random.uniform(0, base)` as a share of base; both ends are allowed. */
  type Draw = x: real | 0.0 <= x <= 1.0

  /** A Retry-After header, as `float` reads it; Unreadable covers the empty string and HTTP dates. */
  datatype Header = Missing | Unreadable | Seconds(s: real) | Infinite

  datatype Reply =
    | NoReply
    | Response(status: int, retryAfter: Header, jsonOk: bool)

  /** What the world does during one attempt: the reply, how long it takes, the jitter drawn, and by how
      much a sleep overshoots. */
  datatype Attempt = Attempt(reply: Reply, elapsed: Duration, jitter: Draw, overshoot: Duration)

  type Upstream = nat -> Attempt

  datatype Outcome =
    | Rejected | Returned | BadJson | Unavailable | NotImplemented | RateLimited | LoopExited

  /** The breaker afterwards, how the call ended, and the requests, sleeps and clock it used. */
  datatype Sent = Sent(breaker: State, outcome: Outcome, requests: nat, sleeps: seq<real>, end: real)

  // ---- Delays ---------------------------------------------------------------------------

  function ParseRetryAfter(h: Header): (d: Option<real>)
    ensures d.Some? <==> h.Infinite? || (h.Seconds? && h.s >= 0.0)
    ensures d.Some? ==> 0.0 <= d.value <= MAX_DELAY
    ensures d.Some? && h.Seconds? ==> d.value <= h.s && (d.value == h.s || d.value == MAX_DELAY)
  {
    match h
    case Seconds(s) => if s < 0.0 then None else Some(MinR(s, MAX_DELAY))
    case Infinite => Some(MAX_DELAY)
    case _ => None
  }

  function Pow2(n: nat): real {
    if n == 0 then 1.0 else 2.0 * Pow2(n - 1)
  }

  function BackoffCap(attempt: nat): real {
    MinR(MAX_DELAY, BASE_DELAY * Pow2(attempt))
  }

  /** `random.uniform(0, base)`. */
  function BackoffDelay(attempt: nat, u: Draw): real {
    u * BackoffCap(attempt)
  }

  function Delay(a: Attempt, attempt: nat): real
    requires a.reply.Response?
  {
    var d := if a.reply.retryAfter.Missing? then None else ParseRetryAfter(a.reply.retryAfter);
    if d.Some? then d.value else BackoffDelay(attempt, a.jitter)
  }

  // ---- One call -------------------------------------------------------------------------

  predicate IsSuccess(status: int) {
    200 <= status < 300
  }

  /** A reply is retried when it is a 429 and the budget is not spent. */
  predicate Retries(a: Attempt, attempt: nat) {
    a.reply.Response? && a.reply.status == 429 && attempt < MAX_RETRIES
  }

  /** How a call ends at time t on a reply that is not retried. */
  function Final(c: Config, b: State, r: Reply, t: real): Sent {
    if r.NoReply? then Sent(Failed(c, b, t), Unavailable, 1, [], t)
    else if r.status == 429 then Sent(Failed(c, b, t), RateLimited, 1, [], t)
    else if r.status == 404 then Sent(b, NotImplemented, 1, [], t)
    else if !IsSuccess(r.status) then Sent(Failed(c, b, t), Unavailable, 1, [], t)
    else Sent(FRESH, if r.jsonOk then Returned else BadJson, 1, [], t)
  }

  /** The call from a given attempt on, with the breaker b and the clock at `now`. */
  function SendFrom(c: Config, b: State, up: Upstream, attempt: nat, now: real): Sent
    decreases MAX_RETRIES + 1 - attempt
  {
    if attempt > MAX_RETRIES then Sent(b, LoopExited, 0, [], now)
    else
      var a := up(attempt);
      var t := now + a.elapsed;
      if Retries(a, attempt) then
        var d := Delay(a, attempt);
        Prepend(1, [d], SendFrom(c, b, up, attempt + 1, t + d + a.overshoot))
      else Final(c, b, a.reply, t)
  }

  function Prepend(requests: nat, sleeps: seq<real>, s: Sent): Sent {
    s.(requests := requests + s.requests, sleeps := sleeps + s.sleeps)
  }

  function Send(c: Config, b: State, up: Upstream, now: real): Sent {
    var looked := Looked(c, b, now);
    if looked.status.Open? then Sent(looked, Rejected, 0, [], now)
    else SendFrom(c, looked, up, 0, now)
  }

  class GpuInferenceClient {
    const breaker: CircuitBreaker

    constructor ()
      ensures breaker.config == Config(3, 60.0, 30.0) && breaker.Abs() == State([], None, Closed) && fresh(breaker)
    {
      breaker := new CircuitBreaker(DEFAULTS);
    }

    /** The clock is passed in and handed back; requests and sleeps are counted for the specification. */
    method SendWithRetry(up: Upstream, start: real)
      returns (outcome: Outcome, requests: nat, sleeps: seq<real>, end: real)
      modifies breaker
      ensures Sent(breaker.Abs(), outcome, requests, sleeps, end)
           == Send(breaker.config, old(breaker.Abs()), up, start)
    {
      hide SendFrom;
      var passed := breaker.Check(start);
      if !passed {
        return Rejected, 0, [], start;
      }
      outcome, requests, sleeps, end := RetryLoop(up, start);
    }

    method RetryLoop(up: Upstream, start: real)
      returns (outcome: Outcome, requests: nat, sleeps: seq<real>, end: real)
      modifies breaker
      ensures Sent(breaker.Abs(), outcome, requests, sleeps, end)
           == SendFrom(breaker.config, old(breaker.Abs()), up, 0, start)
    {
      hide Final, Delay, Failed;
      requests, sleeps, end := 0, [], start;
      ghost var c, b := breaker.config, breaker.Abs();
      ghost var whole := SendFrom(c, b, up, 0, start);
      var attempt := 0;
      while attempt < MAX_RETRIES + 1
        invariant 0 <= attempt <= MAX_RETRIES + 1
        invariant breaker.Abs() == b
        invariant whole == Prepend(requests, sleeps, SendFrom(c, b, up, attempt, end))
      {
        var a := up(attempt);
        end := end + a.elapsed;
        if !Retries(a, attempt) {
          requests := requests + 1;
          assert sleeps + [] == sleeps;
          FinalFacts(c, b, a.reply, end);
          outcome := Conclude(a.reply, end);
          return outcome, requests, sleeps, end;
        }
        var delay := Delay(a, attempt);
        PrependTwice(requests, sleeps, delay, SendFrom(c, b, up, attempt + 1, end + delay + a.overshoot));
        requests := requests + 1;
        sleeps := sleeps + [delay];
        end := end + delay + a.overshoot;
        attempt := attempt + 1;
      }
      assert sleeps + [] == sleeps;
      outcome := LoopExited;
    }

    /** Every exit of the loop body but the retry: what is recorded and what the caller sees. */
    method Conclude(r: Reply, now: real) returns (outcome: Outcome)
      modifies breaker
      ensures Sent(breaker.Abs(), outcome, 1, [], now) == Final(breaker.config, old(breaker.Abs()), r, now)
    {
      hide Failed;
      if r.NoReply? {
        breaker.RecordFailure(now);
        return Unavailable;
      }
      if r.status == 429 {
        breaker.RecordFailure(now);
        return RateLimited;
      }
      if !IsSuccess(r.status) {
        if r.status == 404 {
          return NotImplemented;
        }
        breaker.RecordFailure(now);
        return Unavailable;
      }
      breaker.RecordSuccess();
      return if r.jsonOk then Returned else BadJson;
    }
  }

  lemma PrependTwice(requests: nat, sleeps: seq<real>, d: real, s: Sent)
    ensures Prepend(requests, sleeps, Prepend(1, [d], s)) == Prepend(requests + 1, sleeps + [d], s)
  {
    assert sleeps + ([d] + s.sleeps) == (sleeps + [d]) + s.sleeps;
  }

  // ---- Budget ---------------------------------------------------------------------------

  function Sum(xs: seq<real>): real {
    if xs == [] then 0.0 else xs[0] + Sum(xs[1..])
  }

  predicate Usable(a: Attempt) {
    a.reply.Response? && (a.reply.retryAfter.Infinite? ||
      (a.reply.retryAfter.Seconds? && a.reply.retryAfter.s >= 0.0))
  }

  /** The longest sleep before the retry after a reply: what its header asks for, clamped, or else the backoff cap. */
  function Allowance(r: Reply, attempt: nat): real
    requires r.Response?
  {
    var d := ParseRetryAfter(r.retryAfter);
    if d.Some? then d.value else BackoffCap(attempt)
  }

  /** Summed over the attempts that are retried. */
  function AllowanceFrom(up: Upstream, attempt: nat): real
    decreases MAX_RETRIES - attempt
  {
    if Retries(up(attempt), attempt) then Allowance(up(attempt).reply, attempt) + AllowanceFrom(up, attempt + 1)
    else 0.0
  }

  lemma BackoffCaps()
    ensures BackoffCap(0) == 0.8 && BackoffCap(1) == 1.6 && BackoffCap(2) == 3.2
  {
    assert Pow2(0) == 1.0 && Pow2(1) == 2.0 * Pow2(0) && Pow2(2) == 2.0 * Pow2(1);
  }

  lemma PartOfCap(u: Draw, cap: real)
    requires cap >= 0.0
    ensures 0.0 <= u * cap <= cap
  {
    assert cap - u * cap == (1.0 - u) * cap;
  }

  lemma DelayIsAllowed(a: Attempt, attempt: nat)
    requires attempt < MAX_RETRIES && a.reply.Response?
    ensures 0.0 <= Delay(a, attempt) <= Allowance(a.reply, attempt) <= MAX_DELAY
    ensures a.jitter == 1.0 ==> Delay(a, attempt) == Allowance(a.reply, attempt)
  {
    BackoffCaps();
    PartOfCap(a.jitter, BackoffCap(attempt));
  }

  /** Every backoff draw comes out at its cap. */
  ghost predicate FullJitter(up: Upstream) {
    forall k: nat :: k < MAX_RETRIES ==> up(k).jitter == 1.0
  }

  /** One request more than sleeps; the sleeps stay within the allowance of the attempts retried, and use it up when
      every draw does. */
  lemma {:induction false} BudgetFrom(c: Config, b: State, up: Upstream, attempt: nat, now: real)
    requires attempt <= MAX_RETRIES
    ensures var r := SendFrom(c, b, up, attempt, now);
            && r.requests == |r.sleeps| + 1 && r.requests <= MAX_RETRIES + 1 - attempt
            && (forall k :: 0 <= k < |r.sleeps| ==> 0.0 <= r.sleeps[k] <= MAX_DELAY)
            && 0.0 <= Sum(r.sleeps) <= AllowanceFrom(up, attempt)
            && (FullJitter(up) ==> Sum(r.sleeps) == AllowanceFrom(up, attempt))
            && r.end >= now
            && r.outcome != LoopExited && r.outcome != Rejected
    decreases MAX_RETRIES - attempt
  {
    hide Final, Delay, Allowance;
    var a := up(attempt);
    AllowanceIsPositive(up, attempt);
    if Retries(a, attempt) {
      DelayIsAllowed(a, attempt);
      var d := Delay(a, attempt);
      var rest := SendFrom(c, b, up, attempt + 1, now + a.elapsed + d + a.overshoot);
      BudgetFrom(c, b, up, attempt + 1, now + a.elapsed + d + a.overshoot);
      assert ([d] + rest.sleeps)[1..] == rest.sleeps;
    } else {
      FinalFacts(c, b, a.reply, now + a.elapsed);
    }
  }

  /** What the last reply of a call tells the breaker. */
  lemma FinalFacts(c: Config, b: State, r: Reply, t: real)
    ensures var s := Final(c, b, r, t);
            && s.requests == 1 && s.sleeps == [] && s.end == t
            && Records(c, b, s) && s.outcome != LoopExited && s.outcome != Rejected
  {
  }

  /** One outcome is recorded at the end of the call, except that a 404 records none. */
  predicate Records(c: Config, b: State, s: Sent) {
    s.breaker ==
      if s.outcome == Returned || s.outcome == BadJson then FRESH
      else if s.outcome == Unavailable || s.outcome == RateLimited then Failed(c, b, s.end)
      else b
  }

  lemma {:induction false} AllowanceIsPositive(up: Upstream, attempt: nat)
    ensures AllowanceFrom(up, attempt) >= 0.0
    decreases MAX_RETRIES - attempt
  {
    if Retries(up(attempt), attempt) {
      DelayIsAllowed(up(attempt), attempt);
      AllowanceIsPositive(up, attempt + 1);
    }
  }

  /** The number of honoured Retry-After headers on the first three replies. */
  function UsableCount(up: Upstream): nat {
    (if Usable(up(0)) then 1 else 0) + (if Usable(up(1)) then 1 else 0) + (if Usable(up(2)) then 1 else 0)
  }

  lemma TotalAllowance(up: Upstream)
    ensures AllowanceFrom(up, 0) <= 15.0
    ensures UsableCount(up) == 0 ==> AllowanceFrom(up, 0) <= 5.6
    ensures UsableCount(up) == 1 ==> AllowanceFrom(up, 0) <= 9.8
    ensures Retries(up(0), 0) && Retries(up(1), 1) && Retries(up(2), 2) ==>
              AllowanceFrom(up, 0)
                == Allowance(up(0).reply, 0) + Allowance(up(1).reply, 1) + Allowance(up(2).reply, 2)
  {
    hide Allowance;
    AllowanceBounds(up(0), 0);
    AllowanceBounds(up(1), 1);
    AllowanceBounds(up(2), 2);
    assert AllowanceFrom(up, 3) == 0.0;
    assert Retries(up(2), 2) ==> AllowanceFrom(up, 2) == Allowance(up(2).reply, 2);
    assert Retries(up(1), 1) ==> AllowanceFrom(up, 1) == Allowance(up(1).reply, 1) + AllowanceFrom(up, 2);
  }

  lemma AllowanceBounds(a: Attempt, attempt: nat)
    requires attempt < MAX_RETRIES
    ensures a.reply.Response? ==>
      Allowance(a.reply, attempt)
        <= (if Usable(a) then 5.0 else if attempt == 0 then 0.8 else if attempt == 1 then 1.6 else 3.2)
  {
    BackoffCaps();
  }

  /** The same upstream with other draws of the jitter. */
  function WithJitter(up: Upstream, draws: nat -> Draw): Upstream {
    (k: nat) => up(k).(jitter := draws(k))
  }

  lemma {:induction false} AllowanceIgnoresJitter(up: Upstream, draws: nat -> Draw, attempt: nat)
    ensures AllowanceFrom(WithJitter(up, draws), attempt) == AllowanceFrom(up, attempt)
    decreases MAX_RETRIES - attempt
  {
    hide Allowance;
    if Retries(up(attempt), attempt) {
      AllowanceIgnoresJitter(up, draws, attempt + 1);
    }
  }

  /** No draw of the jitter makes the call sleep for more than a limit. */
  ghost predicate SleepsWithin(c: Config, b: State, up: Upstream, now: real, limit: real) {
    forall draws: nat -> Draw :: Sum(Send(c, b, WithJitter(up, draws), now).sleeps) <= limit
  }

  /** A limit on a call's sleeping holds for every draw of the jitter exactly when the call is rejected, or the
      headers and caps of its retried attempts add up to no more. */
  lemma SleepsWithinIff(c: Config, b: State, up: Upstream, now: real, limit: real)
    requires limit >= 0.0
    ensures SleepsWithin(c, b, up, now, limit) <==>
      Looked(c, b, now).status.Open? || AllowanceFrom(up, 0) <= limit
  {
    hide SendFrom, Looked;
    var looked := Looked(c, b, now);
    forall draws: nat -> Draw
      ensures !looked.status.Open? ==>
        Sum(Send(c, b, WithJitter(up, draws), now).sleeps) <= AllowanceFrom(up, 0)
    {
      BudgetFrom(c, looked, WithJitter(up, draws), 0, now);
      AllowanceIgnoresJitter(up, draws, 0);
    }
    if !looked.status.Open? {
      var full: nat -> Draw := _ => 1.0;
      BudgetFrom(c, looked, WithJitter(up, full), 0, now);
      AllowanceIgnoresJitter(up, full, 0);
      assert Sum(Send(c, b, WithJitter(up, full), now).sleeps) == AllowanceFrom(up, 0);
    }
  }

  /** The ten seconds of the source hold of a call that is sent exactly when that sum is at most ten. */
  lemma TenSecondsIff(c: Config, b: State, up: Upstream, now: real)
    requires !Looked(c, b, now).status.Open?
    ensures SleepsWithin(c, b, up, now, 10.0) <==> AllowanceFrom(up, 0) <= 10.0
  {
    hide SleepsWithin, Looked, AllowanceFrom;
    SleepsWithinIff(c, b, up, now, 10.0);
  }

  /** Every call, whatever the upstream answers: at most four requests and three sleeps, fifteen seconds of
      sleep in all, 5.6 when no Retry-After is honoured and 9.8 when one is; it never falls out of the loop,
      and it is rejected, with nothing sent, exactly when the check finds the breaker open. */
  lemma CallBudget(c: Config, b: State, up: Upstream, now: real)
    ensures var r := Send(c, b, up, now);
            && r.requests <= 4 && |r.sleeps| <= 3
            && 0.0 <= Sum(r.sleeps) <= 15.0
            && (UsableCount(up) == 0 ==> Sum(r.sleeps) <= 5.6)
            && (UsableCount(up) == 1 ==> Sum(r.sleeps) <= 9.8)
            && r.outcome != LoopExited && r.end >= now
            && (r.outcome == Rejected <==> Looked(c, b, now).status.Open?)
            && (r.outcome == Rejected <==> r.requests == 0)
  {
    hide SendFrom;
    var looked := Looked(c, b, now);
    TotalAllowance(up);
    AllowanceIsPositive(up, 0);
    if !looked.status.Open? {
      BudgetFrom(c, looked, up, 0, now);
    }
  }

  /** Fifteen seconds are reached, so the ten-second figure in the source is not a bound. */
  lemma FifteenSecondsReached(c: Config, b: State, up: Upstream, now: real)
    requires !Looked(c, b, now).status.Open?
    requires forall k :: 0 <= k <= 3 ==> up(k).reply == Response(429, Infinite, false)
    ensures Sum(Send(c, b, up, now).sleeps) == 15.0
  {
    ThrottledFrom(c, Looked(c, b, now), up, 0, now);
  }

  lemma {:induction false} ThrottledFrom(c: Config, b: State, up: Upstream, attempt: nat, now: real)
    requires attempt <= MAX_RETRIES
    requires forall k :: 0 <= k <= 3 ==> up(k).reply == Response(429, Infinite, false)
    ensures Sum(SendFrom(c, b, up, attempt, now).sleeps) == 5.0 * (MAX_RETRIES - attempt) as real
    decreases MAX_RETRIES - attempt
  {
    hide Final;
    var a := up(attempt);
    if attempt < MAX_RETRIES {
      var next := now + a.elapsed + 5.0 + a.overshoot;
      assert Delay(a, attempt) == 5.0;
      ThrottledFrom(c, b, up, attempt + 1, next);
      var rest := SendFrom(c, b, up, attempt + 1, next);
      assert SendFrom(c, b, up, attempt, now) == Prepend(1, [5.0], rest);
      assert ([5.0] + rest.sleeps)[1..] == rest.sleeps;
    } else {
      FinalFacts(c, b, a.reply, now + a.elapsed);
    }
  }

  // ---- What a call tells the breaker ----------------------------------------------------

  /** What the end of a call adds to the breaker's history. */
  function Recorded(o: Outcome, at: real): seq<Happening> {
    if o == Returned || o == BadJson then [Success(at)]
    else if o == Unavailable || o == RateLimited then [Failure(at)]
    else []
  }

  /** The happenings a call adds to the breaker's history: the check, then what is recorded. */
  function Reported(c: Config, b: State, up: Upstream, now: real): seq<Happening> {
    var r := Send(c, b, up, now);
    [Look(now)] + Recorded(r.outcome, r.end)
  }

  lemma {:induction false} RecordsFrom(c: Config, b: State, up: Upstream, attempt: nat, now: real)
    requires attempt <= MAX_RETRIES
    ensures var r := SendFrom(c, b, up, attempt, now);
            Records(c, b, r) && r.outcome != LoopExited && r.outcome != Rejected
    decreases MAX_RETRIES - attempt
  {
    hide Final, Delay, Failed;
    var a := up(attempt);
    if Retries(a, attempt) {
      RecordsFrom(c, b, up, attempt + 1, now + a.elapsed + Delay(a, attempt) + a.overshoot);
    } else {
      FinalFacts(c, b, a.reply, now + a.elapsed);
    }
  }

  /** What some happenings, none or one of them, make of a breaker. */
  function AfterAll(c: Config, b: State, hs: seq<Happening>): State {
    if hs == [] then b else After(c, AfterAll(c, b, hs[..|hs| - 1]), hs[|hs| - 1])
  }

  lemma RecordedIsAfter(c: Config, b: State, s: Sent)
    requires Records(c, b, s)
    ensures s.breaker == AfterAll(c, b, Recorded(s.outcome, s.end))
  {
    hide Failed;
    assert forall h: Happening :: [h][..0] == [];
  }

  /** A call changes the breaker by exactly one check and then one outcome, recorded at the moment the call
      ends; a rejected call and a 404 record none. */
  lemma CallIsHistory(c: Config, hs: seq<Happening>, up: Upstream, now: real)
    ensures var b := Replay(c, hs);
            Send(c, b, up, now).breaker == Replay(c, hs + Reported(c, b, up, now))
  {
    hide SendFrom, Failed, Looked, Replay, Recorded, AfterAll, Records;
    var b := Replay(c, hs);
    var looked := Looked(c, b, now);
    var r := Send(c, b, up, now);
    ReplaySnoc(c, hs, Look(now));
    if looked.status.Open? {
      NothingRecorded(c, looked, now);
    } else {
      RecordsFrom(c, looked, up, 0, now);
      RecordedIsAfter(c, looked, r);
    }
    var added := Recorded(r.outcome, r.end);
    ReplayAppend(c, hs + [Look(now)], added);
    assert hs + ([Look(now)] + added) == hs + [Look(now)] + added;
  }

  lemma NothingRecorded(c: Config, b: State, at: real)
    ensures AfterAll(c, b, Recorded(Rejected, at)) == b
  {
  }

  lemma {:induction false} ReplayAppend(c: Config, hs: seq<Happening>, added: seq<Happening>)
    ensures Replay(c, hs + added) == AfterAll(c, Replay(c, hs), added)
  {
    hide After;
    if added == [] {
      assert hs + added == hs;
    } else {
      var n := |added| - 1;
      ReplayAppend(c, hs, added[..n]);
      assert (hs + added)[..|hs| + n] == hs + added[..n];
    }
  }

  lemma ReplaySnoc(c: Config, hs: seq<Happening>, h: Happening)
    ensures Replay(c, hs + [h]) == After(c, Replay(c, hs), h)
  {
    hide After;
    assert (hs + [h])[..|hs|] == hs;
  }

  // ---- Sessions of sequential calls -----------------------------------------------------

  /** A call made `gap` after the previous one ended. */
  datatype Call = Call(gap: Duration, up: Upstream)

  /** The results of a run of calls, one after another. */
  function Session(c: Config, b: State, now: real, calls: seq<Call>): seq<Sent>
    decreases calls
  {
    if calls == [] then []
    else
      var r := Send(c, b, calls[0].up, now + calls[0].gap);
      [r] + Session(c, r.breaker, r.end, calls[1..])
  }

  function TotalGap(calls: seq<Call>): real {
    if calls == [] then 0.0 else calls[0].gap + TotalGap(calls[1..])
  }

  lemma {:induction false} TotalGapIsPositive(calls: seq<Call>)
    ensures TotalGap(calls) >= 0.0
  {
    if calls != [] {
      TotalGapIsPositive(calls[1..]);
    }
  }

  /** After opening at T, every one of any number of calls whose checks fall within the recovery time is
      rejected without a request, and the breaker does not move. */
  lemma {:induction false} OpenBreakerBlocksAll(c: Config, b: State, now: real, calls: seq<Call>)
    requires b.status == Open && b.openedAt.Some?
    requires now + TotalGap(calls) <= b.openedAt.value + c.recovery
    ensures var rs := Session(c, b, now, calls);
            |rs| == |calls| &&
            forall k :: 0 <= k < |rs| ==> rs[k].outcome == Rejected && rs[k].requests == 0 && rs[k].breaker == b
    decreases calls
  {
    if calls != [] {
      TotalGapIsPositive(calls[1..]);
      var t := now + calls[0].gap;
      assert Looked(c, b, t) == b;
      assert Send(c, b, calls[0].up, t) == Sent(b, Rejected, 0, [], t);
      OpenBreakerBlocksAll(c, b, t, calls[1..]);
    }
  }

  /** A call checked after the recovery time gets through, and what it meets decides the breaker: success
      clears it, a 404 leaves it half-open, and a counted failure reopens it exactly when the window still
      holds threshold - 1 earlier failures. */
  lemma ProbeAfterRecovery(c: Config, b: State, up: Upstream, now: real)
    requires b.status == Open && b.openedAt.Some? && now > b.openedAt.value + c.recovery
    ensures var r := Send(c, b, up, now);
            && r.requests >= 1 && r.outcome != Rejected
            && (r.outcome == Returned || r.outcome == BadJson ==> r.breaker == FRESH)
            && (r.outcome == NotImplemented ==> r.breaker == b.(status := HalfOpen))
            && (r.outcome == Unavailable || r.outcome == RateLimited ==>
                 (r.breaker.status == Open <==> |Recent(b.failures, r.end, c.window)| + 1 >= c.threshold)
                 && (r.breaker.status != Open ==> r.breaker.status == HalfOpen))
  {
    hide SendFrom;
    var looked := Looked(c, b, now);
    assert looked == b.(status := HalfOpen);
    CallBudget(c, b, up, now);
    RecordsFrom(c, looked, up, 0, now);
  }

  /** The documentation promises a single test request in the half-open state. In fact the call after a probe is
      kept out exactly when the probe failed, its failure filled the window, and the recovery time has not passed
      again. */
  lemma SecondProbeBlockedIff(c: Config, b: State, up: Upstream, now: real, next: Call)
    requires b.status == Open && b.openedAt.Some? && now > b.openedAt.value + c.recovery
    ensures var r := Send(c, b, up, now);
            Send(c, r.breaker, next.up, r.end + next.gap).outcome == Rejected <==>
            (r.outcome == Unavailable || r.outcome == RateLimited)
            && |Recent(b.failures, r.end, c.window)| + 1 >= c.threshold && next.gap <= c.recovery
  {
    hide SendFrom;
    var r := Send(c, b, up, now);
    var looked := Looked(c, b, now);
    assert looked == b.(status := HalfOpen);
    RecordsFrom(c, looked, up, 0, now);
    CallBudget(c, r.breaker, next.up, r.end + next.gap);
  }

  /** The calls of a session all get a first answer of 404. */
  ghost predicate AllNotFound(calls: seq<Call>) {
    forall k :: 0 <= k < |calls| ==>
      var r := calls[k].up(0).reply; r.Response? && r.status == 404
  }

  /** A probe answered 404 leaves the breaker half-open, so any number of calls answered so all go out, however soon
      they follow. */
  lemma {:induction false} NotFoundProbesAllGoOut(c: Config, b: State, now: real, calls: seq<Call>)
    requires b.status == HalfOpen && AllNotFound(calls)
    ensures var rs := Session(c, b, now, calls);
            |rs| == |calls| &&
            forall k :: 0 <= k < |rs| ==> rs[k].outcome == NotImplemented && rs[k].requests == 1 && rs[k].breaker == b
    decreases calls
  {
    if calls != [] {
      var t := now + calls[0].gap;
      assert Send(c, b, calls[0].up, t) == Sent(b, NotImplemented, 1, [], t + calls[0].up(0).elapsed);
      NotFoundProbesAllGoOut(c, b, t + calls[0].up(0).elapsed, calls[1..]);
    }
  }

  /** A single 404 after the recovery time, and the next call is not rejected either. */
  lemma NotFoundProbe(c: Config, b: State, up: Upstream, now: real, next: Call)
    requires b.status == Open && b.openedAt.Some? && now > b.openedAt.value + c.recovery
    requires up(0).reply == Response(404, Missing, false)
    ensures var r := Send(c, b, up, now);
            r.breaker.status == HalfOpen && Send(c, r.breaker, next.up, r.end + next.gap).outcome != Rejected
  {
    var r := Send(c, b, up, now);
    assert r == Sent(b.(status := HalfOpen), NotImplemented, 1, [], now + up(0).elapsed);
    hide SendFrom;
    SecondProbeBlockedIff(c, b, up, now, next);
  }

  /** An upstream that drops the connection at once. */
  function Down(): Upstream {
    (_: nat) => Attempt(NoReply, 0.0, 0.0, 0.0)
  }

  lemma DownFails(c: Config, b: State, now: real)
    requires !Looked(c, b, now).status.Open?
    ensures Send(c, b, Down(), now) == Sent(Failed(c, Looked(c, b, now), now), Unavailable, 1, [], now)
  {
  }

  lemma RecentOfThree(x: real, y: real, z: real, now: real, window: real)
    ensures Recent([x], now, window) == if now - x < window then [x] else []
    ensures Recent([x, y], now, window) == Recent([x], now, window) + if now - y < window then [y] else []
    ensures Recent([x, y, z], now, window) == Recent([x, y], now, window) + if now - z < window then [z] else []
  {
    assert [x, y, z][..2] == [x, y] && [x, y][..1] == [x] && [x][..0] == [];
  }

  lemma SessionCons(c: Config, b: State, now: real, call: Call, rest: seq<Call>)
    ensures var r := Send(c, b, call.up, now + call.gap);
            Session(c, b, now, [call] + rest) == [r] + Session(c, r.breaker, r.end, rest)
  {
    hide Send;
    assert ([call] + rest)[1..] == rest;
  }

  /** A failing call with the breaker not open, and the rest of the session. */
  lemma FailingCall(c: Config, b: State, now: real, gap: Duration, rest: seq<Call>)
    requires !Looked(c, b, now + gap).status.Open?
    ensures var t := now + gap;
            var after := Failed(c, Looked(c, b, t), t);
            Session(c, b, now, [Call(gap, Down())] + rest)
              == [Sent(after, Unavailable, 1, [], t)] + Session(c, after, t, rest)
  {
    hide Send, Failed, Looked, Down;
    SessionCons(c, b, now, Call(gap, Down()), rest);
    DownFails(c, b, now + gap);
  }

  /** Four failing calls from a fresh client, at 0, 29, 58 and 89 seconds. */
  const FAILING_CALLS: seq<Call> := [Call(0.0, Down()), Call(29.0, Down()), Call(29.0, Down()), Call(31.0, Down())]

  lemma FailingSession()
    ensures Session(DEFAULTS, FRESH, 0.0, FAILING_CALLS) == [
      Sent(State([0.0], None, Closed), Unavailable, 1, [], 0.0),
      Sent(State([0.0, 29.0], None, Closed), Unavailable, 1, [], 29.0),
      Sent(State([0.0, 29.0, 58.0], Some(58.0), Open), Unavailable, 1, [], 58.0),
      Sent(State([58.0, 89.0], Some(58.0), HalfOpen), Unavailable, 1, [], 89.0)]
  {
    hide Send, Recent, Down, Session;
    var c := DEFAULTS;
    NothingRecent(0.0, 60.0);
    RecentOfThree(0.0, 29.0, 58.0, 29.0, 60.0);
    RecentOfThree(0.0, 29.0, 58.0, 58.0, 60.0);
    RecentOfThree(0.0, 29.0, 58.0, 89.0, 60.0);
    assert Failed(c, FRESH, 0.0) == State([0.0], None, Closed);
    assert Failed(c, State([0.0], None, Closed), 29.0) == State([0.0, 29.0], None, Closed);
    assert Failed(c, State([0.0, 29.0], None, Closed), 58.0) == State([0.0, 29.0, 58.0], Some(58.0), Open);
    assert Failed(c, State([0.0, 29.0, 58.0], Some(58.0), HalfOpen), 89.0) == State([58.0, 89.0], Some(58.0), HalfOpen);
    var fourth := [Call(31.0, Down())] + [];
    var third := [Call(29.0, Down())] + fourth;
    var second := [Call(29.0, Down())] + third;
    assert FAILING_CALLS == [Call(0.0, Down())] + second;
    FailingCall(c, FRESH, 0.0, 0.0, second);
    FailingCall(c, State([0.0], None, Closed), 0.0, 29.0, third);
    FailingCall(c, State([0.0, 29.0], None, Closed), 29.0, 29.0, fourth);
    FailingCall(c, State([0.0, 29.0, 58.0], Some(58.0), Open), 58.0, 31.0, []);
    NoCalls(c, State([58.0, 89.0], Some(58.0), HalfOpen), 89.0);
  }

  lemma NoCalls(c: Config, b: State, now: real)
    ensures Session(c, b, now, []) == []
  {
  }

  /** With the default settings the third of them opens the breaker and the fourth is the probe; it leaves the
      breaker half-open, so a fifth call, however soon, goes out as well. */
  lemma SecondProbeExample(next: Call)
    ensures var rs := Session(DEFAULTS, FRESH, 0.0, FAILING_CALLS);
            && |rs| == 4 && rs[2].breaker.status == Open
            && rs[3].outcome == Unavailable && rs[3].breaker.status == HalfOpen
            && Send(DEFAULTS, rs[3].breaker, next.up, rs[3].end + next.gap).outcome != Rejected
  {
    hide Send, Session;
    FailingSession();
    CallBudget(DEFAULTS, State([58.0, 89.0], Some(58.0), HalfOpen), next.up, 89.0 + next.gap);
  }

  lemma NothingRecent(now: real, window: real)
    ensures Recent([], now, window) == []
  {
  }

  /** The history a whole session adds to the breaker's. */
  function SessionHistory(c: Config, b: State, now: real, calls: seq<Call>): seq<Happening>
    decreases calls
  {
    if calls == [] then []
    else
      var t := now + calls[0].gap;
      var r := Send(c, b, calls[0].up, t);
      Reported(c, b, calls[0].up, t) + SessionHistory(c, r.breaker, r.end, calls[1..])
  }

  function FinalBreaker(c: Config, b: State, now: real, calls: seq<Call>): State
    decreases calls
  {
    if calls == [] then b
    else
      var r := Send(c, b, calls[0].up, now + calls[0].gap);
      FinalBreaker(c, r.breaker, r.end, calls[1..])
  }

  /** It is the breaker reported by the last call. */
  lemma {:induction false} FinalBreakerIsLast(c: Config, b: State, now: real, calls: seq<Call>)
    requires calls != []
    ensures var rs := Session(c, b, now, calls);
            |rs| == |calls| && FinalBreaker(c, b, now, calls) == rs[|rs| - 1].breaker
    decreases calls
  {
    hide Send;
    var r := Send(c, b, calls[0].up, now + calls[0].gap);
    if |calls| > 1 {
      FinalBreakerIsLast(c, r.breaker, r.end, calls[1..]);
    } else {
      assert Session(c, r.breaker, r.end, calls[1..]) == [];
    }
  }

  ghost predicate EndsBy(hs: seq<Happening>, t: real) {
    hs != [] ==> hs[|hs| - 1].at <= t
  }

  /** Sessions only ever drive the breaker through chronological histories that record a failure after a
      passed check, so everything proved of such histories holds of every session. */
  lemma {:induction false} SessionIsHistory(c: Config, hs: seq<Happening>, now: real, calls: seq<Call>)
    requires Chronological(hs) && EndsBy(hs, now) && Guarded(c, hs)
    ensures var all := hs + SessionHistory(c, Replay(c, hs), now, calls);
            Chronological(all) && Guarded(c, all)
            && FinalBreaker(c, Replay(c, hs), now, calls) == Replay(c, all)
    decreases calls
  {
    hide Send, Replay, Guarded, Reported, Chronological;
    var b := Replay(c, hs);
    if calls == [] {
      assert hs + [] == hs;
    } else {
      var t := now + calls[0].gap;
      var r := Send(c, b, calls[0].up, t);
      var more := Reported(c, b, calls[0].up, t);
      CallIsHistory(c, hs, calls[0].up, t);
      CallExtendsHistory(c, hs, calls[0].up, t);
      SessionIsHistory(c, hs + more, r.end, calls[1..]);
      Associative(hs, more, SessionHistory(c, r.breaker, r.end, calls[1..]));
    }
  }

  lemma Associative<T>(a: seq<T>, b: seq<T>, c: seq<T>)
    ensures (a + b) + c == a + (b + c)
  {
  }

  lemma CallExtendsHistory(c: Config, hs: seq<Happening>, up: Upstream, now: real)
    requires Chronological(hs) && EndsBy(hs, now) && Guarded(c, hs)
    ensures var b := Replay(c, hs);
            var r := Send(c, b, up, now);
            var all := hs + Reported(c, b, up, now);
            Chronological(all) && EndsBy(all, r.end) && Guarded(c, all)
  {
    hide Send, Replay, Guarded, Chronological, Looked, EndsBy, Recorded;
    var b := Replay(c, hs);
    var r := Send(c, b, up, now);
    CallBudget(c, b, up, now);
    LookKeepsGuarded(c, hs, now);
    LaterKeepsOrder(hs, Look(now));
    EndsLater(hs + [Look(now)], now, r.end);
    ReplaySnoc(c, hs, Look(now));
    RecordedFacts(r.outcome, r.end);
    ExtendWith(c, hs + [Look(now)], Recorded(r.outcome, r.end), r.end);
    Associative(hs, [Look(now)], Recorded(r.outcome, r.end));
  }

  lemma EndsLater(hs: seq<Happening>, t: real, u: real)
    requires EndsBy(hs, t) && t <= u
    ensures EndsBy(hs, u)
  {
  }

  lemma RecordedFacts(o: Outcome, at: real)
    ensures var added := Recorded(o, at);
            |added| <= 1 && (added != [] ==> added[0].at == at && o != Rejected)
  {
  }

  lemma ExtendWith(c: Config, hs: seq<Happening>, added: seq<Happening>, end: real)
    requires |added| <= 1 && (added != [] ==> added[0].at == end)
    requires Chronological(hs) && EndsBy(hs, end) && Guarded(c, hs)
    requires added != [] && added[0].Failure? ==> !Replay(c, hs).status.Open?
    ensures Chronological(hs + added) && EndsBy(hs + added, end) && Guarded(c, hs + added)
  {
    hide Chronological, Guarded, Replay, EndsBy;
    if added == [] {
      assert hs + added == hs;
    } else {
      assert added == [added[0]];
      LaterKeepsOrder(hs, added[0]);
      RecordKeepsGuarded(c, hs, added[0]);
    }
  }

  lemma LaterKeepsOrder(hs: seq<Happening>, h: Happening)
    requires Chronological(hs) && EndsBy(hs, h.at)
    ensures Chronological(hs + [h]) && EndsBy(hs + [h], h.at)
  {
    forall k | 0 <= k < |hs| ensures hs[k].at <= h.at {
      assert k < |hs| - 1 ==> hs[k].at <= hs[|hs| - 1].at;
    }
  }

  lemma LookKeepsGuarded(c: Config, hs: seq<Happening>, now: real)
    requires Guarded(c, hs)
    ensures Guarded(c, hs + [Look(now)])
  {
    RecordKeepsGuarded(c, hs, Look(now));
  }

  lemma RecordKeepsGuarded(c: Config, hs: seq<Happening>, h: Happening)
    requires Guarded(c, hs) && (h.Failure? ==> !Replay(c, hs).status.Open?)
    ensures Guarded(c, hs + [h])
  {
    hide After;
    var all := hs + [h];
    forall k | 0 <= k < |all| && all[k].Failure? ensures !Replay(c, all[..k]).status.Open? {
      if k < |hs| {
        assert all[..k] == hs[..k] && hs[k].Failure?;
      } else {
        assert all[..k] == hs;
      }
    }
  }

  /** In every session from a fresh breaker, the breaker's list is the window of the full history and its
      state is sound: an open breaker has a full window and opened at its latest failure. */
  lemma FinalBreakerIsSound(c: Config, now: real, calls: seq<Call>)
    ensures var b := FinalBreaker(c, FRESH, now, calls);
            && Sound(c, b)
            && b.failures == WindowOf(c, FailuresSinceSuccess(SessionHistory(c, FRESH, now, calls)))
  {
    hide FinalBreaker, SessionHistory;
    SessionIsHistory(c, [], now, calls);
    var hs := SessionHistory(c, FRESH, now, calls);
    assert [] + hs == hs;
    HistoriesAreSound(c, hs);
    PrunedListIsWindow(c, hs);
  }

  /** So the breaker that any call of a session leaves behind is sound, and its list is the window of the failures
      of the calls up to it. */
  lemma SessionsAreSound(c: Config, now: real, calls: seq<Call>, k: nat)
    requires k < |calls|
    ensures var rs := Session(c, FRESH, now, calls);
            && |rs| == |calls|
            && Sound(c, rs[k].breaker)
            && rs[k].breaker.failures
                 == WindowOf(c, FailuresSinceSuccess(SessionHistory(c, FRESH, now, calls[..k + 1])))
  {
    hide Send, FinalBreaker, SessionHistory, Session, Replay, WindowOf, FailuresSinceSuccess, Sound;
    SessionPrefix(c, FRESH, now, calls, k + 1);
    FinalBreakerIsLast(c, FRESH, now, calls[..k + 1]);
    FinalBreakerIsSound(c, now, calls[..k + 1]);
  }

  lemma {:induction false} SessionPrefix(c: Config, b: State, now: real, calls: seq<Call>, n: nat)
    requires n <= |calls|
    ensures var rs := Session(c, b, now, calls);
            |rs| == |calls| && Session(c, b, now, calls[..n]) == rs[..n]
    decreases calls
  {
    hide Send;
    if calls != [] {
      var r := Send(c, b, calls[0].up, now + calls[0].gap);
      SessionPrefix(c, r.breaker, r.end, calls[1..], if n == 0 then 0 else n - 1);
      if n > 0 {
        assert calls[..n][0] == calls[0] && calls[..n][1..] == calls[1..][..n - 1];
      }
    }
  }
}
