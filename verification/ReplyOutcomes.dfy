/** What the replies of an upstream, in plain numbers, make of a call that is sent. */
module ReplyOutcomes {
  import opened Prelude
  import opened Breaker
  import opened RetryClient

  predicate Throttled(r: Reply) {
    r.Response? && r.status == 429
  }

  /** The attempt whose reply ends the call: the first that is not a 429, the fourth at the latest. */
  function LastAttempt(up: Upstream, from: nat): nat
    decreases 3 - from
  {
    if from < 3 && Throttled(up(from).reply) then LastAttempt(up, from + 1) else from
  }

  lemma {:induction false} LastAttemptIsFirst(up: Upstream, from: nat)
    requires from <= 3
    ensures var k := LastAttempt(up, from);
            && from <= k <= 3
            && (forall j :: from <= j < k ==> Throttled(up(j).reply))
            && (k < 3 ==> !Throttled(up(k).reply))
    decreases 3 - from
  {
    if from < 3 && Throttled(up(from).reply) {
      LastAttemptIsFirst(up, from + 1);
    }
  }

  /** How a reply ends a call. */
  function OutcomeOf(r: Reply): Outcome {
    match r
    case NoReply => Unavailable
    case Response(status, _, jsonOk) =>
      if 200 <= status <= 299 then if jsonOk then Returned else BadJson
      else if status == 404 then NotImplemented
      else if status == 429 then RateLimited
      else Unavailable
  }

  /** The sleep after a throttled attempt: the seconds its header asks for, five at most, or the jitter's share of 0.8,
      1.6 and 3.2 seconds. */
  function SleepAfter(a: Attempt, attempt: nat): real
    requires a.reply.Response?
  {
    match a.reply.retryAfter
    case Infinite => 5.0
    case Seconds(s) => if s < 0.0 then Share(a.jitter, attempt) else if s > 5.0 then 5.0 else s
    case _ => Share(a.jitter, attempt)
  }

  function Share(jitter: real, attempt: nat): real {
    jitter * (if attempt == 0 then 0.8 else if attempt == 1 then 1.6 else 3.2)
  }

  lemma DelayIs(a: Attempt, attempt: nat)
    requires a.reply.Response? && attempt < 3
    ensures Delay(a, attempt) == SleepAfter(a, attempt)
  {
    BackoffCaps();
  }

  /** The sleeps of the throttled attempts from one to another. */
  function SleepsOf(up: Upstream, from: nat, k: nat): seq<real>
    requires from <= k && forall j :: from <= j < k ==> Throttled(up(j).reply)
    decreases k - from
  {
    if from == k then []
    else
      assert Throttled(up(from).reply);
      [SleepAfter(up(from), from)] + SleepsOf(up, from + 1, k)
  }

  /** The clock when the ending reply is in: every reply takes its time, every sleep too and may overshoot. */
  function ClockAt(up: Upstream, from: nat, k: nat, now: real): real
    requires from <= k && forall j :: from <= j < k ==> Throttled(up(j).reply)
    decreases k - from
  {
    if from == k then now + up(k).elapsed
    else
      assert Throttled(up(from).reply);
      ClockAt(up, from + 1, k, now + up(from).elapsed + SleepAfter(up(from), from) + up(from).overshoot)
  }

  /** The breaker after a call with that outcome ending at t. */
  function BreakerAfter(c: Config, b: State, o: Outcome, t: real): State {
    match o
    case Returned => State([], None, Closed)
    case BadJson => State([], None, Closed)
    case Unavailable => Failed(c, b, t)
    case RateLimited => Failed(c, b, t)
    case _ => b
  }

  lemma FinalIs(c: Config, b: State, r: Reply, t: real)
    ensures Final(c, b, r, t) == Sent(BreakerAfter(c, b, OutcomeOf(r), t), OutcomeOf(r), 1, [], t)
  {
    hide Failed;
  }

  lemma {:induction false} SentFromIs(c: Config, b: State, up: Upstream, attempt: nat, now: real)
    requires attempt <= 3
    ensures var k := LastAttempt(up, attempt);
            && attempt <= k <= 3 && (forall j :: attempt <= j < k ==> Throttled(up(j).reply))
            && var o, t := OutcomeOf(up(k).reply), ClockAt(up, attempt, k, now);
               SendFrom(c, b, up, attempt, now)
                 == Sent(BreakerAfter(c, b, o, t), o, k - attempt + 1, SleepsOf(up, attempt, k), t)
    decreases 3 - attempt
  {
    hide Final, Delay, SleepAfter, BreakerAfter, OutcomeOf;
    LastAttemptIsFirst(up, attempt);
    var a := up(attempt);
    if attempt < 3 && Throttled(a.reply) {
      DelayIs(a, attempt);
      SentFromIs(c, b, up, attempt + 1, now + a.elapsed + Delay(a, attempt) + a.overshoot);
    } else {
      FinalIs(c, b, a.reply, now + a.elapsed);
    }
  }

  /** A call that passes the check: the reply to its last attempt decides the outcome, 2xx being returned or bad JSON,
      404 not implemented, 429 rate-limited and anything else unavailable; and with it requests, sleeps, clock and what
      the breaker becomes. */
  lemma CallIsByReplies(c: Config, b: State, up: Upstream, now: real)
    requires !Looked(c, b, now).status.Open?
    ensures var k := LastAttempt(up, 0);
            && k <= 3 && (forall j :: 0 <= j < k ==> Throttled(up(j).reply)) && (k < 3 ==> !Throttled(up(k).reply))
            && var r, o, t := Send(c, b, up, now), OutcomeOf(up(k).reply), ClockAt(up, 0, k, now);
               && r.outcome == o && r.requests == k + 1 && r.sleeps == SleepsOf(up, 0, k) && r.end == t
               && r.breaker == BreakerAfter(c, Looked(c, b, now), o, t)
  {
    hide SendFrom, Looked, BreakerAfter, OutcomeOf, ClockAt;
    LastAttemptIsFirst(up, 0);
    SentFromIs(c, Looked(c, b, now), up, 0, now);
  }

  /** The third failure within a minute, a 503 at two seconds, opens a default breaker. */
  lemma ServerErrorOpens(up: Upstream)
    requires up(0).reply == Response(503, Missing, false) && up(0).elapsed == 0.0
    ensures Send(Config(3, 60.0, 30.0), State([0.0, 1.0], None, Closed), up, 2.0)
         == Sent(State([0.0, 1.0, 2.0], Some(2.0), Open), Unavailable, 1, [], 2.0)
  {
    RecentOfThree(0.0, 1.0, 2.0, 2.0, 60.0);
    NothingRecent(2.0, 60.0);
    hide Recent;
    assert Failed(Config(3, 60.0, 30.0), State([0.0, 1.0], None, Closed), 2.0)
        == State([0.0, 1.0, 2.0], Some(2.0), Open);
  }
}
