/** Connecting to the orchestration daemon: the handshake-failure counter, the bounded boot retry
    and the reconnect loop with capped backoff.

    One connect attempt is an oracle: `env(k)` is what attempt number `k` meets.  The source keeps
    a running count of transient failures; the specification below never counts, it looks at
    windows of the outcome stream. */
module Retry {
  const SUSPECT_CAP: nat := 8
  const BACKOFF_START: nat := 100
  const BACKOFF_CAP: nat := 5000

  datatype Outcome =
    | Accepted(conn: nat)
    | Incompatible(min: nat, max: nat)
    | Transient
    | IoFailure

  datatype Decision = Connected(conn: nat) | Fatal(min: nat, max: nat) | Retry

  datatype ConnectResult = Ok(conn: nat) | Disconnected | IncompatibleOrchd(min: nat, max: nat)

  type Stream = nat -> Outcome

  // ---- The declarative reading of an outcome stream ----

  /** The `SUSPECT_CAP` attempts up to and including `k` were all transient failures. */
  ghost predicate TransientRun(env: Stream, k: nat) {
    k + 1 >= SUSPECT_CAP && forall j: nat :: k + 1 - SUSPECT_CAP <= j <= k ==> env(j).Transient?
  }

  ghost predicate Stops(env: Stream, k: nat) {
    env(k).Accepted? || env(k).Incompatible? || TransientRun(env, k)
  }

  ghost predicate NoStopBefore(env: Stream, k: nat) {
    forall j: nat :: j < k ==> !Stops(env, j)
  }

  /** What a retry loop must answer when attempt `k` ends it; an escalated run has the 0,0 range. */
  function Verdict(o: Outcome): ConnectResult {
    match o
    case Accepted(c) => Ok(c)
    case Incompatible(lo, hi) => IncompatibleOrchd(lo, hi)
    case _ => IncompatibleOrchd(0, 0)
  }

  ghost predicate RetrySpec(env: Stream, budget: nat, r: ConnectResult, tries: nat) {
    && 1 <= tries <= budget
    && NoStopBefore(env, tries - 1)
    && if Stops(env, tries - 1) then r == Verdict(env(tries - 1)) else tries == budget && r == Disconnected
  }

  // ---- The counter ----

  function Decide(count: nat, o: Outcome): Decision {
    match o
    case Accepted(c) => Connected(c)
    case Incompatible(lo, hi) => Fatal(lo, hi)
    case Transient => if count + 1 >= SUSPECT_CAP then Fatal(0, 0) else Retry
    case IoFailure => Retry
  }

  function Count(count: nat, o: Outcome): nat {
    match o
    case Accepted(_) => 0
    case Incompatible(_, _) => count
    case Transient => count + 1
    case IoFailure => 0
  }

  class HandshakeSuspectCounter {
    var consecutiveTransient: nat

    constructor ()
      ensures consecutiveTransient == 0
    {
      consecutiveTransient := 0;
    }

    method Classify(o: Outcome) returns (d: Decision)
      modifies this
      ensures d == Decide(old(consecutiveTransient), o)
      ensures consecutiveTransient == Count(old(consecutiveTransient), o)
      ensures o.Accepted? || o.IoFailure? ==> consecutiveTransient == 0
      ensures o.Transient? ==> consecutiveTransient == old(consecutiveTransient) + 1
      ensures forall c :: d == Connected(c) <==> o == Accepted(c)
      ensures forall lo, hi :: d == Fatal(lo, hi) <==>
                o == Incompatible(lo, hi) || (o == Transient && old(consecutiveTransient) >= 7 && lo == 0 && hi == 0)
    {
      match o {
        case Accepted(c) =>
          consecutiveTransient := 0;
          d := Connected(c);
        case Incompatible(lo, hi) =>
          d := Fatal(lo, hi);
        case Transient =>
          consecutiveTransient := consecutiveTransient + 1;
          d := if consecutiveTransient >= SUSPECT_CAP then Fatal(0, 0) else Decision.Retry;
        case IoFailure =>
          consecutiveTransient := 0;
          d := Decision.Retry;
      }
    }
  }

  /** How many transient failures stand in a row just before attempt `i`. */
  function TrailingRun(env: Stream, i: nat): nat {
    if i > 0 && env(i - 1).Transient? then 1 + TrailingRun(env, i - 1) else 0
  }

  lemma {:induction false} TrailingRunIsWindow(env: Stream, i: nat, n: nat)
    ensures TrailingRun(env, i) >= n <==> n <= i && forall j: nat :: i - n <= j < i ==> env(j).Transient?
    decreases i
  {
    if n > 0 && i > 0 && env(i - 1).Transient? {
      TrailingRunIsWindow(env, i - 1, n - 1);
    } else if n > 0 && i > 0 {
      assert i - n <= i - 1 < i && !env(i - 1).Transient?;
    }
  }

  /** With no stop so far, deciding from the counter is deciding from the window. */
  lemma CounterSeesWindow(env: Stream, i: nat)
    requires NoStopBefore(env, i)
    ensures Stops(env, i) <==> Decide(TrailingRun(env, i), env(i)) != Retry
    ensures !Stops(env, i) ==> Count(TrailingRun(env, i), env(i)) == TrailingRun(env, i + 1)
    ensures env(i).Transient? && Stops(env, i) ==> Decide(TrailingRun(env, i), env(i)) == Fatal(0, 0)
  {
    TrailingRunIsWindow(env, i + 1, SUSPECT_CAP);
    if TransientRun(env, i) { assert env(i).Transient?; }
  }

  // ---- The loops ----

  function Max(a: nat, b: nat): nat { if a >= b then a else b }

  /** `connect_at_with_retry`; `sleeps` counts the pauses between tries. */
  method ConnectAtWithRetry(env: Stream, attempts: nat) returns (r: ConnectResult, tries: nat, sleeps: nat)
    ensures RetrySpec(env, if attempts == 0 then 1 else attempts, r, tries)
    ensures sleeps == tries - 1
  {
    var counter := new HandshakeSuspectCounter();
    r, tries, sleeps := Disconnected, 0, 0;
    while tries < Max(attempts, 1)
      invariant tries <= Max(attempts, 1)
      invariant NoStopBefore(env, tries)
      invariant counter.consecutiveTransient == TrailingRun(env, tries)
      invariant r == Disconnected
      invariant sleeps == if tries < Max(attempts, 1) then tries else tries - 1
    {
      CounterSeesWindow(env, tries);
      var d := counter.Classify(env(tries));
      tries := tries + 1;
      match d {
        case Connected(c) => return Ok(c), tries, sleeps;
        case Fatal(lo, hi) => return IncompatibleOrchd(lo, hi), tries, sleeps;
        case Retry =>
          if tries < Max(attempts, 1) { sleeps := sleeps + 1; }
      }
    }
  }

  /** `connect_with_retry`: the boot entry point, whose budget is never below the cap. */
  method ConnectWithRetry(env: Stream, attempts: nat) returns (r: ConnectResult, tries: nat)
    ensures RetrySpec(env, if attempts < 8 then 8 else attempts, r, tries)
  {
    var sleeps;
    r, tries, sleeps := ConnectAtWithRetry(env, Max(attempts, SUSPECT_CAP));
  }

  function Pow2(k: nat): nat { if k == 0 then 1 else 2 * Pow2(k - 1) }

  function BackoffDelay(k: nat): nat {
    if BACKOFF_START * Pow2(k) <= BACKOFF_CAP then BACKOFF_START * Pow2(k) else BACKOFF_CAP
  }

  /** The pauses in milliseconds: doubled from a tenth of a second, and from the seventh on five seconds. */
  lemma {:induction false} BackoffDelays(k: nat)
    ensures BackoffDelay(k) == if k < 6 then [100, 200, 400, 800, 1600, 3200][k] else 5000
  {
    assert Pow2(6) == 64;
    if k > 6 { BackoffDelays(k - 1); }
  }

  /** `connect_with_backoff`.  The loop has no budget: it ends exactly because the stream holds a
      stopping attempt (see `LoopEndsExactlyOnStops` for streams that do not). */
  method ConnectWithBackoff(env: Stream) returns (r: ConnectResult, delays: seq<nat>)
    requires exists k: nat :: Stops(env, k)
    ensures NoStopBefore(env, |delays|) && Stops(env, |delays|)
    ensures r == Verdict(env(|delays|))
    ensures forall k :: 0 <= k < |delays| ==> delays[k] == BackoffDelay(k)
  {
    ghost var last: nat :| Stops(env, last);
    var counter := new HandshakeSuspectCounter();
    var delay := BACKOFF_START;
    delays := [];
    while true
      invariant |delays| <= last && NoStopBefore(env, |delays|)
      invariant counter.consecutiveTransient == TrailingRun(env, |delays|)
      invariant delay == BackoffDelay(|delays|)
      invariant forall k :: 0 <= k < |delays| ==> delays[k] == BackoffDelay(k)
      decreases last - |delays|
    {
      CounterSeesWindow(env, |delays|);
      var d := counter.Classify(env(|delays|));
      match d {
        case Connected(c) => return Ok(c), delays;
        case Fatal(lo, hi) => return IncompatibleOrchd(lo, hi), delays;
        case Retry =>
          delays := delays + [delay];
          delay := if delay * 2 <= BACKOFF_CAP then delay * 2 else BACKOFF_CAP;
      }
    }
  }

  // ---- What the specification says ----

  ghost predicate EscalatesWithin(env: Stream, budget: nat) {
    exists k: nat :: k < budget && TransientRun(env, k)
                     && forall j: nat :: j <= k ==> !env(j).Accepted? && !env(j).Incompatible?
  }

  /** A genuine reply of `decided` comes within the budget and before anything else ends the loop. */
  ghost predicate DecidedWithin(env: Stream, budget: nat, o: Outcome) {
    exists k: nat :: k < budget && env(k) == o && NoStopBefore(env, k)
  }

  lemma {:induction false} FirstRun(env: Stream, k: nat) returns (first: nat)
    requires TransientRun(env, k)
    requires forall j: nat :: j <= k ==> !env(j).Accepted? && !env(j).Incompatible?
    ensures first <= k && Stops(env, first) && NoStopBefore(env, first) && env(first).Transient?
    decreases k
  {
    if j: nat :| j < k && Stops(env, j) {
      assert TransientRun(env, j);
      first := FirstRun(env, j);
    } else {
      first := k;
      assert env(k).Transient?;
    }
  }

  /** A range is answered exactly when the daemon answered that range first, lowest version and highest
      as it gave them, or it is the unknown one and eight transient failures in a row come first; a
      connection exactly when one was accepted first. */
  lemma RetryAnswers(env: Stream, budget: nat, r: ConnectResult, tries: nat, c: nat, lo: nat, hi: nat)
    requires RetrySpec(env, budget, r, tries)
    ensures r == IncompatibleOrchd(lo, hi)
            <==> DecidedWithin(env, budget, Incompatible(lo, hi))
                 || (lo == 0 && hi == 0 && EscalatesWithin(env, budget))
    ensures r == Ok(c) <==> DecidedWithin(env, budget, Accepted(c))
    ensures r == Disconnected <==> NoStopBefore(env, budget)
  {
    var last := tries - 1;
    if EscalatesWithin(env, budget) {
      var k: nat :| k < budget && TransientRun(env, k)
                    && forall j: nat :: j <= k ==> !env(j).Accepted? && !env(j).Incompatible?;
      var first := FirstRun(env, k);
      assert first == last;
    }
    if Stops(env, last) && env(last).Transient? {
      forall j: nat | j <= last ensures !env(j).Accepted? && !env(j).Incompatible? {
        if j < last { assert !Stops(env, j); }
      }
      assert EscalatesWithin(env, budget);
    }
    if DecidedWithin(env, budget, Incompatible(lo, hi)) {
      var k: nat :| k < budget && env(k) == Incompatible(lo, hi) && NoStopBefore(env, k);
      assert Stops(env, k);
      assert k == last;
    }
    if DecidedWithin(env, budget, Accepted(c)) {
      var k: nat :| k < budget && env(k) == Accepted(c) && NoStopBefore(env, k);
      assert Stops(env, k);
      assert k == last;
    }
    if NoStopBefore(env, budget) { assert !Stops(env, last); }
    if r == Ok(c) { assert env(last) == Accepted(c); }
    if r == IncompatibleOrchd(lo, hi) && !env(last).Transient? && !env(last).IoFailure? {
      assert env(last) == Incompatible(lo, hi);
    }
    assert TransientRun(env, last) ==> env(last).Transient?;
  }

  /** The same of the loop without a budget, which ends at attempt k. */
  lemma BackoffAnswers(env: Stream, k: nat, r: ConnectResult, c: nat, lo: nat, hi: nat)
    requires NoStopBefore(env, k) && Stops(env, k) && r == Verdict(env(k))
    ensures r == IncompatibleOrchd(lo, hi) <==>
              (exists n: nat :: DecidedWithin(env, n, Incompatible(lo, hi)))
              || (lo == 0 && hi == 0 && exists n: nat :: EscalatesWithin(env, n))
    ensures r == Ok(c) <==> exists n: nat :: DecidedWithin(env, n, Accepted(c))
    ensures r != Disconnected
  {
    assert RetrySpec(env, k + 1, r, k + 1);
    RetryAnswers(env, k + 1, r, k + 1, c, lo, hi);
    forall n: nat
      ensures DecidedWithin(env, n, Incompatible(lo, hi)) ==> DecidedWithin(env, k + 1, Incompatible(lo, hi))
      ensures DecidedWithin(env, n, Accepted(c)) ==> DecidedWithin(env, k + 1, Accepted(c))
      ensures EscalatesWithin(env, n) ==> EscalatesWithin(env, k + 1)
    {
      StopsInTime(env, k, n);
    }
  }

  /** Nothing that would end the loop comes after what did. */
  lemma StopsInTime(env: Stream, k: nat, n: nat)
    requires NoStopBefore(env, k) && Stops(env, k)
    ensures forall o: Outcome :: (o.Accepted? || o.Incompatible?) && DecidedWithin(env, n, o) ==>
              DecidedWithin(env, k + 1, o)
    ensures EscalatesWithin(env, n) ==> EscalatesWithin(env, k + 1)
  {
    forall o: Outcome | (o.Accepted? || o.Incompatible?) && DecidedWithin(env, n, o)
      ensures DecidedWithin(env, k + 1, o)
    {
      var j: nat :| j < n && env(j) == o && NoStopBefore(env, j);
      assert Stops(env, j);
      assert j <= k;
    }
    if EscalatesWithin(env, n) {
      var j: nat :| j < n && TransientRun(env, j)
                    && forall i: nat :: i <= j ==> !env(i).Accepted? && !env(i).Incompatible?;
      if k < j { assert TransientRun(env, k); }
    }
  }

  /** Whatever budget the caller asks for, zero included, a daemon that only ever fails its
      handshake is reported incompatible after exactly eight tries. */
  lemma AllTransientEscalates(env: Stream, attempts: nat, r: ConnectResult, tries: nat)
    requires forall k: nat :: env(k).Transient?
    requires RetrySpec(env, if attempts < 8 then 8 else attempts, r, tries)
    ensures tries == 8 && r == IncompatibleOrchd(0, 0)
  {
    assert TransientRun(env, 7);
    assert Stops(env, 7);
  }

  /** Without the clamp the escalation would be out of reach for a budget under eight. */
  lemma SmallBudgetNeverEscalates(env: Stream, budget: nat)
    ensures EscalatesWithin(env, budget) ==> budget >= 8
  {
  }

  ghost predicate IoFailureInWindow(env: Stream, k: nat) {
    exists j: nat :: k + 1 - SUSPECT_CAP <= j <= k && env(j).IoFailure?
  }

  /** A plain connect failure inside every window of eight keeps the loop from ever escalating. */
  lemma IoFailuresNeverEscalate(env: Stream, budget: nat)
    requires forall k: nat :: k + 1 >= SUSPECT_CAP ==> IoFailureInWindow(env, k)
    ensures !EscalatesWithin(env, budget)
  {
    forall k: nat | k + 1 >= SUSPECT_CAP ensures !TransientRun(env, k) {
      assert IoFailureInWindow(env, k);
    }
  }

  // ---- Termination of the unbounded loop ----

  datatype Progress = Looping(count: nat) | Ended(d: Decision, at: nat)

  /** The backoff loop's own state after at most `n` attempts, by its counter. */
  function RunLoop(env: Stream, n: nat): Progress {
    if n == 0 then Looping(0)
    else match RunLoop(env, n - 1)
      case Ended(d, at) => Ended(d, at)
      case Looping(count) =>
        var d := Decide(count, env(n - 1));
        if d == Retry then Looping(Count(count, env(n - 1))) else Ended(d, n - 1)
  }

  /** The counting loop is still running after `n` attempts iff no success, no Incompatible and no
      eight transients in a row occurred among them; so it terminates exactly on the streams that
      contain one of these. */
  lemma {:induction false} LoopEndsExactlyOnStops(env: Stream, n: nat)
    ensures RunLoop(env, n).Looping? <==> NoStopBefore(env, n)
    ensures RunLoop(env, n).Looping? ==> RunLoop(env, n).count == TrailingRun(env, n)
    ensures RunLoop(env, n).Ended? ==> Stops(env, RunLoop(env, n).at) && NoStopBefore(env, RunLoop(env, n).at)
  {
    if n > 0 {
      LoopEndsExactlyOnStops(env, n - 1);
      if RunLoop(env, n - 1).Looping? { CounterSeesWindow(env, n - 1); }
    }
  }
}
