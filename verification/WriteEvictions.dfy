/** What evicting a session's lock can do to the order of its chunks: exactly when a child exit can be
    followed by a chunk of one call between two of another. */
module WriteEvictions {
  import opened Wrappers
  import opened Chunks
  import opened WriteLocks
  import opened WriteRuns

  /** A call of s that took a lock, whichever, and still has a chunk to send: queued for the lock,
      holding it, or waiting for an acknowledgement that is not its last. */
  predicate Unsent(w: Writer, s: Session) {
    w.session == s && w.pc != Starting && !w.pc.Done? && w.sent < |w.chunks|
  }

  predicate SomeUnsent(st: State, s: Session) {
    exists c :: c in st.desk.calls && Unsent(st.desk.calls[c], s)
  }

  /** A chunk of one call of s between two of another, the last of the three at or after `from`. */
  predicate BetweenAt(wire: seq<Sent>, s: Session, from: nat, i: nat, j: nat, k: nat) {
    && i < j < k < |wire| && from <= k
    && wire[i].session == wire[j].session == wire[k].session == s
    && wire[i].call == wire[k].call != wire[j].call
  }

  ghost predicate NoExitOf(acts: seq<Action>, s: Session) {
    forall i :: 0 <= i < |acts| ==> acts[i] != ChildExited(s)
  }

  /** Some run after the eviction, up to the session's next one, interleaves two calls of s. */
  ghost predicate CanInterleave(st: State, s: Session) {
    exists more, i: nat, j: nat, k: nat :: InterleavesBy(st, s, more, i, j, k)
  }

  ghost predicate InterleavesBy(st: State, s: Session, more: seq<Action>, i: nat, j: nat, k: nat) {
    var evicted := Apply(st, ChildExited(s));
    NoExitOf(more, s) && IsRun(evicted, more) && BetweenAt(Exec(evicted, more).desk.wire, s, |st.desk.wire|, i, j, k)
  }

  // ---- An unsent chunk is enough ----

  ghost predicate Reaches(st: State, acts: seq<Action>, t: State) { IsRun(st, acts) && Exec(st, acts) == t }

  lemma Extend(st: State, acts: seq<Action>, t: State, x: Action, s: Session)
    requires Reaches(st, acts, t) && Enabled(t, x) && NoExitOf(acts, s) && x != ChildExited(s)
    ensures Reaches(st, acts + [x], Apply(t, x)) && NoExitOf(acts + [x], s)
  {
    ThenOne(st, acts, x);
  }

  lemma ReachedInv(st: State, acts: seq<Action>, t: State)
    requires Inv(st) && Reaches(st, acts, t)
    ensures Inv(t)
  {
    RunKeepsInv(st, acts);
  }

  /** A number above all of these. */
  lemma {:induction false} Above(cs: set<Call>) returns (n: Call)
    ensures forall c :: c in cs ==> c < n
  {
    n := 0;
    if cs != {} {
      var c: Call :| c in cs;
      var m := Above(cs - {c});
      n := if c < m then m else c + 1;
      assert forall x :: x in cs ==> x == c || x in cs - {c};
    }
  }

  const TWO_CHUNKS: Bytes := seq(WRITE_STDIN_CHUNK + 1, _ => 0)

  lemma TwoChunks()
    ensures |BuildWriteStdinChunks(TWO_CHUNKS)| == 2
  {
    ChunksRoundTrip(TWO_CHUNKS);
    DivideAfterAdd(WRITE_STDIN_CHUNK, WRITE_STDIN_CHUNK);
    DivideAfterAdd(0, WRITE_STDIN_CHUNK);
  }

  lemma HeldIsMade(st: State, g: Generation)
    requires Inv(st) && g in st.desk.held
    ensures g < |st.locks.made|
  {
    assert OwnLock(st.locks.made, st.desk.calls[st.desk.held[g]]);
  }

  /** A fresh call d of the evicted session that has sent the first of its two chunks. */
  predicate HalfSent(t: State, d: Call, s: Session) {
    At(t.desk, d, Awaiting) && More(t.desk, d) && t.desk.calls[d].session == s && t.desk.calls[d].sent == 1
  }

  predicate SameElsewhere(a: State, b: State, d: Call) {
    forall c :: c in a.desk.calls && c != d ==> c in b.desk.calls && b.desk.calls[c] == a.desk.calls[c]
  }

  /** After an eviction a new call of the session gets a lock of its own. */
  lemma FreshHolder(st: State, s: Session, d: Call) returns (acts: seq<Action>, t: State)
    requires Inv(st) && s !in st.locks.table && d !in st.desk.calls
    ensures Reaches(st, acts, t) && NoExitOf(acts, s)
    ensures At(t.desk, d, Holding)
    ensures t.desk.calls[d] == Writer(s, TWO_CHUNKS, BuildWriteStdinChunks(TWO_CHUNKS), |st.locks.made|, 0, Holding)
    ensures SameElsewhere(st, t, d) && t.desk.wire == st.desk.wire
  {
    if |st.locks.made| in st.desk.held { HeldIsMade(st, |st.locks.made|); }
    acts, t := [], st;
    Extend(st, acts, t, Start(d, s, TWO_CHUNKS), s);
    acts, t := acts + [Start(d, s, TWO_CHUNKS)], Apply(t, Start(d, s, TWO_CHUNKS));
    Extend(st, acts, t, TakeLock(d), s);
    acts, t := acts + [TakeLock(d)], Apply(t, TakeLock(d));
    Extend(st, acts, t, Acquired(d), s);
    acts, t := acts + [Acquired(d)], Apply(t, Acquired(d));
  }

  lemma FreshWriter(st: State, s: Session, d: Call) returns (acts: seq<Action>, t: State)
    requires Inv(st) && s !in st.locks.table && d !in st.desk.calls
    ensures Reaches(st, acts, t) && NoExitOf(acts, s)
    ensures HalfSent(t, d, s) && t.desk.calls[d].lock == |st.locks.made| && SameElsewhere(st, t, d)
    ensures |t.desk.wire| == |st.desk.wire| + 1 && st.desk.wire <= t.desk.wire
    ensures Last(t.desk.wire).session == s && Last(t.desk.wire).call == d
  {
    TwoChunks();
    acts, t := FreshHolder(st, s, d);
    Extend(st, acts, t, Push(d), s);
    acts, t := acts + [Push(d)], Apply(t, Push(d));
  }

  /** Whoever holds a lock can be made to let go of it without sending. */
  lemma LetGo(st: State, h: Call, s: Session) returns (x: Action)
    requires Inv(st) && h in st.desk.calls && Active(st.desk.calls[h].pc)
    ensures x != ChildExited(s) && Enabled(st, x)
    ensures var t := Apply(st, x);
            && t.desk.wire == st.desk.wire && SameElsewhere(st, t, h)
            && st.desk.calls[h].lock !in t.desk.held
  {
    assert HoldersOk(st.desk);
    x := if st.desk.calls[h].pc == Awaiting || More(st.desk, h) then Refuse(h) else Complete(h);
  }

  /** A call with an unsent chunk can be brought to hold its lock, without anything being sent. */
  lemma BringToHold(st: State, c: Call, d: Call, s: Session) returns (acts: seq<Action>, t: State)
    requires Inv(st) && c in st.desk.calls && Unsent(st.desk.calls[c], s)
    requires d in st.desk.calls && d != c && st.desk.calls[d].lock != st.desk.calls[c].lock
    ensures Reaches(st, acts, t) && NoExitOf(acts, s)
    ensures At(t.desk, c, Holding) && More(t.desk, c) && t.desk.calls[c].session == s
    ensures d in t.desk.calls && t.desk.calls[d] == st.desk.calls[d] && t.desk.wire == st.desk.wire
  {
    acts, t := [], st;
    if st.desk.calls[c].pc == Awaiting {
      Extend(st, acts, t, Ack(c), s);
      acts, t := acts + [Ack(c)], Apply(t, Ack(c));
    } else if st.desk.calls[c].pc == Queued {
      var g := st.desk.calls[c].lock;
      if g in st.desk.held {
        var h := st.desk.held[g];
        assert HoldersOk(st.desk);
        var x := LetGo(st, h, s);
        Extend(st, acts, t, x, s);
        acts, t := acts + [x], Apply(t, x);
      }
      Extend(st, acts, t, Acquired(c), s);
      acts, t := acts + [Acquired(c)], Apply(t, Acquired(c));
    }
  }

  /** Then c sends between d's two chunks. */
  lemma SendBetween(st: State, c: Call, d: Call, s: Session) returns (acts: seq<Action>, t: State)
    requires At(st.desk, c, Holding) && More(st.desk, c) && st.desk.calls[c].session == s
    requires d != c && HalfSent(st, d, s)
    ensures Reaches(st, acts, t) && NoExitOf(acts, s)
    ensures |t.desk.wire| == |st.desk.wire| + 2 && st.desk.wire <= t.desk.wire
    ensures t.desk.wire[|st.desk.wire|].session == s && t.desk.wire[|st.desk.wire|].call == c
    ensures Last(t.desk.wire).session == s && Last(t.desk.wire).call == d
  {
    acts, t := [], st;
    Extend(st, acts, t, Push(c), s);
    acts, t := acts + [Push(c)], Apply(t, Push(c));
    Extend(st, acts, t, Ack(d), s);
    acts, t := acts + [Ack(d)], Apply(t, Ack(d));
    Extend(st, acts, t, Push(d), s);
    acts, t := acts + [Push(d)], Apply(t, Push(d));
  }

  lemma Chain(st: State, a: seq<Action>, t: State, b: seq<Action>, u: State, s: Session)
    requires Reaches(st, a, t) && Reaches(t, b, u) && NoExitOf(a, s) && NoExitOf(b, s)
    ensures Reaches(st, a + b, u) && NoExitOf(a + b, s)
  {
    RunInTwo(st, a, b);
  }

  lemma ThreeInARow(before: seq<Sent>, one: seq<Sent>, three: seq<Sent>, s: Session, c: Call, d: Call)
    requires c != d && |one| == |before| + 1 && one <= three && |three| == |one| + 2
    requires Last(one).session == three[|one|].session == Last(three).session == s
    requires Last(one).call == Last(three).call == d && three[|one|].call == c
    ensures BetweenAt(three, s, |before|, |before|, |before| + 1, |before| + 2)
  {
    assert three[|before|] == one[|before|] == Last(one);
  }

  lemma LockIsMade(st: State, c: Call)
    requires Inv(st) && c in st.desk.calls && st.desk.calls[c].pc != Starting
    ensures st.desk.calls[c].lock < |st.locks.made|
  {
    assert OwnLock(st.locks.made, st.desk.calls[c]);
  }

  /** In the evicted state: d has sent its first chunk, and c holds its lock with one to send. */
  lemma ChunkThenHold(st: State, s: Session, c: Call, d: Call) returns (acts: seq<Action>, t: State)
    requires Inv(st) && s !in st.locks.table && d !in st.desk.calls
    requires c in st.desk.calls && Unsent(st.desk.calls[c], s)
    ensures Reaches(st, acts, t) && NoExitOf(acts, s)
    ensures At(t.desk, c, Holding) && More(t.desk, c) && t.desk.calls[c].session == s && HalfSent(t, d, s)
    ensures |t.desk.wire| == |st.desk.wire| + 1 && st.desk.wire <= t.desk.wire
    ensures Last(t.desk.wire).session == s && Last(t.desk.wire).call == d
  {
    LockIsMade(st, c);
    var a1, t1 := FreshWriter(st, s, d);
    ReachedInv(st, a1, t1);
    var a2, t2 := BringToHold(t1, c, d, s);
    Chain(st, a1, t1, a2, t2, s);
    acts, t := a1 + a2, t2;
  }

  lemma FromEvicted(st: State, s: Session, c: Call, d: Call)
    requires Inv(Apply(st, ChildExited(s))) && d !in st.desk.calls
    requires c in st.desk.calls && Unsent(st.desk.calls[c], s)
    ensures CanInterleave(st, s)
  {
    var evicted := Apply(st, ChildExited(s));
    var a, t := ChunkThenHold(evicted, s, c, d);
    var b, u := SendBetween(t, c, d, s);
    Chain(evicted, a, t, b, u, s);
    var n := |st.desk.wire|;
    ThreeInARow(st.desk.wire, t.desk.wire, u.desk.wire, s, c, d);
    assert InterleavesBy(st, s, a + b, n, n + 1, n + 2);
  }

  /** Whatever its call is waiting for, an unsent chunk can end up between two chunks of a call that
      starts after the eviction. */
  lemma EvictionInterleaves(st: State, s: Session, c: Call)
    requires Inv(st) && c in st.desk.calls && Unsent(st.desk.calls[c], s)
    ensures CanInterleave(st, s)
  {
    StepKeepsInv(st, ChildExited(s));
    var d := Above(st.desk.calls.Keys);
    FromEvicted(st, s, c, d);
  }

  /** Such a state occurs: a paste of a byte more than a chunk, its first chunk acknowledged. */
  lemma MidListHappens() returns (st: State)
    ensures Reachable(st) && SomeUnsent(st, 7) && |st.desk.wire| == 1
  {
    InitialInv();
    var acts, t := FreshWriter(INITIAL, 7, 0);
    assert Unsent(t.desk.calls[0], 7);
    st := t;
  }

  // ---- Nothing less is ----

  /** What holds until the next eviction of s, if none of its calls had a chunk to send at this one:
      those that have one now, and all frames of s since, are under the one lock made since. */
  ghost predicate OneLockSince(t: State, s: Session, base: seq<Sent>, made: nat) {
    && base <= t.desk.wire && made <= |t.locks.made|
    && (s in t.locks.table ==> t.locks.table[s] >= made)
    && (forall i :: 0 <= i < |base| ==> t.desk.wire[i].lock < made)
    && (forall c :: c in t.desk.calls && Unsent(t.desk.calls[c], s) ==> UsesCurrent(t.locks, s, t.desk.calls[c].lock))
    && (forall i :: |base| <= i < |t.desk.wire| && t.desk.wire[i].session == s ==>
          UsesCurrent(t.locks, s, t.desk.wire[i].lock))
  }

  predicate UsesCurrent(l: Locks, s: Session, g: Generation) { s in l.table && l.table[s] == g }

  lemma CurrentStays(st: State, a: Action, s: Session)
    requires Enabled(st, a) && a != ChildExited(s)
    ensures s in st.locks.table ==>
              s in Apply(st, a).locks.table && Apply(st, a).locks.table[s] == st.locks.table[s]
    ensures s !in st.locks.table && s in Apply(st, a).locks.table ==> Apply(st, a).locks.table[s] == |st.locks.made|
    ensures st.locks.made <= Apply(st, a).locks.made && st.desk.wire <= Apply(st, a).desk.wire
  {
  }

  lemma UnsentOnCurrent(st: State, a: Action, s: Session, base: seq<Sent>, made: nat, c: Call)
    requires OneLockSince(st, s, base, made) && Enabled(st, a) && a != ChildExited(s)
    requires c in Apply(st, a).desk.calls && Unsent(Apply(st, a).desk.calls[c], s)
    ensures UsesCurrent(Apply(st, a).locks, s, Apply(st, a).desk.calls[c].lock)
  {
    CurrentStays(st, a, s);
  }

  lemma FrameOnCurrent(st: State, a: Action, s: Session, base: seq<Sent>, made: nat, i: nat)
    requires OneLockSince(st, s, base, made) && Enabled(st, a) && a != ChildExited(s)
    requires |base| <= i < |Apply(st, a).desk.wire| && Apply(st, a).desk.wire[i].session == s
    ensures UsesCurrent(Apply(st, a).locks, s, Apply(st, a).desk.wire[i].lock)
  {
    CurrentStays(st, a, s);
  }

  lemma StepKeepsOneLock(st: State, a: Action, s: Session, base: seq<Sent>, made: nat)
    requires OneLockSince(st, s, base, made) && Enabled(st, a) && a != ChildExited(s)
    ensures OneLockSince(Apply(st, a), s, base, made)
  {
    var t := Apply(st, a);
    CurrentStays(st, a, s);
    forall c | c in t.desk.calls && Unsent(t.desk.calls[c], s) ensures UsesCurrent(t.locks, s, t.desk.calls[c].lock) {
      UnsentOnCurrent(st, a, s, base, made, c);
    }
    forall i | |base| <= i < |t.desk.wire| && t.desk.wire[i].session == s
      ensures UsesCurrent(t.locks, s, t.desk.wire[i].lock)
    {
      FrameOnCurrent(st, a, s, base, made, i);
    }
  }

  lemma {:induction false} RunKeepsOneLock(st: State, acts: seq<Action>, s: Session, base: seq<Sent>, made: nat)
    requires Inv(st) && OneLockSince(st, s, base, made) && IsRun(st, acts) && NoExitOf(acts, s)
    ensures Inv(Exec(st, acts)) && OneLockSince(Exec(st, acts), s, base, made)
    decreases |acts|
  {
    if acts != [] {
      StepKeepsInv(st, acts[0]);
      StepKeepsOneLock(st, acts[0], s, base, made);
      assert forall i :: 0 <= i < |acts[1..]| ==> acts[1..][i] == acts[i + 1];
      RunKeepsOneLock(Apply(st, acts[0]), acts[1..], s, base, made);
    }
  }

  lemma BetweenIsSandwich(t: State, s: Session, base: seq<Sent>, made: nat, i: nat, j: nat, k: nat)
    requires forall f :: 0 <= f < |t.desk.wire| ==> SentBy(t.desk.calls, t.desk.wire[f])
    requires OneLockSince(t, s, base, made) && BetweenAt(t.desk.wire, s, |base|, i, j, k)
    ensures SandwichAt(t.desk.wire, i, j, k)
  {
    var wire := t.desk.wire;
    assert SentBy(t.desk.calls, wire[i]) && SentBy(t.desk.calls, wire[k]);
    assert UsesCurrent(t.locks, s, wire[k].lock);
    assert wire[i].lock == wire[k].lock && |base| <= i;
    assert UsesCurrent(t.locks, s, wire[j].lock);
  }

  lemma NothingBetween(t: State, s: Session, base: seq<Sent>, made: nat, i: nat, j: nat, k: nat)
    requires Inv(t) && OneLockSince(t, s, base, made)
    ensures !BetweenAt(t.desk.wire, s, |base|, i, j, k)
  {
    if BetweenAt(t.desk.wire, s, |base|, i, j, k) { BetweenIsSandwich(t, s, base, made, i, j, k); }
  }

  lemma NoUnsentNoInterleaving(st: State, s: Session)
    requires Inv(st) && !SomeUnsent(st, s)
    ensures !CanInterleave(st, s)
  {
    var evicted := Apply(st, ChildExited(s));
    StepKeepsInv(st, ChildExited(s));
    forall i | 0 <= i < |st.desk.wire| ensures st.desk.wire[i].lock < |st.locks.made| {
      assert SentUnderOwn(st.locks.made, st.desk.wire[i]);
    }
    assert OneLockSince(evicted, s, st.desk.wire, |st.locks.made|);
    forall more, i: nat, j: nat, k: nat ensures !InterleavesBy(st, s, more, i, j, k) {
      if NoExitOf(more, s) && IsRun(evicted, more) {
        RunKeepsOneLock(evicted, more, s, st.desk.wire, |st.locks.made|);
        NothingBetween(Exec(evicted, more), s, st.desk.wire, |st.locks.made|, i, j, k);
      }
    }
  }

  /** Exactly when evicting a session's lock can cost the order of its chunks: from a reachable state
      some run up to the next eviction puts a chunk of one call between two of another if and only if
      some call that took a lock still has a chunk to send. */
  lemma EvictionInterleavesExactly(st: State, s: Session)
    requires Reachable(st)
    ensures CanInterleave(st, s) <==> SomeUnsent(st, s)
  {
    ReachableInv(st);
    if SomeUnsent(st, s) {
      var c :| c in st.desk.calls && Unsent(st.desk.calls[c], s);
      EvictionInterleaves(st, s, c);
    } else {
      NoUnsentNoInterleaving(st, s);
    }
  }

  // ---- Runs whose evictions meet no call with a chunk to send ----

  predicate QuietStep(st: State, a: Action) {
    a.ChildExited? ==> forall c :: c in st.desk.calls ==> !Unsent(st.desk.calls[c], a.s)
  }

  ghost predicate QuietRun(st: State, acts: seq<Action>)
    requires IsRun(st, acts)
    decreases |acts|
  {
    acts != [] ==> QuietStep(st, acts[0]) && QuietRun(Apply(st, acts[0]), acts[1..])
  }

  predicate OnCurrent(table: map<Session, Generation>, w: Writer) {
    Unsent(w, w.session) ==> w.session in table && table[w.session] == w.lock
  }

  ghost predicate Newest(l: Locks) {
    forall s, g :: s in l.table && 0 <= g < |l.made| && l.made[g] == s ==> g <= l.table[s]
  }

  ghost predicate InGenerationOrder(wire: seq<Sent>) {
    forall i, j :: 0 <= i < j < |wire| && wire[i].session == wire[j].session ==> wire[i].lock <= wire[j].lock
  }

  ghost predicate Settled(st: State) {
    && Newest(st.locks)
    && (forall c :: c in st.desk.calls ==> OnCurrent(st.locks.table, st.desk.calls[c]))
    && InGenerationOrder(st.desk.wire)
  }

  lemma StepKeepsOrder(st: State, a: Action)
    requires Linked(st) && Settled(st) && Enabled(st, a)
    ensures InGenerationOrder(Apply(st, a).desk.wire)
  {
  }

  lemma StepKeepsCurrent(st: State, a: Action, c: Call)
    requires Settled(st) && Enabled(st, a) && QuietStep(st, a)
    requires c in Apply(st, a).desk.calls
    ensures OnCurrent(Apply(st, a).locks.table, Apply(st, a).desk.calls[c])
  {
  }

  lemma QuietStepKeeps(st: State, a: Action)
    requires Inv(st) && Settled(st) && Enabled(st, a) && QuietStep(st, a)
    ensures Settled(Apply(st, a))
  {
    StepKeepsOrder(st, a);
    forall c | c in Apply(st, a).desk.calls ensures OnCurrent(Apply(st, a).locks.table, Apply(st, a).desk.calls[c]) {
      StepKeepsCurrent(st, a, c);
    }
  }

  lemma {:induction false} QuietRunKeeps(st: State, acts: seq<Action>)
    requires Inv(st) && Settled(st) && IsRun(st, acts) && QuietRun(st, acts)
    ensures Inv(Exec(st, acts)) && Settled(Exec(st, acts))
    decreases |acts|
  {
    if acts != [] {
      StepKeepsInv(st, acts[0]);
      QuietStepKeeps(st, acts[0]);
      QuietRunKeeps(Apply(st, acts[0]), acts[1..]);
    }
  }

  /** The frames of one session. */
  function OfSession(wire: seq<Sent>, s: Session): seq<Sent> {
    if wire == [] then []
    else OfSession(wire[..|wire| - 1], s) + (if Last(wire).session == s then [Last(wire)] else [])
  }

  /** The same frames taken lock after lock, oldest first. */
  function LockByLock(wire: seq<Sent>, made: seq<Session>, s: Session): seq<Sent> {
    if made == [] then []
    else LockByLock(wire, made[..|made| - 1], s) + (if Last(made) == s then Under(wire, |made| - 1) else [])
  }

  lemma {:induction false} NothingUnder(wire: seq<Sent>, g: Generation)
    requires forall i :: 0 <= i < |wire| ==> wire[i].lock != g
    ensures Under(wire, g) == []
  {
    if wire != [] { NothingUnder(wire[..|wire| - 1], g); }
  }

  lemma {:induction false} NothingSent(made: seq<Session>, s: Session)
    ensures LockByLock([], made, s) == []
  {
    if made != [] { NothingSent(made[..|made| - 1], s); }
  }

  /** One more frame f, sent under the newest lock its session has used, goes to the end. */
  lemma {:induction false} OneMoreFrame(wire: seq<Sent>, f: Sent, made: seq<Session>, s: Session)
    requires forall i :: 0 <= i < |wire| && wire[i].session == f.session ==> wire[i].lock <= f.lock
    requires forall i :: 0 <= i < |wire| && wire[i].lock < |made| ==> made[wire[i].lock] == wire[i].session
    requires f.lock < |made| ==> made[f.lock] == f.session
    ensures LockByLock(wire + [f], made, s)
         == LockByLock(wire, made, s) + (if f.session == s && f.lock < |made| then [f] else [])
  {
    if made != [] {
      var n := |made| - 1;
      OneMoreFrame(wire, f, made[..n], s);
      assert (wire + [f])[..|wire|] == wire;
      if Last(made) == s && f.session == s && f.lock < n {
        NothingUnder(wire, n);
      }
    }
  }

  lemma {:induction false} OneLockAfterAnother(wire: seq<Sent>, made: seq<Session>, s: Session)
    requires InGenerationOrder(wire)
    requires forall i :: 0 <= i < |wire| ==> SentUnderOwn(made, wire[i])
    ensures OfSession(wire, s) == LockByLock(wire, made, s)
  {
    if wire == [] {
      NothingSent(made, s);
    } else {
      var init, f := wire[..|wire| - 1], Last(wire);
      assert init + [f] == wire;
      assert SentUnderOwn(made, wire[|wire| - 1]);
      forall i | 0 <= i < |init| ensures SentUnderOwn(made, init[i]) { assert SentUnderOwn(made, wire[i]); }
      OneLockAfterAnother(init, made, s);
      OneMoreFrame(init, f, made, s);
    }
  }

  /** If no eviction met a call of its session with a chunk to send, all frames of a session, over
      every lock it ever had, are those of its locks one after another, hence whole lists one after
      another; and a call with chunks still to send is on the current lock. */
  lemma QuietEvictionsKeepLists(acts: seq<Action>, s: Session)
    requires IsRun(INITIAL, acts) && QuietRun(INITIAL, acts)
    ensures var st := Exec(INITIAL, acts);
            && OfSession(st.desk.wire, s) == LockByLock(st.desk.wire, st.locks.made, s)
            && (forall g :: Under(st.desk.wire, g) == Concatenated(Order(st.desk, g), st.desk.calls))
            && (forall c :: c in st.desk.calls && Unsent(st.desk.calls[c], s) ==>
                  s in st.locks.table && st.locks.table[s] == st.desk.calls[c].lock)
  {
    InitialInv();
    QuietRunKeeps(INITIAL, acts);
    var st := Exec(INITIAL, acts);
    OneLockAfterAnother(st.desk.wire, st.locks.made, s);
    assert WireOk(st.desk);
    assert forall c :: c in st.desk.calls ==> OnCurrent(st.locks.table, st.desk.calls[c]);
  }
}
