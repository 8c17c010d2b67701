/** Runs of any number of concurrent `write_stdin_locked` calls over any sessions, with child exits
    evicting lock entries at any moment. */
module WriteRuns {
  import opened Wrappers
  import opened Chunks
  import opened WriteLocks

  datatype State = State(locks: Locks, desk: Desk)

  const INITIAL: State := State(Locks(map[], [], [], []), Desk(map[], map[], map[], []))

  /** `Refuse` is an error from the client or from the daemon, before or after the chunk was sent. */
  datatype Action =
    | Start(c: Call, s: Session, data: Bytes)
    | TakeLock(c: Call)
    | Acquired(c: Call)
    | Push(c: Call)
    | Ack(c: Call)
    | Refuse(c: Call)
    | Complete(c: Call)
    | ChildExited(s: Session)

  predicate At(d: Desk, c: Call, pc: WriterPc) { c in d.calls && d.calls[c].pc == pc }

  predicate More(d: Desk, c: Call) { c in d.calls && d.calls[c].sent < |d.calls[c].chunks| }

  predicate Enabled(st: State, a: Action) {
    match a
    case Start(c, _, _) => c !in st.desk.calls
    case TakeLock(c) => At(st.desk, c, Starting)
    case Acquired(c) => At(st.desk, c, Queued) && st.desk.calls[c].lock !in st.desk.held
    case Push(c) => At(st.desk, c, Holding) && More(st.desk, c)
    case Ack(c) => At(st.desk, c, Awaiting)
    case Refuse(c) => At(st.desk, c, Awaiting) || (At(st.desk, c, Holding) && More(st.desk, c))
    case Complete(c) => At(st.desk, c, Holding) && !More(st.desk, c)
    case ChildExited(_) => true
  }

  function Given(st: State, c: Call): Writer
    requires c in st.desk.calls
  {
    var w := st.desk.calls[c];
    var table := LockFor(st.locks, w.session).table;
    if w.session in table then w.(lock := table[w.session], pc := Queued) else w
  }

  function Apply(st: State, a: Action): State
    requires Enabled(st, a)
  {
    var d := st.desk;
    match a
    case Start(c, s, data) =>
      st.(desk := d.(calls := d.calls[c := Writer(s, data, BuildWriteStdinChunks(data), 0, 0, Starting)]))
    case TakeLock(c) =>
      State(LockFor(st.locks, d.calls[c].session), d.(calls := d.calls[c := Given(st, c)]))
    case Acquired(c) => st.(desk := Acquire(d, c))
    case Push(c) => st.(desk := SendNext(d, c))
    case Ack(c) => st.(desk := d.(calls := d.calls[c := d.calls[c].(pc := Holding)]))
    case Refuse(c) => st.(desk := Finish(d, c, false))
    case Complete(c) => st.(desk := Finish(d, c, true))
    case ChildExited(s) => st.(locks := Evict(st.locks, s))
  }

  ghost predicate IsRun(st: State, acts: seq<Action>)
    decreases |acts|
  {
    acts != [] ==> Enabled(st, acts[0]) && IsRun(Apply(st, acts[0]), acts[1..])
  }

  ghost function Exec(st: State, acts: seq<Action>): State
    requires IsRun(st, acts)
    decreases |acts|
  {
    if acts == [] then st else Exec(Apply(st, acts[0]), acts[1..])
  }

  ghost predicate Reachable(st: State) {
    exists acts :: IsRun(INITIAL, acts) && Exec(INITIAL, acts) == st
  }

  // ---- Which lock belongs to which session ----

  ghost predicate OwnLock(made: seq<Session>, w: Writer) {
    w.pc != Starting ==> w.lock < |made| && made[w.lock] == w.session
  }

  ghost predicate SentUnderOwn(made: seq<Session>, f: Sent) {
    f.lock < |made| && made[f.lock] == f.session
  }

  ghost predicate Cut(w: Writer) { w.chunks == BuildWriteStdinChunks(w.data) }

  ghost predicate Linked(st: State) {
    && (forall c :: c in st.desk.calls ==> OwnLock(st.locks.made, st.desk.calls[c]) && Cut(st.desk.calls[c]))
    && (forall i :: 0 <= i < |st.desk.wire| ==> SentUnderOwn(st.locks.made, st.desk.wire[i]))
  }

  // ---- Which call sent what ----

  predicate SentBy(calls: map<Call, Writer>, f: Sent) {
    && f.call in calls
    && calls[f.call].session == f.session && calls[f.call].lock == f.lock && f.index < calls[f.call].sent
  }

  predicate IsDone(calls: map<Call, Writer>, c: Call) { c in calls && calls[c].pc.Done? }

  /** A frame of another call between two of one call, all under one lock. */
  predicate SandwichAt(wire: seq<Sent>, i: nat, j: nat, k: nat) {
    && i < j < k < |wire|
    && wire[i].call == wire[k].call != wire[j].call
    && wire[i].lock == wire[j].lock == wire[k].lock
  }

  /** Each frame is its call's, a call is done before another sends under the same lock, and so no
      frame comes between two of another call. */
  ghost predicate Traced(d: Desk) {
    && (forall i :: 0 <= i < |d.wire| ==> SentBy(d.calls, d.wire[i]))
    && (forall i, j :: 0 <= i < j < |d.wire| && d.wire[i].lock == d.wire[j].lock && d.wire[i].call != d.wire[j].call ==>
          IsDone(d.calls, d.wire[i].call))
    && (forall i: nat, j: nat, k: nat :: !SandwichAt(d.wire, i, j, k))
  }

  ghost predicate Inv(st: State) {
    LocksInv(st.locks) && DeskInv(st.desk) && Linked(st) && Traced(st.desk)
  }

  lemma StepKeepsDesk(st: State, a: Action)
    requires Inv(st) && Enabled(st, a)
    ensures DeskInv(Apply(st, a).desk)
  {
    match a
    case Start(c, s, data) => MoveKeeps(st.desk, c, Writer(s, data, BuildWriteStdinChunks(data), 0, 0, Starting));
    case TakeLock(c) => LockForKeeps(st.locks, st.desk.calls[c].session); TakeLockKeepsDesk(st, c);
    case Acquired(c) => AcquireKeeps(st.desk, c);
    case Push(c) => SendNextKeeps(st.desk, c);
    case Ack(c) => AckKeepsDesk(st.desk, c);
    case Refuse(c) => FinishKeeps(st.desk, c, false);
    case Complete(c) => CompleteKeepsDesk(st.desk, c);
    case ChildExited(_) =>
  }

  lemma TakeLockKeepsDesk(st: State, c: Call)
    requires Inv(st) && Enabled(st, TakeLock(c))
    ensures DeskInv(Apply(st, TakeLock(c)).desk)
  {
    MoveKeeps(st.desk, c, Given(st, c));
  }

  lemma AckKeepsDesk(d: Desk, c: Call)
    requires DeskInv(d) && At(d, c, Awaiting)
    ensures DeskInv(d.(calls := d.calls[c := d.calls[c].(pc := Holding)]))
  {
    MoveKeeps(d, c, d.calls[c].(pc := Holding));
  }

  lemma CompleteKeepsDesk(d: Desk, c: Call)
    requires DeskInv(d) && At(d, c, Holding) && !More(d, c)
    ensures DeskInv(Finish(d, c, true))
  {
    assert WriterOk(d.calls[c]);
    FinishKeeps(d, c, true);
  }

  lemma StepKeepsLocks(st: State, a: Action)
    requires Inv(st) && Enabled(st, a)
    ensures LocksInv(Apply(st, a).locks)
    ensures st.locks.made <= Apply(st, a).locks.made
  {
    match a
    case TakeLock(c) => LockForKeeps(st.locks, st.desk.calls[c].session);
    case ChildExited(s) => EvictKeeps(st.locks, s);
    case _ =>
  }

  lemma MadeOnlyGrows(st: State, a: Action)
    requires Enabled(st, a)
    ensures st.locks.made <= Apply(st, a).locks.made
  {
  }

  lemma GivenIsLinked(st: State, c: Call)
    requires LocksInv(st.locks) && Linked(st) && Enabled(st, TakeLock(c))
    ensures OwnLock(Apply(st, TakeLock(c)).locks.made, Given(st, c)) && Cut(Given(st, c))
  {
    LockForKeeps(st.locks, st.desk.calls[c].session);
    assert OwnLock(st.locks.made, st.desk.calls[c]);
  }

  lemma CallStaysLinked(st: State, a: Action, c: Call)
    requires LocksInv(st.locks) && Linked(st) && Enabled(st, a) && c in Apply(st, a).desk.calls
    ensures OwnLock(Apply(st, a).locks.made, Apply(st, a).desk.calls[c]) && Cut(Apply(st, a).desk.calls[c])
  {
    if a.TakeLock? && c == a.c {
      GivenIsLinked(st, c);
    } else {
      MadeOnlyGrows(st, a);
      assert c in st.desk.calls ==> OwnLock(st.locks.made, st.desk.calls[c]);
    }
  }

  lemma FrameStaysLinked(st: State, a: Action, i: nat)
    requires Linked(st) && Enabled(st, a) && i < |Apply(st, a).desk.wire|
    ensures SentUnderOwn(Apply(st, a).locks.made, Apply(st, a).desk.wire[i])
  {
    MadeOnlyGrows(st, a);
    if i < |st.desk.wire| { assert SentUnderOwn(st.locks.made, st.desk.wire[i]); }
  }

  lemma StepKeepsLinked(st: State, a: Action)
    requires Inv(st) && Enabled(st, a)
    ensures Linked(Apply(st, a))
  {
    var t := Apply(st, a);
    forall c | c in t.desk.calls ensures OwnLock(t.locks.made, t.desk.calls[c]) && Cut(t.desk.calls[c]) {
      CallStaysLinked(st, a, c);
    }
    forall i | 0 <= i < |t.desk.wire| ensures SentUnderOwn(t.locks.made, t.desk.wire[i]) { FrameStaysLinked(st, a, i); }
  }

  predicate SameSender(w: Writer, v: Writer) {
    && (w.sent > 0 ==> v.session == w.session && v.lock == w.lock && v.sent >= w.sent)
    && (w.pc.Done? ==> v.pc.Done?)
  }

  /** A step of a call that sends nothing. */
  lemma QuietCallTraced(d: Desk, e: Desk)
    requires Traced(d) && e.wire == d.wire
    requires forall c :: c in d.calls ==> c in e.calls && SameSender(d.calls[c], e.calls[c])
    ensures Traced(e)
  {
    forall i | 0 <= i < |e.wire| ensures SentBy(e.calls, e.wire[i]) { assert SentBy(d.calls, d.wire[i]); }
  }

  /** Whoever sent under the lock that c holds, other than c, is done. */
  lemma OthersDone(d: Desk, c: Call, i: nat)
    requires DeskInv(d) && Traced(d) && At(d, c, Holding) && i < |d.wire|
    requires d.wire[i].lock == d.calls[c].lock && d.wire[i].call != c
    ensures IsDone(d.calls, d.wire[i].call)
  {
    assert SentBy(d.calls, d.wire[i]);
    assert WriterOk(d.calls[d.wire[i].call]);
  }

  lemma PushKeepsTraced(d: Desk, c: Call)
    requires DeskInv(d) && Traced(d) && At(d, c, Holding) && More(d, c)
    ensures Traced(SendNext(d, c))
  {
    var e := SendNext(d, c);
    forall i | 0 <= i < |e.wire| ensures SentBy(e.calls, e.wire[i]) {
      if i < |d.wire| { assert SentBy(d.calls, d.wire[i]); }
    }
    forall i | 0 <= i < |d.wire| && d.wire[i].lock == d.calls[c].lock && d.wire[i].call != c
      ensures IsDone(d.calls, d.wire[i].call)
    {
      OthersDone(d, c, i);
    }
    forall i: nat, j: nat, k: nat ensures !SandwichAt(e.wire, i, j, k) {
      if k < |d.wire| { assert !SandwichAt(d.wire, i, j, k); }
    }
  }

  lemma StepKeepsTraced(st: State, a: Action)
    requires Inv(st) && Enabled(st, a)
    ensures Traced(Apply(st, a).desk)
  {
    if a.Push? {
      PushKeepsTraced(st.desk, a.c);
    } else {
      var d, e := st.desk, Apply(st, a).desk;
      forall c | c in d.calls ensures c in e.calls && SameSender(d.calls[c], e.calls[c]) {
        assert WriterOk(d.calls[c]);
      }
      QuietCallTraced(d, e);
    }
  }

  lemma StepKeepsInv(st: State, a: Action)
    requires Inv(st) && Enabled(st, a)
    ensures Inv(Apply(st, a))
  {
    StepKeepsDesk(st, a);
    StepKeepsLocks(st, a);
    StepKeepsLinked(st, a);
    StepKeepsTraced(st, a);
  }

  lemma {:induction false} RunKeepsInv(st: State, acts: seq<Action>)
    requires Inv(st) && IsRun(st, acts)
    ensures Inv(Exec(st, acts))
    decreases |acts|
  {
    if acts != [] {
      StepKeepsInv(st, acts[0]);
      RunKeepsInv(Apply(st, acts[0]), acts[1..]);
    }
  }

  lemma InitialInv()
    ensures Inv(INITIAL)
  {
  }

  lemma ReachableInv(st: State)
    requires Reachable(st)
    ensures Inv(st)
  {
    InitialInv();
    var acts :| IsRun(INITIAL, acts) && Exec(INITIAL, acts) == st;
    RunKeepsInv(INITIAL, acts);
  }

  // ---- What holds over every run ----

  ghost predicate Whole(w: Writer) { w.sent == |w.chunks| }

  /** The frames sent under one lock are, list after list, what its calls sent, in the order they
      acquired it; only a failed call or the last one may have sent less than its whole list. */
  lemma WholeListsPerLock(st: State, g: Generation)
    requires Reachable(st)
    ensures var d := st.desk;
            && Under(d.wire, g) == Concatenated(Order(d, g), d.calls)
            && (forall i, j :: 0 <= i < j < |Order(d, g)| ==> Order(d, g)[i] != Order(d, g)[j])
            && (forall i :: 0 <= i < |Order(d, g)| ==>
                  && Order(d, g)[i] in d.calls
                  && (Whole(d.calls[Order(d, g)[i]]) || d.calls[Order(d, g)[i]].pc == Done(false)
                      || (i == |Order(d, g)| - 1 && Active(d.calls[Order(d, g)[i]].pc))))
  {
    ReachableInv(st);
    assert OrderOk(st.desk, g);
    assert forall c :: c in st.desk.calls ==> WriterOk(st.desk.calls[c]);
  }

  /** The same without a notion of lists: under one lock, no frame of one call comes between two of
      another, and by then the earlier call is done. */
  lemma NothingBetweenUnderOneLock(st: State, i: nat, j: nat, k: nat)
    requires Reachable(st)
    ensures !SandwichAt(st.desk.wire, i, j, k)
    ensures (i < j < |st.desk.wire|
             && st.desk.wire[i].lock == st.desk.wire[j].lock && st.desk.wire[i].call != st.desk.wire[j].call)
            ==> IsDone(st.desk.calls, st.desk.wire[i].call)
  {
    ReachableInv(st);
  }

  /** Two locks for one session exist only if that session's child exited between their creations. */
  lemma SecondLockAfterExit(st: State, g: Generation, h: Generation)
    requires Reachable(st)
    requires g < h < |st.locks.made| && st.locks.made[g] == st.locks.made[h]
    ensures h < |st.locks.madeAt|
    ensures exists k :: st.locks.madeAt[g] < k < st.locks.madeAt[h] < |st.locks.log|
                        && st.locks.log[k] == Exited(st.locks.made[g])
    ensures st.locks.log[st.locks.madeAt[g]] == st.locks.log[st.locks.madeAt[h]] == Created(st.locks.made[g])
  {
    ReachableInv(st);
    assert ExitAfter(st.locks, st.locks.made[g], st.locks.madeAt[g], st.locks.madeAt[h]);
  }

  // ---- What the terminal reads ----

  function Text(frames: seq<Sent>): Bytes {
    if frames == [] then [] else Text(frames[..|frames| - 1]) + Last(frames).bytes
  }

  function Texts(order: seq<Call>, calls: map<Call, Writer>): Bytes {
    if order == [] then []
    else Texts(order[..|order| - 1], calls) + (if Last(order) in calls then calls[Last(order)].data else [])
  }

  lemma {:induction false} TextAppends(a: seq<Sent>, b: seq<Sent>)
    ensures Text(a + b) == Text(a) + Text(b)
  {
    if b == [] {
      assert a + b == a;
    } else {
      var init := b[..|b| - 1];
      assert (a + b)[..|a + b| - 1] == a + init;
      TextAppends(a, init);
    }
  }

  lemma {:induction false} FlattenAppends(a: seq<Bytes>, last: Bytes)
    ensures Flatten(a + [last]) == Flatten(a) + last
  {
    if a == [] {
      assert a + [last] == [last];
      assert Flatten([last]) == last + Flatten([]);
    } else {
      assert (a + [last])[1..] == a[1..] + [last];
      FlattenAppends(a[1..], last);
    }
  }

  lemma {:induction false} FramesText(c: Call, w: Writer)
    requires w.sent <= |w.chunks|
    ensures Text(FramesOf(c, w)) == Flatten(w.chunks[..w.sent])
    decreases w.sent
  {
    if w.sent > 0 {
      var v := w.(sent := w.sent - 1);
      FramesText(c, v);
      assert FramesOf(c, w)[..w.sent - 1] == FramesOf(c, v);
      assert w.chunks[..w.sent] == w.chunks[..w.sent - 1] + [w.chunks[w.sent - 1]];
      FlattenAppends(w.chunks[..w.sent - 1], w.chunks[w.sent - 1]);
    }
  }

  lemma {:induction false} WholeText(order: seq<Call>, calls: map<Call, Writer>)
    requires forall i :: 0 <= i < |order| ==> order[i] in calls && Whole(calls[order[i]]) && Cut(calls[order[i]])
    ensures Text(Concatenated(order, calls)) == Texts(order, calls)
  {
    if order != [] {
      var init, c := order[..|order| - 1], Last(order);
      WholeText(init, calls);
      TextAppends(Concatenated(init, calls), FramesOf(c, calls[c]));
      FramesText(c, calls[c]);
      assert calls[c].chunks[..calls[c].sent] == calls[c].chunks;
      ChunksRoundTrip(calls[c].data);
    }
  }

  /** Once every call that acquired a lock has succeeded, the bytes sent under it are their texts, one
      after another in the order they acquired it. */
  lemma WrittenBytes(st: State, g: Generation)
    requires Reachable(st)
    requires forall i :: 0 <= i < |Order(st.desk, g)| ==> At(st.desk, Order(st.desk, g)[i], Done(true))
    ensures Text(Under(st.desk.wire, g)) == Texts(Order(st.desk, g), st.desk.calls)
  {
    ReachableInv(st);
    assert WireOk(st.desk);
    forall i | 0 <= i < |Order(st.desk, g)|
      ensures Whole(st.desk.calls[Order(st.desk, g)[i]]) && Cut(st.desk.calls[Order(st.desk, g)[i]])
    {
      assert WriterOk(st.desk.calls[Order(st.desk, g)[i]]);
    }
    WholeText(Order(st.desk, g), st.desk.calls);
  }

  // ---- Longer runs ----

  lemma {:induction false} RunInTwo(st: State, a: seq<Action>, b: seq<Action>)
    requires IsRun(st, a) && IsRun(Exec(st, a), b)
    ensures IsRun(st, a + b) && Exec(st, a + b) == Exec(Exec(st, a), b)
    decreases |a|
  {
    if a == [] {
      assert a + b == b;
    } else {
      assert (a + b)[0] == a[0] && (a + b)[1..] == a[1..] + b;
      RunInTwo(Apply(st, a[0]), a[1..], b);
    }
  }

  lemma ThenOne(st: State, a: seq<Action>, x: Action)
    requires IsRun(st, a) && Enabled(Exec(st, a), x)
    ensures IsRun(st, a + [x]) && Exec(st, a + [x]) == Apply(Exec(st, a), x)
  {
    assert [x][1..] == [];
    assert IsRun(Apply(Exec(st, a), x), []);
    RunInTwo(st, a, [x]);
  }

  // ---- The loop of one call ----

  lemma OneStep(st: State, x: Action)
    requires Enabled(st, x)
    ensures IsRun(st, [x]) && Exec(st, [x]) == Apply(st, x)
  {
    assert [x][1..] == [];
    assert IsRun(Apply(st, x), []);
  }

  lemma TwoSteps(st: State, x: Action, y: Action)
    requires Enabled(st, x) && Enabled(Apply(st, x), y)
    ensures IsRun(st, [x, y]) && Exec(st, [x, y]) == Apply(Apply(st, x), y)
  {
    OneStep(Apply(st, x), y);
    assert [x, y][1..] == [y];
  }

  /** How one request of the loop ends. */
  datatype Answer = Acknowledged | RefusedUnsent | RefusedSent

  /** What the loop has sent when the answers from the i-th on are these. */
  function SentFrom(c: Call, w: Writer, answers: seq<Answer>, i: nat): seq<Sent>
    requires i <= |w.chunks| <= |answers|
    decreases |w.chunks| - i
  {
    if i == |w.chunks| || answers[i] == RefusedUnsent then []
    else
      [Sent(w.session, w.lock, c, i, w.chunks[i])]
      + if answers[i] == Acknowledged then SentFrom(c, w, answers, i + 1) else []
  }

  /** The steps of the call, from holding its lock with i chunks sent to its end. */
  function StepsFrom(c: Call, w: Writer, answers: seq<Answer>, i: nat): seq<Action>
    requires i <= |w.chunks| <= |answers|
    decreases |w.chunks| - i
  {
    if i == |w.chunks| then [Complete(c)]
    else
      match answers[i]
      case Acknowledged => [Push(c), Ack(c)] + StepsFrom(c, w, answers, i + 1)
      case RefusedSent => [Push(c), Refuse(c)]
      case RefusedUnsent => [Refuse(c)]
  }

  predicate Succeeds(w: Writer, answers: seq<Answer>, i: nat)
    requires i <= |w.chunks| <= |answers|
  {
    forall k :: i <= k < |w.chunks| ==> answers[k] == Acknowledged
  }

  lemma OneFrameText(f: Sent)
    ensures Text([f]) == f.bytes
  {
    assert [f][..0] == [] && [] + f.bytes == f.bytes;
  }

  lemma {:induction false} SentAll(c: Call, w: Writer, answers: seq<Answer>, i: nat)
    requires i <= |w.chunks| <= |answers| && Succeeds(w, answers, i)
    ensures Text(SentFrom(c, w, answers, i)) == Flatten(w.chunks[i..])
    decreases |w.chunks| - i
  {
    if i < |w.chunks| {
      SentAll(c, w, answers, i + 1);
      var f := Sent(w.session, w.lock, c, i, w.chunks[i]);
      TextAppends([f], SentFrom(c, w, answers, i + 1));
      OneFrameText(f);
      assert w.chunks[i..][1..] == w.chunks[i + 1..];
    }
  }

  /** `write_stdin_locked` once it has the lock: request after request, stopping at the first that is
      not acknowledged, be it refused before it was sent or after. */
  method WriteStdinLocked(c: Call, s: Session, g: Generation, data: Bytes, answers: seq<Answer>)
    returns (ok: bool, wire: seq<Sent>)
    requires |answers| >= |BuildWriteStdinChunks(data)|
    ensures var w := Writer(s, data, BuildWriteStdinChunks(data), g, 0, Holding);
            wire == SentFrom(c, w, answers, 0) && (ok <==> Succeeds(w, answers, 0))
    ensures ok ==> Text(wire) == data
  {
    var chunks := BuildWriteStdinChunks(data);
    ghost var w := Writer(s, data, chunks, g, 0, Holding);
    var i := 0;
    wire := [];
    while i < |chunks|
      invariant 0 <= i <= |chunks|
      invariant wire + SentFrom(c, w, answers, i) == SentFrom(c, w, answers, 0)
      invariant forall k :: 0 <= k < i ==> answers[k] == Acknowledged
    {
      if answers[i] == RefusedUnsent {
        assert wire + [] == wire;
        return false, wire;
      }
      OneMoreSent(wire, c, w, answers, i);
      wire := wire + [Sent(s, g, c, i, chunks[i])];
      if answers[i] != Acknowledged {
        return false, wire;
      }
      i := i + 1;
    }
    assert wire + [] == wire;
    SentAll(c, w, answers, 0);
    assert chunks[0..] == chunks;
    ChunksRoundTrip(data);
    ok := true;
  }

  lemma OneMoreSent(wire: seq<Sent>, c: Call, w: Writer, answers: seq<Answer>, i: nat)
    requires i < |w.chunks| <= |answers| && answers[i] != RefusedUnsent
    ensures wire + SentFrom(c, w, answers, i)
         == wire + [Sent(w.session, w.lock, c, i, w.chunks[i])]
            + (if answers[i] == Acknowledged then SentFrom(c, w, answers, i + 1) else [])
  {
  }

  /** Call c holds its lock with i chunks sent. */
  predicate HoldsAt(st: State, c: Call, w: Writer, i: nat) {
    c in st.desk.calls && st.desk.calls[c] == w.(sent := i, pc := Holding)
  }

  lemma LoopPushes(st: State, c: Call, w: Writer, i: nat)
    requires HoldsAt(st, c, w, i) && i < |w.chunks|
    ensures IsRun(st, [Push(c), Ack(c)]) && IsRun(st, [Push(c), Refuse(c)])
    ensures HoldsAt(Exec(st, [Push(c), Ack(c)]), c, w, i + 1)
    ensures At(Exec(st, [Push(c), Refuse(c)]).desk, c, Done(false))
    ensures Exec(st, [Push(c), Ack(c)]).desk.wire == Exec(st, [Push(c), Refuse(c)]).desk.wire
         == st.desk.wire + [Sent(w.session, w.lock, c, i, w.chunks[i])]
  {
    TwoSteps(st, Push(c), Ack(c));
    TwoSteps(st, Push(c), Refuse(c));
  }

  lemma LoopEnds(st: State, c: Call, w: Writer, i: nat)
    requires HoldsAt(st, c, w, i) && i <= |w.chunks|
    ensures var last := if i == |w.chunks| then Complete(c) else Refuse(c);
            && IsRun(st, [last]) && Exec(st, [last]).desk.wire == st.desk.wire
            && At(Exec(st, [last]).desk, c, Done(i == |w.chunks|))
  {
    OneStep(st, if i == |w.chunks| then Complete(c) else Refuse(c));
  }

  /** The loop is a run of the call's own steps: from any state in which it holds its lock they are
      enabled one after another, put on the wire what the loop sends, and end it as the loop does. */
  lemma {:induction false} LoopIsRun(st: State, c: Call, w: Writer, answers: seq<Answer>, i: nat)
    requires HoldsAt(st, c, w, i) && i <= |w.chunks| <= |answers|
    ensures IsRun(st, StepsFrom(c, w, answers, i))
    ensures Exec(st, StepsFrom(c, w, answers, i)).desk.wire == st.desk.wire + SentFrom(c, w, answers, i)
    ensures At(Exec(st, StepsFrom(c, w, answers, i)).desk, c, Done(Succeeds(w, answers, i)))
    decreases |w.chunks| - i
  {
    if i == |w.chunks| || answers[i] == RefusedUnsent {
      LoopEnds(st, c, w, i);
      assert st.desk.wire + [] == st.desk.wire;
    } else {
      LoopPushes(st, c, w, i);
      if answers[i] == Acknowledged {
        var turn, rest := [Push(c), Ack(c)], StepsFrom(c, w, answers, i + 1);
        LoopIsRun(Exec(st, turn), c, w, answers, i + 1);
        RunInTwo(st, turn, rest);
        OneMoreSent(st.desk.wire, c, w, answers, i);
      }
    }
  }
}
