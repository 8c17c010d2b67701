/** Per-session serialization of terminal input: the lazily created, evictable locks and the calls
    of `write_stdin_locked` that hold them across their whole chunk list.

    A lock object has an identity, here its generation: evicting a session's entry and asking again
    makes a second lock for the same session while the first may still be held. */
module WriteLocks {
  import opened Wrappers
  import opened Chunks

  type Session = nat
  type Generation = nat
  type Call = nat

  // ---- The lock table ----

  datatype Event = Created(session: Session) | Exited(session: Session)

  /** The table, the session of every lock made so far, the log of creations and child exits, and
      where in that log each lock was created. */
  datatype Locks = Locks(table: map<Session, Generation>, made: seq<Session>, log: seq<Event>, madeAt: seq<nat>)

  function LockFor(l: Locks, s: Session): Locks {
    if s in l.table then l
    else Locks(l.table[s := |l.made|], l.made + [s], l.log + [Created(s)], l.madeAt + [|l.log|])
  }

  /** The broker's reaction to `Push::ChildExited`. */
  function Evict(l: Locks, s: Session): Locks {
    l.(table := l.table - {s}, log := l.log + [Exited(s)])
  }

  /** The mutex-guarded map itself; a lock is a number here, fresh for each `Arc::new`. */
  class WriteStdinLocks {
    var inner: map<Session, Generation>
    ghost var made: seq<Session>
    ghost var log: seq<Event>
    ghost var madeAt: seq<nat>
    var nextLock: nat

    ghost function LocksOf(): Locks
      reads this
    {
      Locks(inner, made, log, madeAt)
    }

    ghost predicate Valid()
      reads this
    {
      nextLock == |made|
    }

    constructor ()
      ensures Valid() && LocksOf() == Locks(map[], [], [], [])
    {
      inner, nextLock, made, log, madeAt := map[], 0, [], [], [];
    }

    method Lock(s: Session) returns (g: Generation)
      requires Valid()
      modifies this
      ensures Valid()
      ensures LocksOf() == LockFor(old(LocksOf()), s)
      ensures s in inner && g == inner[s]
    {
      if s !in inner {
        inner := inner[s := nextLock];
        nextLock := nextLock + 1;
        madeAt := madeAt + [|log|];
        made, log := made + [s], log + [Created(s)];
      }
      g := inner[s];
    }

    method EvictSession(s: Session)
      requires Valid()
      modifies this
      ensures Valid()
      ensures LocksOf() == Evict(old(LocksOf()), s)
    {
      inner := inner - {s};
      log := log + [Exited(s)];
    }
  }

  ghost predicate ExitAfter(l: Locks, s: Session, from: nat, to: nat) {
    exists k | from < k < to :: k < |l.log| && l.log[k] == Exited(s)
  }

  predicate IsCurrent(l: Locks, g: Generation)
    requires g < |l.made|
  {
    l.made[g] in l.table && l.table[l.made[g]] == g
  }

  ghost predicate EntriesOk(l: Locks) {
    && |l.madeAt| == |l.made|
    && (forall g :: 0 <= g < |l.made| ==> l.madeAt[g] < |l.log| && l.log[l.madeAt[g]] == Created(l.made[g]))
    && (forall s :: s in l.table ==> l.table[s] < |l.made| && l.made[l.table[s]] == s)
  }

  /** A lock that left the table left it by an exit after its creation. */
  ghost predicate StaleOk(l: Locks)
    requires |l.madeAt| == |l.made|
  {
    forall g :: 0 <= g < |l.made| && !IsCurrent(l, g) ==> ExitAfter(l, l.made[g], l.madeAt[g], |l.log|)
  }

  /** Two locks of one session have an exit of its child between their creations. */
  ghost predicate PairsOk(l: Locks)
    requires |l.madeAt| == |l.made|
  {
    forall g, h :: 0 <= g < h < |l.made| && l.made[g] == l.made[h] ==>
      l.madeAt[g] < l.madeAt[h] && ExitAfter(l, l.made[g], l.madeAt[g], l.madeAt[h])
  }

  ghost predicate LocksInv(l: Locks) {
    EntriesOk(l) && StaleOk(l) && PairsOk(l)
  }

  lemma ExitStays(l: Locks, m: Locks, s: Session, from: nat, to: nat)
    requires ExitAfter(l, s, from, to) && l.log <= m.log
    ensures forall to' :: to' >= to ==> ExitAfter(m, s, from, to')
  {
  }

  lemma LockForKeepsStale(l: Locks, s: Session)
    requires LocksInv(l) && s !in l.table
    ensures StaleOk(LockFor(l, s))
  {
    var m := LockFor(l, s);
    forall g | 0 <= g < |l.made| && !IsCurrent(l, g) ensures ExitAfter(m, l.made[g], l.madeAt[g], |m.log|) {
      ExitStays(l, m, l.made[g], l.madeAt[g], |l.log|);
    }
  }

  lemma LockForKeepsPair(l: Locks, s: Session, g: Generation, h: Generation)
    requires LocksInv(l) && s !in l.table
    requires g < h <= |l.made| && LockFor(l, s).made[g] == LockFor(l, s).made[h]
    ensures var m := LockFor(l, s);
            m.madeAt[g] < m.madeAt[h] && ExitAfter(m, m.made[g], m.madeAt[g], m.madeAt[h])
  {
    var m := LockFor(l, s);
    if h < |l.made| {
      ExitStays(l, m, l.made[g], l.madeAt[g], l.madeAt[h]);
    } else {
      assert !IsCurrent(l, g);
      ExitStays(l, m, l.made[g], l.madeAt[g], |l.log|);
    }
  }

  lemma LockForKeeps(l: Locks, s: Session)
    requires LocksInv(l)
    ensures LocksInv(LockFor(l, s)) && s in LockFor(l, s).table
  {
    var m := LockFor(l, s);
    if s !in l.table {
      LockForKeepsStale(l, s);
      forall g, h | 0 <= g < h < |m.made| && m.made[g] == m.made[h]
        ensures m.madeAt[g] < m.madeAt[h] && ExitAfter(m, m.made[g], m.madeAt[g], m.madeAt[h])
      {
        LockForKeepsPair(l, s, g, h);
      }
    }
  }

  lemma EvictKeepsStale(l: Locks, s: Session)
    requires LocksInv(l)
    ensures StaleOk(Evict(l, s))
  {
    var m := Evict(l, s);
    forall g | 0 <= g < |l.made| && !IsCurrent(m, g) ensures ExitAfter(m, l.made[g], l.madeAt[g], |m.log|) {
      if l.made[g] == s { assert m.log[|l.log|] == Exited(s); }
      else { ExitStays(l, m, l.made[g], l.madeAt[g], |l.log|); }
    }
  }

  lemma EvictKeeps(l: Locks, s: Session)
    requires LocksInv(l)
    ensures LocksInv(Evict(l, s))
  {
    var m := Evict(l, s);
    EvictKeepsStale(l, s);
    forall g, h | 0 <= g < h < |l.made| && l.made[g] == l.made[h]
      ensures ExitAfter(m, l.made[g], l.madeAt[g], l.madeAt[h])
    {
      ExitStays(l, m, l.made[g], l.madeAt[g], l.madeAt[h]);
    }
  }

  // ---- Calls of write_stdin_locked ----

  datatype WriterPc = Starting | Queued | Holding | Awaiting | Done(ok: bool)

  /** One call: its text, the chunk list cut from it, the lock it was given, and how many chunks it
      has sent. */
  datatype Writer = Writer(session: Session, data: Bytes, chunks: seq<Bytes>, lock: Generation, sent: nat, pc: WriterPc)

  /** A chunk as it enters the client's command channel. */
  datatype Sent = Sent(session: Session, lock: Generation, call: Call, index: nat, bytes: Bytes)

  /** `order` is history: for each lock, the calls that acquired it, in that order. */
  datatype Desk =
    Desk(calls: map<Call, Writer>, held: map<Generation, Call>, order: map<Generation, seq<Call>>, wire: seq<Sent>)

  predicate Active(pc: WriterPc) { pc == Holding || pc == Awaiting }

  function Order(d: Desk, g: Generation): seq<Call> {
    if g in d.order then d.order[g] else []
  }

  /** What a call has sent so far: the first `sent` entries of its own list, in order. */
  function FramesOf(c: Call, w: Writer): seq<Sent> {
    if w.sent <= |w.chunks| then seq(w.sent, i requires 0 <= i < w.sent => Sent(w.session, w.lock, c, i, w.chunks[i]))
    else []
  }

  function Concatenated(order: seq<Call>, calls: map<Call, Writer>): seq<Sent> {
    if order == [] then []
    else Concatenated(order[..|order| - 1], calls)
         + (if Last(order) in calls then FramesOf(Last(order), calls[Last(order)]) else [])
  }

  /** The part of the wire that was sent under one lock. */
  function Under(wire: seq<Sent>, g: Generation): seq<Sent> {
    if wire == [] then []
    else Under(wire[..|wire| - 1], g) + (if Last(wire).lock == g then [Last(wire)] else [])
  }

  function Acquire(d: Desk, c: Call): Desk
    requires c in d.calls
  {
    var w := d.calls[c];
    d.(calls := d.calls[c := w.(pc := Holding)], held := d.held[w.lock := c],
       order := d.order[w.lock := Order(d, w.lock) + [c]])
  }

  function SendNext(d: Desk, c: Call): Desk
    requires c in d.calls && d.calls[c].sent < |d.calls[c].chunks|
  {
    var w := d.calls[c];
    d.(calls := d.calls[c := w.(sent := w.sent + 1, pc := Awaiting)],
       wire := d.wire + [Sent(w.session, w.lock, c, w.sent, w.chunks[w.sent])])
  }

  function Finish(d: Desk, c: Call, ok: bool): Desk
    requires c in d.calls
  {
    var w := d.calls[c];
    d.(calls := d.calls[c := w.(pc := Done(ok))],
       held := if w.lock in d.held && d.held[w.lock] == c then d.held - {w.lock} else d.held)
  }

  ghost predicate WriterOk(w: Writer) {
    && w.sent <= |w.chunks|
    && (w.pc == Done(true) ==> w.sent == |w.chunks|)
    && (w.pc == Starting || w.pc == Queued ==> w.sent == 0)
  }

  ghost predicate OrderOk(d: Desk, g: Generation) {
    var order := Order(d, g);
    && (forall i, j :: 0 <= i < j < |order| ==> order[i] != order[j])
    && (forall i :: 0 <= i < |order| ==>
          && order[i] in d.calls && d.calls[order[i]].lock == g
          && d.calls[order[i]].pc != Starting && d.calls[order[i]].pc != Queued
          && (i < |order| - 1 ==> d.calls[order[i]].pc.Done?))
    && (g in d.held ==> order != [] && Last(order) == d.held[g])
  }

  ghost predicate HoldersOk(d: Desk) {
    && (forall c :: c in d.calls ==> WriterOk(d.calls[c]))
    && (forall c :: c in d.calls && Active(d.calls[c].pc) ==> d.calls[c].lock in d.held && d.held[d.calls[c].lock] == c)
    && (forall g :: g in d.held ==>
          d.held[g] in d.calls && Active(d.calls[d.held[g]].pc) && d.calls[d.held[g]].lock == g)
  }

  ghost predicate WireOk(d: Desk) {
    forall g :: Under(d.wire, g) == Concatenated(Order(d, g), d.calls)
  }

  ghost predicate DeskInv(d: Desk) {
    HoldersOk(d) && (forall g :: OrderOk(d, g)) && WireOk(d)
  }

  // ---- Each change keeps the desk ----

  /** Changing where a call stands, and nothing it has sent, changes no concatenation. */
  lemma {:induction false} SameConcatenation(order: seq<Call>, calls: map<Call, Writer>, c: Call, w: Writer)
    requires c !in order || (c in calls && FramesOf(c, calls[c]) == FramesOf(c, w))
    ensures Concatenated(order, calls[c := w]) == Concatenated(order, calls)
  {
    if order != [] {
      var init := order[..|order| - 1];
      assert Last(order) in order;
      assert forall x :: x in init ==> x in order;
      SameConcatenation(init, calls, c, w);
    }
  }

  lemma SameConcatenations(d: Desk, c: Call, w: Writer)
    requires forall g :: Under(d.wire, g) == Concatenated(Order(d, g), d.calls)
    requires (forall g :: c !in Order(d, g)) || (c in d.calls && FramesOf(c, d.calls[c]) == FramesOf(c, w))
    ensures forall g :: Under(d.wire, g) == Concatenated(Order(d, g), d.calls[c := w])
  {
    forall g ensures Under(d.wire, g) == Concatenated(Order(d, g), d.calls[c := w]) {
      SameConcatenation(Order(d, g), d.calls, c, w);
    }
  }

  lemma NotYetOrdered(d: Desk, c: Call)
    requires DeskInv(d) && (c !in d.calls || d.calls[c].pc == Starting || d.calls[c].pc == Queued)
    ensures forall g :: c !in Order(d, g)
  {
    forall g ensures c !in Order(d, g) { assert OrderOk(d, g); }
  }

  lemma AcquireKeepsOrder(d: Desk, c: Call, g: Generation)
    requires DeskInv(d) && c in d.calls && d.calls[c].pc == Queued && d.calls[c].lock !in d.held
    ensures OrderOk(Acquire(d, c), g)
  {
    NotYetOrdered(d, c);
    assert OrderOk(d, g);
    var order := Order(d, g);
    if g == d.calls[c].lock && order != [] { assert !Active(d.calls[Last(order)].pc); }
  }

  lemma AcquireKeepsWire(d: Desk, c: Call)
    requires DeskInv(d) && c in d.calls && d.calls[c].pc == Queued
    ensures WireOk(Acquire(d, c))
  {
    var w, e := d.calls[c], Acquire(d, c);
    NotYetOrdered(d, c);
    SameConcatenations(d, c, w.(pc := Holding));
    var order := Order(d, w.lock);
    assert (order + [c])[..|order|] == order;
    assert FramesOf(c, w.(pc := Holding)) == [];
    assert Concatenated(order + [c], e.calls) == Concatenated(order, e.calls);
  }

  lemma AcquireKeeps(d: Desk, c: Call)
    requires DeskInv(d) && c in d.calls && d.calls[c].pc == Queued && d.calls[c].lock !in d.held
    ensures DeskInv(Acquire(d, c))
  {
    forall g ensures OrderOk(Acquire(d, c), g) { AcquireKeepsOrder(d, c, g); }
    AcquireKeepsWire(d, c);
  }

  lemma SendNextKeepsOrder(d: Desk, c: Call, g: Generation)
    requires DeskInv(d) && c in d.calls && d.calls[c].pc == Holding && d.calls[c].sent < |d.calls[c].chunks|
    ensures OrderOk(SendNext(d, c), g)
  {
    assert OrderOk(d, g);
  }

  lemma SendNextKeepsWire(d: Desk, c: Call, g: Generation)
    requires DeskInv(d) && c in d.calls && d.calls[c].pc == Holding && d.calls[c].sent < |d.calls[c].chunks|
    ensures Under(SendNext(d, c).wire, g) == Concatenated(Order(d, g), SendNext(d, c).calls)
  {
    var w, e := d.calls[c], SendNext(d, c);
    var w' := e.calls[c];
    assert OrderOk(d, g);
    var order := Order(d, g);
    assert e.wire[..|d.wire|] == d.wire;
    if g == w.lock {
      var init := order[..|order| - 1];
      assert c !in init;
      SameConcatenation(init, d.calls, c, w');
      assert FramesOf(c, w') == FramesOf(c, w) + [Last(e.wire)];
    } else {
      assert c !in order;
      SameConcatenation(order, d.calls, c, w');
    }
  }

  lemma SendNextKeeps(d: Desk, c: Call)
    requires DeskInv(d) && c in d.calls && d.calls[c].pc == Holding && d.calls[c].sent < |d.calls[c].chunks|
    ensures DeskInv(SendNext(d, c))
  {
    var e := SendNext(d, c);
    forall g ensures OrderOk(e, g) { SendNextKeepsOrder(d, c, g); }
    forall g ensures Under(e.wire, g) == Concatenated(Order(e, g), e.calls) { SendNextKeepsWire(d, c, g); }
  }

  predicate MayFinish(d: Desk, c: Call, ok: bool) {
    && c in d.calls && !d.calls[c].pc.Done?
    && (ok ==> d.calls[c].pc == Holding && d.calls[c].sent == |d.calls[c].chunks|)
  }

  lemma FinishKeepsHolders(d: Desk, c: Call, ok: bool)
    requires DeskInv(d) && MayFinish(d, c, ok)
    ensures HoldersOk(Finish(d, c, ok))
  {
  }

  lemma FinishKeepsOrder(d: Desk, c: Call, ok: bool, g: Generation)
    requires DeskInv(d) && MayFinish(d, c, ok)
    ensures OrderOk(Finish(d, c, ok), g)
  {
    if d.calls[c].pc == Starting || d.calls[c].pc == Queued { NotYetOrdered(d, c); }
    assert OrderOk(d, g);
  }

  lemma FinishKeeps(d: Desk, c: Call, ok: bool)
    requires DeskInv(d) && MayFinish(d, c, ok)
    ensures DeskInv(Finish(d, c, ok))
  {
    var e := Finish(d, c, ok);
    FinishKeepsHolders(d, c, ok);
    SameConcatenations(d, c, e.calls[c]);
    forall g ensures OrderOk(e, g) { FinishKeepsOrder(d, c, ok, g); }
  }

  ghost predicate Moves(d: Desk, c: Call, w: Writer) {
    && WriterOk(w)
    && if w.pc == Holding then c in d.calls && d.calls[c].pc == Awaiting && w == d.calls[c].(pc := Holding)
       else (w.pc == Starting || w.pc == Queued) && (c !in d.calls || d.calls[c].pc == Starting)
  }

  lemma MoveKeepsOrder(d: Desk, c: Call, w: Writer, g: Generation)
    requires DeskInv(d) && Moves(d, c, w)
    ensures OrderOk(d.(calls := d.calls[c := w]), g)
  {
    if w.pc != Holding { NotYetOrdered(d, c); }
    assert OrderOk(d, g);
  }

  /** Starting a call, giving it its lock, and hearing its chunk acknowledged send nothing. */
  lemma MoveKeeps(d: Desk, c: Call, w: Writer)
    requires DeskInv(d) && Moves(d, c, w)
    ensures DeskInv(d.(calls := d.calls[c := w]))
  {
    if w.pc != Holding { NotYetOrdered(d, c); }
    SameConcatenations(d, c, w);
    var e := d.(calls := d.calls[c := w]);
    forall g ensures OrderOk(e, g) { MoveKeepsOrder(d, c, w, g); }
  }
}
