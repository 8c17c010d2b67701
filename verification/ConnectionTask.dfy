/** The imperative side of the connection task: the fields it updates in place, one method per
    critical section, each proved to be one step of the transition system in `Connection`. */
module ConnectionTask {
  import opened Connection

  lemma FillNothing(slots: map<Call, Slot>, slot: Slot)
    ensures Fill(slots, {}, slot) == slots
  {
  }

  lemma FillOneMore(slots: map<Call, Slot>, cs: set<Call>, c: Call, slot: Slot)
    requires c in slots
    ensures Fill(slots, cs + {c}, slot) == Fill(slots, cs, slot)[c := slot]
  {
  }

  function Told(s: Seen, st: ConnState): Seen { s.(seen := s.seen + [st]) }

  class Task {
    var nextId: nat
    var pending: map<nat, Call>
    var queue: seq<Call>
    var slots: map<Call, Slot>
    var current: ConnState
    /** Registered callbacks in registration order, and what each has been called with. */
    var callbacks: seq<Observer>
    ghost var heard: map<Observer, Seen>

    ghost var enqueued: seq<Call>
    ghost var dequeued: seq<Call>
    ghost var takenOn: seq<nat>
    ghost var written: seq<Sent>
    ghost var history: seq<ConnState>

    ghost function FlowOf(): Flow
      reads this
    {
      Flow(nextId, pending, queue, slots, enqueued, dequeued, takenOn, written)
    }

    ghost function EventsOf(): Events
      reads this
    {
      Events(current, heard, history)
    }

    ghost predicate Valid()
      reads this
    {
      && (forall i, j :: 0 <= i < j < |callbacks| ==> callbacks[i] != callbacks[j])
      && (forall o :: o in callbacks <==> o in heard)
    }

    constructor ()
      ensures Valid() && FlowOf() == INITIAL.flow && EventsOf() == INITIAL.events
    {
      nextId, pending, queue, slots := 1, map[], [], map[];
      current, callbacks, heard := Connected, [], map[];
      enqueued, dequeued, takenOn, written, history := [], [], [], [], [Connected];
    }

    method Queue(c: Call)
      requires Valid()
      modifies this
      ensures Valid() && FlowOf() == Enqueue(old(FlowOf()), c) && EventsOf() == old(EventsOf())
    {
      slots := slots[c := Empty];
      queue := queue + [c];
      enqueued := enqueued + [c];
    }

    /** The command arm of `run_connection`: an encode failure fails only this request, a write
        failure loses the connection after the request became pending. */
    method RunCommand(conn: nat, e: Encoded) returns (lost: bool)
      requires Valid() && queue != []
      modifies this
      ensures Valid() && FlowOf() == Take(old(FlowOf()), conn, e) && EventsOf() == old(EventsOf())
      ensures lost <==> e == WriteFailed
    {
      var c := queue[0];
      queue := queue[1..];
      var id := nextId;
      nextId := nextId + 1;
      dequeued := dequeued + [c];
      takenOn := takenOn + [conn];
      match e {
        case Unencodable(tooLarge) =>
          slots := slots[c := Filled(EncodeFailed(tooLarge))];
          return false;
        case Written =>
          pending := pending[id := c];
          written := written + [Sent(conn, id)];
          return false;
        case WriteFailed =>
          pending := pending[id := c];
          return true;
      }
    }

    /** The frame arm of `run_connection`. */
    method RunFrame(conn: nat, frame: Frame)
      requires Valid()
      modifies this
      ensures Valid() && FlowOf() == OnFrame(old(FlowOf()), conn, frame) && EventsOf() == old(EventsOf())
    {
      match frame {
        case Response(id, res) =>
          if id in pending {
            var c := pending[id];
            pending := pending - {id};
            slots := slots[c := Filled(Answered(id, conn, res))];
          }
        case Push(_) =>
        case StrayRequest(_) =>
      }
    }

    /** Drain the correlation map, failing every request in it. */
    method DrainAll()
      requires Valid()
      requires forall id :: id in pending ==> pending[id] in slots
      modifies this
      ensures Valid() && FlowOf() == DrainPending(old(FlowOf())) && EventsOf() == old(EventsOf())
    {
      ghost var all := pending;
      ghost var done: set<Call> := {};
      ghost var before := slots;
      FillNothing(before, Filled(Drained));
      while pending != map[]
        invariant Valid() && EventsOf() == old(EventsOf())
        invariant FlowOf() == old(FlowOf()).(pending := pending, slots := Fill(before, done, Filled(Drained)))
        invariant pending.Items <= all.Items
        invariant forall id :: id in all && id !in pending ==> all[id] in done
        invariant done <= all.Values
        decreases |pending|
      {
        var id :| id in pending;
        var c := pending[id];
        assert (id, c) in pending.Items && id in all && all[id] == c;
        FillOneMore(before, done, c, Filled(Drained));
        pending := pending - {id};
        slots := slots[c := Filled(Drained)];
        done := done + {c};
      }
      assert done == all.Values;
    }

    /** `fire_conn`: under one lock, set the current state and call every callback in turn. */
    method FireConn(st: ConnState)
      requires Valid()
      modifies this
      ensures Valid() && EventsOf() == Fire(old(EventsOf()), st) && FlowOf() == old(FlowOf())
    {
      current := st;
      history := history + [st];
      ghost var before := heard;
      var i := 0;
      while i < |callbacks|
        invariant 0 <= i <= |callbacks| && callbacks == old(callbacks)
        invariant current == st && history == old(history) + [st] && FlowOf() == old(FlowOf())
        invariant heard.Keys == before.Keys
        invariant forall k :: 0 <= k < i ==> heard[callbacks[k]] == Told(before[callbacks[k]], st)
        invariant forall k :: i <= k < |callbacks| ==> heard[callbacks[k]] == before[callbacks[k]]
      {
        var o := callbacks[i];
        heard := heard[o := Told(heard[o], st)];
        i := i + 1;
      }
      forall o | o in heard ensures heard[o] == Told(before[o], st) { assert o in callbacks; }
    }

    /** `on_conn`: call back with the current state at once, then register. */
    method OnConn(o: Observer)
      requires Valid() && o !in heard
      modifies this
      ensures Valid() && EventsOf() == Register(old(EventsOf()), o) && FlowOf() == old(FlowOf())
    {
      heard := heard[o := Seen(if |history| == 0 then 0 else |history| - 1, [current])];
      callbacks := callbacks + [o];
    }

    /** The task returns: its end of the command channel goes, and with it every queued sender. */
    method Close()
      requires Valid()
      modifies this
      ensures Valid() && FlowOf() == DropQueue(old(FlowOf())) && EventsOf() == old(EventsOf())
    {
      slots := Fill(slots, (set c | c in queue), Dropped);
      queue := [];
    }
  }
}
