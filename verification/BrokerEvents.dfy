/** The broker's view of the connection: which global event, if any, each connection state raises. */
module BrokerEvents {
  import opened Wrappers
  import opened Connection

  datatype OrchdEvent = OrchdUp | OrchdDown | OrchdIncompatible

  datatype DaemonEvent = DaemonDisconnected | DaemonReconnected | DaemonIncompatible

  function MapOrchdConnState(st: ConnState): OrchdEvent {
    match st
    case Connected => OrchdUp
    case Disconnected => OrchdDown
    case Incompatible(_, _) => OrchdIncompatible
  }

  function EventFor(seenDisconnected: bool, st: ConnState): Option<DaemonEvent> {
    match st
    case Disconnected => Some(DaemonDisconnected)
    case Connected => if seenDisconnected then Some(DaemonReconnected) else None
    case Incompatible(_, _) => Some(DaemonIncompatible)
  }

  /** The closure `register` hands to `on_conn`, with the flag it captures. */
  class ConnListener {
    var seenDisconnected: bool

    constructor ()
      ensures !seenDisconnected
    {
      seenDisconnected := false;
    }

    method MapConnState(st: ConnState) returns (ev: Option<DaemonEvent>)
      modifies this
      ensures ev == EventFor(old(seenDisconnected), st)
      ensures seenDisconnected == (st != Connected)
    {
      match st {
        case Disconnected =>
          seenDisconnected := true;
          ev := Some(DaemonDisconnected);
        case Connected =>
          ev := if seenDisconnected then Some(DaemonReconnected) else None;
          seenDisconnected := false;
        case Incompatible(_, _) =>
          seenDisconnected := true;
          ev := Some(DaemonIncompatible);
      }
    }
  }

  predicate WasDown(states: seq<ConnState>, i: nat)
    requires i < |states|
  {
    i > 0 && states[i - 1] != Connected
  }

  /** Which event position `i` of a state sequence raises, told from its neighbours alone. */
  predicate RaisedAt(states: seq<ConnState>, i: nat, ev: Option<DaemonEvent>)
    requires i < |states|
  {
    && (ev == Some(DaemonReconnected) <==> states[i] == Connected && WasDown(states, i))
    && (ev == None <==> states[i] == Connected && !WasDown(states, i))
    && (ev == Some(DaemonDisconnected) <==> states[i] == Disconnected)
    && (ev == Some(DaemonIncompatible) <==> states[i].Incompatible?)
  }

  /** Over any sequence of states, the flag amounts to looking at the previous state: `reconnected`
      is raised exactly at a Connected whose predecessor was not Connected. */
  method DispatchAll(states: seq<ConnState>) returns (events: seq<Option<DaemonEvent>>)
    ensures |events| == |states|
    ensures forall i :: 0 <= i < |states| ==> RaisedAt(states, i, events[i])
  {
    var listener := new ConnListener();
    events := [];
    for k := 0 to |states|
      invariant |events| == k
      invariant listener.seenDisconnected <==> k > 0 && states[k - 1] != Connected
      invariant forall i :: 0 <= i < k ==> RaisedAt(states, i, events[i])
    {
      var ev := listener.MapConnState(states[k]);
      assert RaisedAt(states, k, ev);
      events := events + [ev];
    }
  }

  function MapAll(states: seq<ConnState>): seq<OrchdEvent> {
    seq(|states|, i requires 0 <= i < |states| => MapOrchdConnState(states[i]))
  }

  /** Each orchd event tells its state: up, down and incompatible are raised exactly at these. */
  lemma EventsTellStates(states: seq<ConnState>, i: nat)
    requires i < |states|
    ensures |MapAll(states)| == |states|
    ensures MapAll(states)[i] == OrchdUp <==> states[i] == Connected
    ensures MapAll(states)[i] == OrchdDown <==> states[i] == Disconnected
    ensures MapAll(states)[i] == OrchdIncompatible <==> states[i].Incompatible?
  {
  }

  predicate MayBeNext(a: OrchdEvent, b: OrchdEvent) {
    match a
    case OrchdUp => b == OrchdDown
    case OrchdDown => b != OrchdDown
    case OrchdIncompatible => false
  }

  /** Up and down take turns; incompatible can only follow a down, and nothing follows it. */
  ghost predicate Alternates(events: seq<OrchdEvent>) {
    forall i, j :: 0 <= i && j == i + 1 && j < |events| ==> MayBeNext(events[i], events[j])
  }

  lemma {:induction false} LangAlternates(h: seq<ConnState>)
    requires Lang(h)
    ensures Alternates(MapAll(h))
  {
    if |h| > 3 || (|h| == 3 && h[2] == Connected) {
      LangAlternates(h[2..]);
      var events, rest := MapAll(h), MapAll(h[2..]);
      forall i, j | 0 <= i && j == i + 1 && j < |events| ensures MayBeNext(events[i], events[j]) {
        if i >= 2 { assert events[i] == rest[i - 2] && events[j] == rest[j - 2]; }
      }
    }
  }

  /** Whenever an observer registered, and however the run went on, the orchd events it raised
      alternate and end at most once in incompatible. */
  lemma ObservedEventsAlternate(s: State, o: Observer)
    requires Reachable(s) && o in s.events.observers
    ensures Alternates(MapAll(s.events.observers[o].seen))
  {
    ObserverSeesSuffix(s, o);
    LangAlternates(s.events.history);
    var seen := s.events.observers[o].seen;
    var since := |s.events.history| - |seen|;
    var all := MapAll(s.events.history);
    forall i, j | 0 <= i && j == i + 1 && j < |seen| ensures MayBeNext(MapAll(seen)[i], MapAll(seen)[j]) {
      assert MapAll(seen)[i] == all[since + i] && MapAll(seen)[j] == all[since + j];
    }
  }

  /** An observer misses no change: after its replayed first state, each state raises an event. */
  lemma NothingIsSwallowed(s: State, o: Observer, i: nat, ev: Option<DaemonEvent>)
    requires Reachable(s) && o in s.events.observers
    requires 1 <= i < |s.events.observers[o].seen| && RaisedAt(s.events.observers[o].seen, i, ev)
    ensures ev != None
  {
    ObservedEventsAlternate(s, o);
    var seen := s.events.observers[o].seen;
    assert MayBeNext(MapAll(seen)[i - 1], MapAll(seen)[i]);
  }
}
