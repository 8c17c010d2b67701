/** The client as a whole: `run_connection` and `connection_task` as loops and straight code over the
    task's fields, while callers, the daemon and observers act between any two of their steps. What
    they do is a run of `Connection`. */
module ConnectionLoop {
  import opened Wrappers
  import opened Connection
  import opened ConnectionTask

  /** What the select loop can meet. */
  datatype Input = Ready(encoded: Encoded) | Arrived | Broken | HandleGone

  datatype LoopEnd = ConnectionLost | ClientDropped

  /** What happens next: the select loop turns, or someone else acts. */
  datatype Moment = Turns(input: Input) | Acts(a: Action)

  /** What `connect_with_backoff` ends with. */
  datatype Backoff = Accepted | Refused(min: nat, max: nat)

  /** What others do between the critical sections of the task once a connection has ended. */
  datatype Gaps = Gaps(silent: seq<Action>, drained: seq<Action>, told: seq<Action>, met: seq<Action>)

  predicate ByOthers(a: Action) {
    a.Begin? || a.Send? || a.GiveUpWaiting? || a.Receive? || a.DropHandle? || a.DaemonSends? || a.Observe?
  }

  predicate AllByOthers(acts: seq<Action>) { forall i :: 0 <= i < |acts| ==> ByOthers(acts[i]) }

  function ActionOf(input: Input): Action {
    match input
    case Ready(e) => TakeCommand(e)
    case Arrived => TakeFrame
    case Broken => ReadFails
    case HandleGone => Action.ClientDropped
  }

  /** The step if it can be taken, and nothing otherwise. */
  ghost function Stepped(s: State, a: Action): State { if Enabled(s, a) then Apply(s, a) else s }

  ghost function AllStepped(s: State, acts: seq<Action>): State
    decreases |acts|
  {
    if acts == [] then s else AllStepped(Stepped(s, acts[0]), acts[1..])
  }

  lemma {:induction false} SteppedMore(s: State, acts: seq<Action>, a: Action)
    ensures AllStepped(s, acts + [a]) == Stepped(AllStepped(s, acts), a)
    decreases |acts|
  {
    if acts == [] {
      assert [] + [a] == [a] && [a][1..] == [];
      assert AllStepped(Stepped(s, a), []) == Stepped(s, a);
    } else {
      assert (acts + [a])[1..] == acts[1..] + [a];
      SteppedMore(Stepped(s, acts[0]), acts[1..], a);
    }
  }

  lemma {:induction false} SteppedInTwo(s: State, acts: seq<Action>, more: seq<Action>)
    ensures AllStepped(s, acts + more) == AllStepped(AllStepped(s, acts), more)
    decreases |acts|
  {
    if acts == [] {
      assert [] + more == more;
    } else {
      assert (acts + more)[1..] == acts[1..] + more;
      SteppedInTwo(Stepped(s, acts[0]), acts[1..], more);
    }
  }

  lemma SteppedOnce(s: State, a: Action)
    ensures AllStepped(s, [a]) == Stepped(s, a)
  {
    assert [a][1..] == [];
    assert AllStepped(Stepped(s, a), []) == Stepped(s, a);
  }

  lemma {:induction false} SteppedKeepsInv(s: State, acts: seq<Action>)
    requires Inv(s)
    ensures Inv(AllStepped(s, acts))
    decreases |acts|
  {
    if acts != [] {
      if Enabled(s, acts[0]) { StepKeepsInv(s, acts[0]); }
      SteppedKeepsInv(Stepped(s, acts[0]), acts[1..]);
    }
  }

  ghost predicate RunsTo(s: State, acts: seq<Action>, t: State) { IsRun(s, acts) && Exec(s, acts) == t }

  /** The steps that could be taken are a run. */
  lemma {:induction false} SteppedIsRun(s: State, acts: seq<Action>) returns (taken: seq<Action>)
    ensures RunsTo(s, taken, AllStepped(s, acts))
    decreases |acts|
  {
    if acts == [] {
      taken := [];
    } else {
      taken := SteppedIsRun(Stepped(s, acts[0]), acts[1..]);
      if Enabled(s, acts[0]) {
        var rest := taken;
        taken := [acts[0]] + rest;
        assert taken[1..] == rest;
      }
    }
  }

  /** A step of the task, and what others do after it. */
  lemma StepThenOthers(s: State, a: Action, t: State, acts: seq<Action>, u: State)
    requires t == Stepped(s, a) && u == AllStepped(t, acts)
    ensures u == AllStepped(s, [a] + acts)
  {
    SteppedOnce(s, a);
    SteppedInTwo(s, [a], acts);
  }

  function MomentAction(m: Moment): Action {
    match m
    case Turns(input) => ActionOf(input)
    case Acts(a) => a
  }

  /** Moment after moment, as long as the connection is served. */
  ghost function Played(s: State, script: seq<Moment>): State
    decreases |script|
  {
    if script == [] || s.pc != Serving then s else Played(Stepped(s, MomentAction(script[0])), script[1..])
  }

  function ClosingSteps(gaps: Gaps): seq<Action> { ([Silence] + gaps.silent) + ([Drain] + gaps.drained) }

  function BackoffSteps(gaps: Gaps, backoff: Backoff): seq<Action> {
    match backoff
    case Accepted => ([Reconnect] + gaps.met) + [FireUp]
    case Refused(lo, hi) => ([FireIncompatible(lo, hi)] + gaps.met) + [Leave]
  }

  /** What follows the end of a connection, in this order. */
  function StepsAfter(lost: bool, gaps: Gaps, backoff: Backoff): seq<Action> {
    ClosingSteps(gaps) + if lost then ([FireDown] + gaps.told) + BackoffSteps(gaps, backoff) else [Leave]
  }

  predicate GapsByOthers(gaps: Gaps) {
    AllByOthers(gaps.silent) && AllByOthers(gaps.drained) && AllByOthers(gaps.told) && AllByOthers(gaps.met)
  }

  predicate ScriptByOthers(script: seq<Moment>) {
    forall i :: 0 <= i < |script| && script[i].Acts? ==> ByOthers(script[i].a)
  }

  /** One connection: served over the script, and if it ended what the task does next. */
  ghost function Served(s: State, script: seq<Moment>, gaps: Gaps, backoff: Backoff): State {
    var t := Played(s, script);
    if t.pc.Ended? then AllStepped(t, StepsAfter(t.pc.lost, gaps, backoff)) else t
  }

  /** What is played is the steps of a beginning of the script. */
  lemma {:induction false} PlayedIsStepped(s: State, script: seq<Moment>) returns (acts: seq<Action>)
    ensures Played(s, script) == AllStepped(s, acts)
    decreases |script|
  {
    acts := [];
    if script != [] && s.pc == Serving {
      var rest := PlayedIsStepped(Stepped(s, MomentAction(script[0])), script[1..]);
      acts := [MomentAction(script[0])] + rest;
      assert acts[1..] == rest;
    }
  }

  /** Whatever the connection meets, whatever others do at any point and however the reconnect goes, what
      `connection_task` does is a run of the transition system; so all that holds over its runs holds
      here. */
  lemma ServedIsReachable(s: State, script: seq<Moment>, gaps: Gaps, backoff: Backoff)
    requires Reachable(s)
    ensures Reachable(Served(s, script, gaps, backoff))
  {
    var t := Played(s, script);
    var acts := PlayedIsStepped(s, script);
    if t.pc.Ended? {
      var after := StepsAfter(t.pc.lost, gaps, backoff);
      SteppedInTwo(s, acts, after);
      acts := acts + after;
    }
    var taken := SteppedIsRun(s, acts);
    var before :| IsRun(INITIAL, before) && Exec(INITIAL, before) == s;
    RunsOn(INITIAL, before, s, taken, Served(s, script, gaps, backoff));
  }

  lemma ServedKeepsInv(s: State, script: seq<Moment>, gaps: Gaps, backoff: Backoff)
    requires Inv(s)
    ensures Inv(Played(s, script)) && Inv(Served(s, script, gaps, backoff))
  {
    var acts := PlayedIsStepped(s, script);
    SteppedKeepsInv(s, acts);
    var t := Played(s, script);
    if t.pc.Ended? { SteppedKeepsInv(t, StepsAfter(t.pc.lost, gaps, backoff)); }
  }

  lemma {:induction false} RunsOn(s: State, acts: seq<Action>, t: State, more: seq<Action>, u: State)
    requires RunsTo(s, acts, t) && RunsTo(t, more, u)
    ensures RunsTo(s, acts + more, u)
    decreases |acts|
  {
    if acts == [] {
      assert [] + more == more;
    } else {
      assert (acts + more)[1..] == acts[1..] + more;
      RunsOn(Apply(s, acts[0]), acts[1..], t, more, u);
    }
  }

  class Client {
    const task: Task
    var live: bool
    /** Some handle on the client is left, and so a sender of the command channel. */
    var handle: bool
    /** The task has returned. */
    var closed: bool
    var conn: nat
    /** What the daemon has sent on each connection and nobody has read. */
    var inbox: map<nat, seq<Frame>>
    var calls: map<Call, CallPc>
    ghost var pc: TaskPc

    ghost function StateOf(): State
      reads this, task
    {
      State(pc, handle, live, conn, inbox, calls, task.FlowOf(), task.EventsOf())
    }

    ghost predicate Valid()
      reads this, task
    {
      task.Valid() && (closed <==> pc == Terminated)
    }

    constructor ()
      ensures Valid() && fresh(task) && StateOf() == INITIAL
    {
      task := new Task();
      live, handle, closed, conn, inbox, calls := true, true, false, 0, map[], map[];
      pc := Serving;
    }

    // ---- Callers, the daemon, observers ----

    method BeginCall(c: Call)
      requires Valid()
      modifies this`calls
      ensures Valid() && StateOf() == Stepped(old(StateOf()), Begin(c))
    {
      if handle && c !in calls {
        calls := calls[c := if live then Admitted else Finished(Down)];
      }
    }

    method SendCall(c: Call)
      requires Valid()
      modifies this`calls, task
      ensures Valid() && StateOf() == Stepped(old(StateOf()), Send(c))
    {
      if c in calls && calls[c] == Admitted {
        if closed {
          calls := calls[c := Finished(Down)];
        } else if |task.queue| < CMD_CHANNEL_CAP {
          task.Queue(c);
          calls := calls[c := Waiting];
        }
      }
    }

    method GiveUp(c: Call)
      requires Valid()
      modifies this`calls
      ensures Valid() && StateOf() == Stepped(old(StateOf()), GiveUpWaiting(c))
    {
      if c in calls && !calls[c].Finished? {
        calls := calls[c := Finished(Down)];
      }
    }

    method ReceiveReply(c: Call)
      requires Valid()
      modifies this`calls
      ensures Valid() && StateOf() == Stepped(old(StateOf()), Receive(c))
    {
      if c in calls && calls[c] == Waiting && c in task.slots && task.slots[c] != Empty {
        calls := calls[c := Finished(if task.slots[c].Filled? then ResultOf(task.slots[c].why) else Down)];
      }
    }

    method LetGo()
      requires Valid()
      modifies this`handle
      ensures Valid() && StateOf() == Stepped(old(StateOf()), DropHandle)
    {
      if forall c | c in calls :: calls[c].Finished? {
        handle := false;
      }
    }

    method Deliver(to: nat, frame: Frame)
      requires Valid()
      modifies this`inbox
      ensures Valid() && StateOf() == Stepped(old(StateOf()), DaemonSends(to, frame))
    {
      if to <= conn {
        inbox := inbox[to := (if to in inbox then inbox[to] else []) + [frame]];
      }
    }

    method Watch(o: Observer)
      requires Valid()
      modifies task
      ensures Valid() && StateOf() == Stepped(old(StateOf()), Observe(o))
    {
      if o !in task.callbacks {
        task.OnConn(o);
      }
    }

    method Act(a: Action)
      requires Valid() && ByOthers(a)
      modifies this`calls, this`handle, this`inbox, task
      ensures Valid() && StateOf() == Stepped(old(StateOf()), a)
    {
      match a {
        case Begin(c) => BeginCall(c);
        case Send(c) => SendCall(c);
        case GiveUpWaiting(c) => GiveUp(c);
        case Receive(c) => ReceiveReply(c);
        case DropHandle => LetGo();
        case DaemonSends(to, frame) => Deliver(to, frame);
        case Observe(o) => Watch(o);
      }
    }

    /** Others act, one after another. */
    method ActAll(acts: seq<Action>)
      requires Valid() && AllByOthers(acts)
      modifies this`calls, this`handle, this`inbox, task
      ensures Valid() && StateOf() == AllStepped(old(StateOf()), acts)
    {
      var i := 0;
      while i < |acts|
        invariant 0 <= i <= |acts|
        invariant Valid() && StateOf() == AllStepped(old(StateOf()), acts[..i])
      {
        SteppedMore(old(StateOf()), acts[..i], acts[i]);
        assert acts[..i] + [acts[i]] == acts[..i + 1];
        Act(acts[i]);
        i := i + 1;
      }
      assert acts[..i] == acts;
    }

    // ---- The task ----

    /** One turn of the select loop: it is the step of `Connection` that its input stands for. */
    method Turn(input: Input) returns (end: Option<LoopEnd>)
      requires Valid() && pc == Serving
      modifies this`inbox, this`pc, task
      ensures Valid() && StateOf() == Stepped(old(StateOf()), ActionOf(input))
      ensures pc == if end.None? then Serving else Ended(end.value.ConnectionLost?)
    {
      end := None;
      match input {
        case Ready(encoded) =>
          if task.queue != [] {
            var lost := task.RunCommand(conn, encoded);
            if lost {
              end := Some(ConnectionLost);
            }
          }
        case Arrived =>
          var frames := if conn in inbox then inbox[conn] else [];
          if frames != [] {
            inbox := inbox[conn := frames[1..]];
            task.RunFrame(conn, frames[0]);
          }
        case Broken =>
          end := Some(ConnectionLost);
        case HandleGone =>
          if !handle && task.queue == [] {
            end := Some(LoopEnd.ClientDropped);
          }
      }
      pc := if end.None? then Serving else Ended(end.value.ConnectionLost?);
    }

    /** `run_connection`, over whatever it meets and whatever others do meanwhile. */
    method RunConnection(script: seq<Moment>) returns (end: Option<LoopEnd>)
      requires Valid() && pc == Serving && ScriptByOthers(script)
      modifies this`calls, this`handle, this`inbox, this`pc, task
      ensures Valid() && StateOf() == Played(old(StateOf()), script)
      ensures pc == if end.None? then Serving else Ended(end.value.ConnectionLost?)
    {
      end := None;
      var i := 0;
      while i < |script| && end.None?
        invariant 0 <= i <= |script|
        invariant Valid() && Played(StateOf(), script[i..]) == Played(old(StateOf()), script)
        invariant pc == if end.None? then Serving else Ended(end.value.ConnectionLost?)
      {
        assert script[i..][1..] == script[i + 1..];
        match script[i] {
          case Acts(a) => Act(a);
          case Turns(input) => end := Turn(input);
        }
        i := i + 1;
      }
    }

    method GoSilent()
      requires Valid() && pc.Ended?
      modifies this`live, this`pc
      ensures Valid() && StateOf() == Stepped(old(StateOf()), Silence) && pc == Silenced(old(pc.lost))
    {
      live := false;
      pc := Silenced(pc.lost);
    }

    method DrainMap()
      requires Valid() && pc.Silenced? && Inv(StateOf())
      modifies this`pc, task
      ensures Valid() && StateOf() == Stepped(old(StateOf()), Drain) && pc == Cleared(old(pc.lost))
    {
      PendingCalls(task.FlowOf(), conn, true);
      task.DrainAll();
      pc := Cleared(pc.lost);
    }

    method TellDown()
      requires Valid() && pc == Cleared(true)
      modifies this`pc, task
      ensures Valid() && StateOf() == Stepped(old(StateOf()), FireDown) && pc == Connecting
    {
      task.FireConn(Disconnected);
      pc := Connecting;
    }

    method TakeConnection()
      requires Valid() && pc == Connecting
      modifies this`conn, this`live, this`pc
      ensures Valid() && StateOf() == Stepped(old(StateOf()), Reconnect) && pc == Reconnected
    {
      conn := conn + 1;
      live := true;
      pc := Reconnected;
    }

    method TellUp()
      requires Valid() && pc == Reconnected
      modifies this`pc, task
      ensures Valid() && StateOf() == Stepped(old(StateOf()), FireUp) && pc == Serving
    {
      task.FireConn(Connected);
      pc := Serving;
    }

    method TellIncompatible(lo: nat, hi: nat)
      requires Valid() && pc == Connecting
      modifies this`pc, task
      ensures Valid() && StateOf() == Stepped(old(StateOf()), FireIncompatible(lo, hi)) && pc == Leaving
    {
      task.FireConn(Incompatible(lo, hi));
      pc := Leaving;
    }

    method Return()
      requires Valid() && (pc == Cleared(false) || pc == Leaving)
      modifies this`closed, this`pc, task
      ensures Valid() && StateOf() == AllStepped(old(StateOf()), [Leave]) && pc == Terminated
    {
      SteppedOnce(StateOf(), Leave);
      task.Close();
      closed := true;
      pc := Terminated;
    }

    // ---- Each critical section, and what others do after it ----

    method SilentThen(others: seq<Action>)
      requires Valid() && pc.Ended? && AllByOthers(others)
      modifies this, task
      ensures Valid() && StateOf() == AllStepped(old(StateOf()), [Silence] + others) && pc == Silenced(old(pc.lost))
    {
      ghost var s := StateOf();
      GoSilent();
      ghost var t := StateOf();
      ActAll(others);
      StepThenOthers(s, Silence, t, others, StateOf());
    }

    method DrainThen(others: seq<Action>)
      requires Valid() && pc.Silenced? && Inv(StateOf()) && AllByOthers(others)
      modifies this, task
      ensures Valid() && StateOf() == AllStepped(old(StateOf()), [Drain] + others) && pc == Cleared(old(pc.lost))
    {
      ghost var s := StateOf();
      DrainMap();
      ghost var t := StateOf();
      ActAll(others);
      StepThenOthers(s, Drain, t, others, StateOf());
    }

    method TellDownThen(others: seq<Action>)
      requires Valid() && pc == Cleared(true) && AllByOthers(others)
      modifies this, task
      ensures Valid() && StateOf() == AllStepped(old(StateOf()), [FireDown] + others) && pc == Connecting
    {
      ghost var s := StateOf();
      TellDown();
      ghost var t := StateOf();
      ActAll(others);
      StepThenOthers(s, FireDown, t, others, StateOf());
    }

    method TakeConnectionThen(others: seq<Action>)
      requires Valid() && pc == Connecting && AllByOthers(others)
      modifies this, task
      ensures Valid() && StateOf() == AllStepped(old(StateOf()), [Reconnect] + others) && pc == Reconnected
    {
      ghost var s := StateOf();
      TakeConnection();
      ghost var t := StateOf();
      ActAll(others);
      StepThenOthers(s, Reconnect, t, others, StateOf());
    }

    method TellIncompatibleThen(lo: nat, hi: nat, others: seq<Action>)
      requires Valid() && pc == Connecting && AllByOthers(others)
      modifies this, task
      ensures Valid() && StateOf() == AllStepped(old(StateOf()), [FireIncompatible(lo, hi)] + others) && pc == Leaving
    {
      ghost var s := StateOf();
      TellIncompatible(lo, hi);
      ghost var t := StateOf();
      ActAll(others);
      StepThenOthers(s, FireIncompatible(lo, hi), t, others, StateOf());
    }

    // ---- `connection_task` ----

    /** `live` goes false, and the map is drained. */
    method CloseDown(gaps: Gaps)
      requires Valid() && pc.Ended? && Inv(StateOf()) && GapsByOthers(gaps)
      modifies this, task
      ensures Valid() && StateOf() == AllStepped(old(StateOf()), ClosingSteps(gaps))
      ensures pc == Cleared(old(pc.lost))
    {
      SteppedKeepsInv(StateOf(), [Silence] + gaps.silent);
      SteppedInTwo(StateOf(), [Silence] + gaps.silent, [Drain] + gaps.drained);
      SilentThen(gaps.silent);
      DrainThen(gaps.drained);
    }

    /** What comes of `connect_with_backoff`. */
    method Resume(gaps: Gaps, backoff: Backoff)
      requires Valid() && pc == Connecting && GapsByOthers(gaps)
      modifies this, task
      ensures Valid() && StateOf() == AllStepped(old(StateOf()), BackoffSteps(gaps, backoff))
      ensures pc == if backoff.Accepted? then Serving else Terminated
    {
      match backoff {
        case Accepted =>
          SteppedMore(StateOf(), [Reconnect] + gaps.met, FireUp);
          TakeConnectionThen(gaps.met);
          TellUp();
        case Refused(lo, hi) =>
          SteppedInTwo(StateOf(), [FireIncompatible(lo, hi)] + gaps.met, [Leave]);
          TellIncompatibleThen(lo, hi, gaps.met);
          Return();
      }
    }

    /** After a lost connection: tell, and reconnect or give up. */
    method Recover(gaps: Gaps, backoff: Backoff)
      requires Valid() && pc == Cleared(true) && GapsByOthers(gaps)
      modifies this, task
      ensures Valid()
      ensures StateOf() == AllStepped(old(StateOf()), ([FireDown] + gaps.told) + BackoffSteps(gaps, backoff))
      ensures pc == if backoff.Accepted? then Serving else Terminated
    {
      SteppedInTwo(StateOf(), [FireDown] + gaps.told, BackoffSteps(gaps, backoff));
      TellDownThen(gaps.told);
      Resume(gaps, backoff);
    }

    /** After the end of a connection: the task leaves with its client, or recovers. */
    method EndConnection(end: LoopEnd, gaps: Gaps, backoff: Backoff)
      requires Valid() && pc == Ended(end.ConnectionLost?) && Inv(StateOf()) && GapsByOthers(gaps)
      modifies this, task
      ensures Valid() && StateOf() == AllStepped(old(StateOf()), StepsAfter(end.ConnectionLost?, gaps, backoff))
      ensures pc == if end.ConnectionLost? && backoff.Accepted? then Serving else Terminated
    {
      if end == LoopEnd.ClientDropped {
        SteppedInTwo(StateOf(), ClosingSteps(gaps), [Leave]);
        CloseDown(gaps);
        Return();
      } else {
        SteppedInTwo(StateOf(), ClosingSteps(gaps), ([FireDown] + gaps.told) + BackoffSteps(gaps, backoff));
        CloseDown(gaps);
        Recover(gaps, backoff);
      }
    }

    /** One turn of `connection_task`'s loop. The task returns exactly if the client is gone or the daemon
        became incompatible. */
    method Serve(script: seq<Moment>, gaps: Gaps, backoff: Backoff)
      requires Valid() && pc == Serving && Inv(StateOf()) && ScriptByOthers(script) && GapsByOthers(gaps)
      modifies this, task
      ensures Valid() && StateOf() == Served(old(StateOf()), script, gaps, backoff)
      ensures Inv(StateOf())
      ensures var t := Played(old(StateOf()), script);
              closed <==> t.pc.Ended? && (t.pc.lost ==> backoff.Refused?)
    {
      ServedKeepsInv(StateOf(), script, gaps, backoff);
      var end := RunConnection(script);
      if end.Some? {
        EndConnection(end.value, gaps, backoff);
      }
    }
  }
}
