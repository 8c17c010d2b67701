/** Where replies come from, and what becomes of a request: the ways it can go, as runs from any state. */
module ConnectionAnswers {
  import opened Connection

  // ---- Every reply was sent by the daemon ----

  /** What the daemon sends in a run, and on which connection. */
  function Sends(acts: seq<Action>): set<(nat, Frame)> {
    set i | 0 <= i < |acts| && acts[i].DaemonSends? :: (acts[i].to, acts[i].frame)
  }

  /** What is unread, and every answer given, was sent. */
  ghost predicate FromDaemon(s: State, sent: set<(nat, Frame)>) {
    UnreadFrom(s.inbox, sent) && AnswersFrom(s.flow.slots, sent)
  }

  ghost predicate UnreadFrom(inbox: map<nat, seq<Frame>>, sent: set<(nat, Frame)>) {
    forall k, i :: k in inbox && 0 <= i < |inbox[k]| ==> (k, inbox[k][i]) in sent
  }

  ghost predicate AnswersFrom(slots: map<Call, Slot>, sent: set<(nat, Frame)>) {
    forall c :: c in slots ==> AnswerFrom(slots[c], sent)
  }

  predicate AnswerFrom(slot: Slot, sent: set<(nat, Frame)>) {
    slot.Filled? && slot.why.Answered? ==> (slot.why.conn, Response(slot.why.id, slot.why.res)) in sent
  }

  lemma StepUnread(s: State, a: Action, sent: set<(nat, Frame)>, more: set<(nat, Frame)>)
    requires UnreadFrom(s.inbox, sent) && Enabled(s, a) && sent <= more
    requires a.DaemonSends? ==> (a.to, a.frame) in more
    ensures UnreadFrom(Apply(s, a).inbox, more)
  {
    if !a.TakeFrame? && !a.DaemonSends? { assert Apply(s, a).inbox == s.inbox; }
  }

  lemma FrameAnswers(f: Flow, conn: nat, frame: Frame, sent: set<(nat, Frame)>)
    requires AnswersFrom(f.slots, sent) && (conn, frame) in sent
    ensures AnswersFrom(OnFrame(f, conn, frame).slots, sent)
  {
  }

  lemma StepAnswers(s: State, a: Action, sent: set<(nat, Frame)>, more: set<(nat, Frame)>)
    requires FromDaemon(s, sent) && Enabled(s, a) && sent <= more
    ensures AnswersFrom(Apply(s, a).flow.slots, more)
  {
    if a.TakeFrame? {
      assert (s.conn, Inbox(s, s.conn)[0]) in sent;
      FrameAnswers(s.flow, s.conn, Inbox(s, s.conn)[0], sent);
    } else if !TouchesFlow(a) {
      assert Apply(s, a).flow == s.flow;
    }
  }

  lemma {:induction false} RunFromDaemon(s: State, acts: seq<Action>, sent: set<(nat, Frame)>)
    requires FromDaemon(s, sent) && IsRun(s, acts)
    ensures FromDaemon(Exec(s, acts), sent + Sends(acts))
    decreases |acts|
  {
    if acts != [] {
      var a, rest := acts[0], acts[1..];
      var more := if a.DaemonSends? then sent + {(a.to, a.frame)} else sent;
      StepUnread(s, a, sent, more);
      StepAnswers(s, a, sent, more);
      RunFromDaemon(Apply(s, a), rest, more);
      assert forall i :: 0 <= i < |rest| ==> rest[i] == acts[i + 1];
      assert more + Sends(rest) <= sent + Sends(acts);
      Widens(Exec(s, acts), more + Sends(rest), sent + Sends(acts));
    }
  }

  lemma Widens(s: State, sent: set<(nat, Frame)>, more: set<(nat, Frame)>)
    requires FromDaemon(s, sent) && sent <= more
    ensures FromDaemon(s, more)
  {
  }

  /** Over every run, the reply a caller holds is what the daemon sent under that caller's id on the
      connection its request was taken on. */
  lemma RepliesWereSent(acts: seq<Action>, c: Call)
    requires IsRun(INITIAL, acts)
    requires c in Exec(INITIAL, acts).calls && Exec(INITIAL, acts).calls[c].Finished?
    requires Exec(INITIAL, acts).calls[c].out.Reply?
    ensures var s := Exec(INITIAL, acts);
            exists i: nat, k: nat :: i < |s.flow.dequeued| && i < |s.flow.takenOn| && s.flow.dequeued[i] == c
                           && k < |acts|
                           && acts[k] == DaemonSends(s.flow.takenOn[i], Response(i + 1, s.calls[c].out.res))
  {
    var s := Exec(INITIAL, acts);
    ReplyIsItsOwn(s, c);
    var i: nat :| AnsweredAs(s.flow, i, c, s.calls[c].out.res);
    RunFromDaemon(INITIAL, acts, {});
    assert AnswerFrom(s.flow.slots[c], {} + Sends(acts));
    var k: nat :| k < |acts| && acts[k].DaemonSends?
             && (acts[k].to, acts[k].frame) == (s.flow.takenOn[i], Response(i + 1, s.calls[c].out.res));
    assert acts[k] == DaemonSends(s.flow.takenOn[i], Response(i + 1, s.calls[c].out.res));
  }

  // ---- Frames are read in the order they were sent ----

  function SentOn(acts: seq<Action>, k: nat): seq<Frame> {
    if acts == [] then []
    else (if acts[0].DaemonSends? && acts[0].to == k then [acts[0].frame] else []) + SentOn(acts[1..], k)
  }

  /** How many frames the run reads from connection k. */
  ghost function ReadsOn(s: State, acts: seq<Action>, k: nat): nat
    requires IsRun(s, acts)
    decreases |acts|
  {
    if acts == [] then 0
    else (if acts[0].TakeFrame? && s.conn == k then 1 else 0) + ReadsOn(Apply(s, acts[0]), acts[1..], k)
  }

  lemma StepInbox(s: State, a: Action, k: nat)
    requires Enabled(s, a)
    ensures Inbox(Apply(s, a), k) ==
              if a.DaemonSends? && a.to == k then Inbox(s, k) + [a.frame]
              else if a.TakeFrame? && s.conn == k then Inbox(s, k)[1..] else Inbox(s, k)
  {
  }

  lemma OneMoment(before: seq<Frame>, mine: seq<Frame>, after: seq<Frame>, later: seq<Frame>, read: bool, n: nat)
    requires n <= |after + later|
    requires if read then mine == [] && before != [] && after == before[1..] else after == before + mine
    ensures var r := n + if read then 1 else 0;
            r <= |before + (mine + later)| && (after + later)[n..] == (before + (mine + later))[r..]
  {
    if read {
      assert after + later == (before + (mine + later))[1..];
    } else {
      assert after + later == before + (mine + later);
    }
  }

  /** What is unread on a connection is what was sent on it after as many frames as were read. */
  lemma {:induction false} ReadInOrder(s: State, acts: seq<Action>, k: nat)
    requires IsRun(s, acts)
    ensures ReadsOn(s, acts, k) <= |Inbox(s, k) + SentOn(acts, k)|
    ensures Inbox(Exec(s, acts), k) == (Inbox(s, k) + SentOn(acts, k))[ReadsOn(s, acts, k)..]
    decreases |acts|
  {
    if acts != [] {
      var t, rest := Apply(s, acts[0]), acts[1..];
      var mine := if acts[0].DaemonSends? && acts[0].to == k then [acts[0].frame] else [];
      StepInbox(s, acts[0], k);
      ReadInOrder(t, rest, k);
      OneMoment(Inbox(s, k), mine, Inbox(t, k), SentOn(rest, k), acts[0].TakeFrame? && s.conn == k,
                ReadsOn(t, rest, k));
    }
  }

  // ---- What becomes of a request ----

  lemma StepThen(s: State, a: Action, rest: seq<Action>)
    requires Enabled(s, a) && IsRun(Apply(s, a), rest)
    ensures IsRun(s, [a] + rest) && Exec(s, [a] + rest) == Exec(Apply(s, a), rest)
  {
    assert ([a] + rest)[1..] == rest;
  }

  lemma TwoSteps(s: State, a: Action, b: Action)
    requires Enabled(s, a) && Enabled(Apply(s, a), b)
    ensures IsRun(s, [a, b]) && Exec(s, [a, b]) == Apply(Apply(s, a), b)
  {
    assert IsRun(Apply(Apply(s, a), b), []);
    StepThen(Apply(s, a), b, []);
    StepThen(s, a, [b] + []);
    assert [a, b] == [a] + ([b] + []);
  }

  lemma ThreeSteps(s: State, a: Action, b: Action, c: Action)
    requires Enabled(s, a) && Enabled(Apply(s, a), b) && Enabled(Apply(Apply(s, a), b), c)
    ensures IsRun(s, [a, b, c]) && Exec(s, [a, b, c]) == Apply(Apply(Apply(s, a), b), c)
  {
    var t, u := Apply(s, a), Apply(Apply(s, a), b);
    assert IsRun(Apply(u, c), []);
    StepThen(u, c, []);
    StepThen(t, b, [c] + []);
    StepThen(s, a, [b] + ([c] + []));
    assert [a, b, c] == [a] + ([b] + ([c] + []));
  }

  /** A served client with nothing else under way. */
  ghost predicate Idle(s: State) {
    Reachable(s) && s.pc == Serving && s.handle && s.flow.queue == [] && Inbox(s, s.conn) == []
  }

  lemma {:induction false} RunReachable(s: State, acts: seq<Action>)
    requires Reachable(s) && IsRun(s, acts)
    ensures Reachable(Exec(s, acts))
    decreases |acts|
  {
    if acts != [] {
      ReachableStep(s, acts[0]);
      RunReachable(Apply(s, acts[0]), acts[1..]);
    }
  }

  lemma IdsCount(s: State)
    requires Reachable(s)
    ensures s.flow.nextId == |s.flow.dequeued| + 1
    ensures s.pc == Serving ==> s.live
  {
    ReachableInv(s);
  }

  lemma RequestSteps(s: State, c: Call, e: Encoded)
    requires Idle(s) && s.live && c !in s.calls
    ensures var acts := [Begin(c), Send(c), TakeCommand(e)];
            IsRun(s, acts) && Exec(s, acts) == Apply(Apply(Apply(s, Begin(c)), Send(c)), TakeCommand(e))
  {
    ThreeSteps(s, Begin(c), Send(c), TakeCommand(e));
  }

  /** A request is admitted, queued, numbered and written on the current connection. */
  lemma RequestIsWritten(s: State, c: Call)
    requires Idle(s) && c !in s.calls
    ensures IsRun(s, [Begin(c), Send(c), TakeCommand(Written)])
    ensures var t := Exec(s, [Begin(c), Send(c), TakeCommand(Written)]);
            && Idle(t) && t.conn == s.conn && t.calls == s.calls[c := Waiting]
            && t.flow.written == s.flow.written + [Sent(s.conn, s.flow.nextId)]
            && t.flow.dequeued == s.flow.dequeued + [c] && |t.flow.dequeued| == s.flow.nextId
            && t.flow.pending == s.flow.pending[s.flow.nextId := c]
  {
    IdsCount(s);
    RequestSteps(s, c, Written);
    RunReachable(s, [Begin(c), Send(c), TakeCommand(Written)]);
    assert s.flow.queue + [c] == [c];
  }

  /** The daemon's response to it reaches that caller. */
  lemma ReplyReachesCaller(s: State, id: nat, res: DaemonReply)
    requires Idle(s) && id in s.flow.pending && s.flow.pending[id] in s.calls && s.calls[s.flow.pending[id]] == Waiting
    ensures var acts := [DaemonSends(s.conn, Response(id, res)), TakeFrame, Receive(s.flow.pending[id])];
            && IsRun(s, acts) && Idle(Exec(s, acts))
            && Exec(s, acts).calls == s.calls[s.flow.pending[id] := Finished(Reply(res))]
            && Exec(s, acts).flow.pending == s.flow.pending - {id}
  {
    var c, a := s.flow.pending[id], DaemonSends(s.conn, Response(id, res));
    var t := Apply(s, a);
    ReachableStep(s, a);
    ResponseIsDelivered(t, id, res);
    ReachableStep(t, TakeFrame);
    ReachableStep(Apply(t, TakeFrame), Receive(c));
    ThreeSteps(s, a, TakeFrame, Receive(c));
  }

  lemma FourSteps(s: State, a: Action, b: Action, c: Action, d: Action)
    requires Enabled(s, a)
    requires var t := Apply(s, a); IsRun(t, [b, c, d])
    ensures IsRun(s, [a, b, c, d]) && Exec(s, [a, b, c, d]) == Exec(Apply(s, a), [b, c, d])
  {
    StepThen(s, a, [b, c, d]);
    assert [a, b, c, d] == [a] + [b, c, d];
  }

  /** A request that cannot be encoded fails alone, as too large if that is why. */
  lemma LocalFailureReachesCaller(s: State, c: Call, tooLarge: bool)
    requires Idle(s) && c !in s.calls
    ensures var acts := [Begin(c), Send(c), TakeCommand(Unencodable(tooLarge)), Receive(c)];
            && IsRun(s, acts)
            && Exec(s, acts).calls == s.calls[c := Finished(if tooLarge then RequestTooLarge else Down)]
            && Exec(s, acts).pc == Serving && Exec(s, acts).flow.pending == s.flow.pending
            && Exec(s, acts).flow.written == s.flow.written
  {
    ReachableInv(s);
    var t := Apply(s, Begin(c));
    ThreeSteps(t, Send(c), TakeCommand(Unencodable(tooLarge)), Receive(c));
    FourSteps(s, Begin(c), Send(c), TakeCommand(Unencodable(tooLarge)), Receive(c));
  }

  // ---- What becomes of a connection ----

  /** Every observer has heard one thing more. */
  ghost predicate AllHeard(s: State, t: State, st: ConnState) {
    && t.events.current == st
    && t.events.observers.Keys == s.events.observers.Keys
    && forall o :: o in s.events.observers ==> t.events.observers[o].seen == s.events.observers[o].seen + [st]
  }

  /** A failed read and a failed write both lose the connection; the request of a failed write is pending, so
      that the drain ends it, and not counted as written. */
  lemma FailuresLoseConnection(s: State)
    requires s.pc == Serving
    ensures Apply(s, ReadFails) == s.(pc := Ended(true))
    ensures s.flow.queue != [] ==>
              var t := Apply(s, TakeCommand(WriteFailed));
              && t.pc == Ended(true) && t.flow.written == s.flow.written
              && t.flow.pending == s.flow.pending[s.flow.nextId := s.flow.queue[0]]
  {
  }

  /** If that caller still waits, its call can end, as disconnected. */
  ghost predicate EndsDown(t: State, c: Call) {
    c in t.calls && t.calls[c] == Waiting ==>
      Enabled(t, Receive(c)) && Apply(t, Receive(c)).calls[c] == Finished(Down)
  }

  lemma StaysEnding(s: State, t: State, c: Call)
    requires EndsDown(s, c) && t.calls == s.calls && t.flow == s.flow
    ensures EndsDown(t, c)
  {
  }

  lemma DrainedEndDown(s: State, id: nat)
    requires Inv(s) && s.pc.Silenced? && id in s.flow.pending
    ensures EndsDown(Apply(s, Drain), s.flow.pending[id])
  {
    PendingCall(s.flow, s.conn, true, id);
    assert s.flow.pending[id] in s.flow.pending.Values;
  }

  lemma DroppedEndDown(s: State, c: Call)
    requires Inv(s) && s.pc == Leaving && c in s.flow.queue
    ensures EndsDown(Apply(s, Leave), c)
  {
  }

  lemma LossSteps(s: State)
    requires Reachable(s) && s.pc == Ended(true)
    ensures IsRun(s, [Silence, Drain, FireDown])
    ensures Exec(s, [Silence, Drain, FireDown]) == Apply(Apply(Apply(s, Silence), Drain), FireDown)
  {
    ThreeSteps(s, Silence, Drain, FireDown);
  }

  lemma LossEndsCalls(s: State, id: nat)
    requires Reachable(s) && s.pc == Ended(true) && id in s.flow.pending
    ensures IsRun(s, [Silence, Drain, FireDown])
    ensures EndsDown(Exec(s, [Silence, Drain, FireDown]), s.flow.pending[id])
  {
    LossSteps(s);
    ReachableInv(s);
    var t := Apply(s, Silence);
    StepKeepsInv(s, Silence);
    DrainedEndDown(t, id);
    StaysEnding(Apply(t, Drain), Apply(Apply(t, Drain), FireDown), s.flow.pending[id]);
  }

  lemma GivingUpEndsCalls(s: State, lo: nat, hi: nat, c: Call)
    requires Reachable(s) && s.pc == Connecting && c in s.flow.queue
    ensures IsRun(s, [FireIncompatible(lo, hi), Leave])
    ensures EndsDown(Exec(s, [FireIncompatible(lo, hi), Leave]), c)
  {
    TwoSteps(s, FireIncompatible(lo, hi), Leave);
    ReachableInv(s);
    StepKeepsInv(s, FireIncompatible(lo, hi));
    DroppedEndDown(Apply(s, FireIncompatible(lo, hi)), c);
  }

  /** A lost connection: calls are refused, what was pending ends as disconnected, and observers hear
      of it. */
  lemma LossIsTold(s: State)
    requires Reachable(s) && s.pc == Ended(true)
    ensures IsRun(s, [Silence, Drain, FireDown])
    ensures var t := Exec(s, [Silence, Drain, FireDown]);
            && t.pc == Connecting && !t.live && t.calls == s.calls && t.flow.pending == map[]
            && AllHeard(s, t, Disconnected)
            && (forall id :: id in s.flow.pending ==> EndsDown(t, s.flow.pending[id]))
  {
    LossSteps(s);
    forall id | id in s.flow.pending ensures EndsDown(Exec(s, [Silence, Drain, FireDown]), s.flow.pending[id]) {
      LossEndsCalls(s, id);
    }
  }

  /** A new connection is told and served, and the requests queued meanwhile are still there. */
  lemma ReconnectIsTold(s: State)
    requires Reachable(s) && s.pc == Connecting
    ensures IsRun(s, [Reconnect, FireUp])
    ensures var t := Exec(s, [Reconnect, FireUp]);
            && t.pc == Serving && t.live && t.conn == s.conn + 1 && t.flow == s.flow && t.calls == s.calls
            && AllHeard(s, t, Connected)
  {
    TwoSteps(s, Reconnect, FireUp);
  }

  lemma DownWhileConnecting(s: State)
    requires Reachable(s) && s.pc == Connecting
    ensures !s.live
  {
    ReachableInv(s);
  }

  /** An incompatible daemon is told with its range, the task returns, and queued calls end. */
  lemma IncompatibleIsTold(s: State, lo: nat, hi: nat)
    requires Reachable(s) && s.pc == Connecting
    ensures IsRun(s, [FireIncompatible(lo, hi), Leave])
    ensures var t := Exec(s, [FireIncompatible(lo, hi), Leave]);
            && t.pc == Terminated && !t.live && t.flow.queue == []
            && AllHeard(s, t, Incompatible(lo, hi))
            && (forall c :: c in s.flow.queue ==> EndsDown(t, c))
  {
    TwoSteps(s, FireIncompatible(lo, hi), Leave);
    DownWhileConnecting(s);
    forall c | c in s.flow.queue ensures EndsDown(Exec(s, [FireIncompatible(lo, hi), Leave]), c) {
      GivingUpEndsCalls(s, lo, hi, c);
    }
  }

  /** When the last handle is gone the task returns and nobody is told anything. */
  lemma LeavingIsSilent(s: State)
    requires Reachable(s) && s.pc == Serving && !s.handle && s.flow.queue == []
    ensures IsRun(s, [ClientDropped, Silence, Drain, Leave])
    ensures var t := Exec(s, [ClientDropped, Silence, Drain, Leave]);
            t.pc == Terminated && !t.live && t.events == s.events && t.flow.pending == map[]
  {
    var t := Apply(s, ClientDropped);
    ThreeSteps(t, Silence, Drain, Leave);
    FourSteps(s, ClientDropped, Silence, Drain, Leave);
  }

  /** A new observer is told the present state and nothing before it. */
  lemma RegistrationReplays(s: State, o: Observer)
    requires Enabled(s, Observe(o))
    ensures var t := Apply(s, Observe(o));
            && o in t.events.observers && t.events.observers[o].seen == [s.events.current]
            && t.events.current == s.events.current
            && (forall p :: p in s.events.observers ==>
                  p in t.events.observers && t.events.observers[p] == s.events.observers[p])
  {
  }

  /** A live client admits a call and one that is down does not; a call given up ends as disconnected, and
      at most 256 requests wait in the channel. */
  lemma AdmissionIs(s: State, c: Call)
    requires Reachable(s)
    ensures Enabled(s, Begin(c)) ==> Apply(s, Begin(c)).calls[c] == if s.live then Admitted else Finished(Down)
    ensures Enabled(s, GiveUpWaiting(c)) ==> Apply(s, GiveUpWaiting(c)).calls[c] == Finished(Down)
    ensures s.pc != Terminated && c in s.calls && s.calls[c] == Admitted ==>
              (Enabled(s, Send(c)) <==> |s.flow.queue| < 256)
    ensures |s.flow.queue| <= 256
  {
    var acts :| IsRun(INITIAL, acts) && Exec(INITIAL, acts) == s;
    QueueBounded(INITIAL, acts);
  }

  lemma StepQueue(s: State, a: Action)
    requires |s.flow.queue| <= 256 && Enabled(s, a)
    ensures |Apply(s, a).flow.queue| <= 256
  {
  }

  lemma {:induction false} QueueBounded(s: State, acts: seq<Action>)
    requires |s.flow.queue| <= 256 && IsRun(s, acts)
    ensures |Exec(s, acts).flow.queue| <= 256
    decreases |acts|
  {
    if acts != [] {
      StepQueue(s, acts[0]);
      QueueBounded(Apply(s, acts[0]), acts[1..]);
    }
  }
}
