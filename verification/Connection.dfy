/** The connection to the orchestration daemon as a transition system.

    One task owns the socket, the correlation map and the id counter; any number of callers run
    `request_inner` beside it, the daemon sends what it likes on any connection it ever had, and
    observers register whenever they like.  Every action below is one step that no other step can
    interrupt; a run is any sequence of enabled actions. */
module Connection {
  import opened Wrappers

  type Call = nat
  type Observer = nat

  const CMD_CHANNEL_CAP := 256

  // ---- Values ----

  datatype DaemonReply = Fine(body: int) | ErrorReply(code: int)

  datatype Frame = Response(id: nat, res: DaemonReply) | Push(body: int) | StrayRequest(id: nat)

  datatype ConnState = Connected | Disconnected | Incompatible(min: nat, max: nat)

  /** What `request` returns: the daemon's reply (its `Error` variant included), or a local failure. */
  datatype Outcome = Reply(res: DaemonReply) | Down | RequestTooLarge

  /** Why a request's reply channel was resolved. */
  datatype Resolution =
    | EncodeFailed(tooLarge: bool)
    | Answered(id: nat, conn: nat, res: DaemonReply)
    | Drained

  /** A request's reply channel; `Dropped` is a sender that went away without sending. */
  datatype Slot = Empty | Filled(why: Resolution) | Dropped

  function ResultOf(r: Resolution): Outcome {
    match r
    case EncodeFailed(tooLarge) => if tooLarge then RequestTooLarge else Down
    case Answered(_, _, res) => Reply(res)
    case Drained => Down
  }

  // ---- The requests: command channel, correlation map, reply channels ----

  /** A request frame written whole: on which connection, under which id. */
  datatype Sent = Sent(conn: nat, id: nat)

  /** `enqueued`, `dequeued`, `takenOn` and `written` are history: every call ever queued, every call
      ever taken from the queue, the connection each of those was taken on, and every request frame
      written. */
  datatype Flow = Flow(
    nextId: nat,
    pending: map<nat, Call>,
    queue: seq<Call>,
    slots: map<Call, Slot>,
    enqueued: seq<Call>,
    dequeued: seq<Call>,
    takenOn: seq<nat>,
    written: seq<Sent>)

  /** How encoding and writing one request went. */
  datatype Encoded = Written | WriteFailed | Unencodable(tooLarge: bool)

  function Enqueue(f: Flow, c: Call): Flow {
    f.(slots := f.slots[c := Empty], queue := f.queue + [c], enqueued := f.enqueued + [c])
  }

  /** Take the next command: allocate its id, then either fail it alone or make it pending. */
  function Take(f: Flow, conn: nat, e: Encoded): Flow
    requires f.queue != []
  {
    var c := f.queue[0];
    var taken := f.(nextId := f.nextId + 1, queue := f.queue[1..],
                    dequeued := f.dequeued + [c], takenOn := f.takenOn + [conn]);
    match e
    case Unencodable(tooLarge) => taken.(slots := f.slots[c := Filled(EncodeFailed(tooLarge))])
    case WriteFailed => taken.(pending := f.pending[f.nextId := c])
    case Written => taken.(pending := f.pending[f.nextId := c], written := f.written + [Sent(conn, f.nextId)])
  }

  /** A response frame: resolve the call under its id, or drop the frame. */
  function Answer(f: Flow, conn: nat, id: nat, res: DaemonReply): Flow {
    if id in f.pending then
      f.(pending := f.pending - {id}, slots := f.slots[f.pending[id] := Filled(Answered(id, conn, res))])
    else f
  }

  function Fill(slots: map<Call, Slot>, cs: set<Call>, slot: Slot): map<Call, Slot> {
    map c | c in slots :: if c in cs then slot else slots[c]
  }

  function DrainPending(f: Flow): Flow {
    f.(pending := map[], slots := Fill(f.slots, f.pending.Values, Filled(Drained)))
  }

  function DropQueue(f: Flow): Flow {
    f.(queue := [], slots := Fill(f.slots, (set c | c in f.queue), Dropped))
  }

  // ---- The invariant of the requests ----

  ghost predicate Distinct(s: seq<Call>) {
    forall i, j :: 0 <= i < j < |s| ==> s[i] != s[j]
  }

  /** First in, first out; a call goes through the channel at most once. */
  ghost predicate OrderOk(f: Flow, open: bool) {
    && Distinct(f.enqueued)
    && f.dequeued + f.queue <= f.enqueued
    && (open ==> f.dequeued + f.queue == f.enqueued)
    && (forall c :: c in f.slots <==> c in f.enqueued)
  }

  /** What was not taken is unresolved and still queued, or its sender was dropped with the queue. */
  ghost predicate UntakenOk(f: Flow) {
    && (forall i :: |f.dequeued| <= i < |f.enqueued| ==> f.enqueued[i] in f.slots && !f.slots[f.enqueued[i]].Filled?)
    && (forall i :: |f.dequeued| + |f.queue| <= i < |f.enqueued| ==>
          f.enqueued[i] in f.slots && f.slots[f.enqueued[i]] == Dropped)
    && (forall c :: c in f.queue ==> c in f.slots && f.slots[c] == Empty)
  }

  ghost predicate IdsOk(f: Flow, conn: nat) {
    && f.nextId == |f.dequeued| + 1
    && |f.takenOn| == |f.dequeued|
    && (forall i :: 0 <= i < |f.takenOn| ==> f.takenOn[i] <= conn)
    && forall i, j :: 0 <= i < j < |f.takenOn| ==> f.takenOn[i] <= f.takenOn[j]
  }

  /** What was written: a request that was taken on this connection and could be encoded. */
  ghost predicate SentOk(f: Flow, w: Sent) {
    && 1 <= w.id <= |f.dequeued| && w.id <= |f.takenOn| && f.takenOn[w.id - 1] == w.conn
    && f.dequeued[w.id - 1] in f.slots && !EncodeRefused(f.slots[f.dequeued[w.id - 1]])
  }

  predicate EncodeRefused(slot: Slot) { slot.Filled? && slot.why.EncodeFailed? }

  ghost predicate WrittenOk(f: Flow) {
    && (forall i :: 0 <= i < |f.written| ==> SentOk(f, f.written[i]))
    && forall i, j :: 0 <= i < j < |f.written| ==> f.written[i].id < f.written[j].id
  }

  /** Every pending entry is the call that was given this id, on this very connection. */
  ghost predicate PendingOk(f: Flow, conn: nat) {
    forall id :: id in f.pending ==>
      1 <= id <= |f.dequeued| && id <= |f.takenOn| && f.pending[id] == f.dequeued[id - 1] && f.takenOn[id - 1] == conn
  }

  ghost predicate OwnAnswer(slot: Slot, id: nat, conn: nat) {
    slot.Filled? && slot.why.Answered? ==> slot.why.id == id && slot.why.conn == conn
  }

  /** A dequeued call is unresolved exactly while it is pending, and an answer it got is its own. */
  ghost predicate FateOk(f: Flow, i: nat) {
    && i < |f.dequeued| && i < |f.takenOn|
    && f.dequeued[i] in f.slots
    && f.slots[f.dequeued[i]] != Dropped
    && (i + 1 in f.pending <==> f.slots[f.dequeued[i]] == Empty)
    && OwnAnswer(f.slots[f.dequeued[i]], i + 1, f.takenOn[i])
  }

  ghost predicate FatesOk(f: Flow) {
    |f.takenOn| == |f.dequeued| && forall i :: 0 <= i < |f.dequeued| ==> FateOk(f, i)
  }

  ghost predicate FlowInv(f: Flow, conn: nat, open: bool) {
    OrderOk(f, open) && UntakenOk(f) && IdsOk(f, conn) && PendingOk(f, conn) && FatesOk(f) && WrittenOk(f)
  }

  /** What a later flow keeps of an earlier one. */
  ghost predicate Grows(f: Flow, g: Flow) {
    && f.enqueued <= g.enqueued
    && f.dequeued <= g.dequeued
    && f.takenOn <= g.takenOn
    && forall c :: c in f.slots && f.slots[c] != Empty ==> c in g.slots && g.slots[c] == f.slots[c]
  }

  // ---- Facts about the call order ----

  lemma TakenIs(f: Flow, open: bool, i: nat)
    requires OrderOk(f, open) && i < |f.dequeued|
    ensures i < |f.enqueued| && f.dequeued[i] == f.enqueued[i]
  {
  }

  lemma QueuedIs(f: Flow, open: bool, j: nat)
    requires OrderOk(f, open) && j < |f.queue|
    ensures |f.dequeued| + j < |f.enqueued| && f.queue[j] == f.enqueued[|f.dequeued| + j]
  {
  }

  lemma PendingCall(f: Flow, conn: nat, open: bool, id: nat)
    requires FlowInv(f, conn, open) && id in f.pending
    ensures 1 <= id <= |f.dequeued| && f.pending[id] == f.dequeued[id - 1] == f.enqueued[id - 1]
    ensures f.pending[id] in f.slots && f.slots[f.pending[id]] == Empty
    ensures f.pending[id] !in f.queue
    ensures forall i :: 0 <= i < |f.enqueued| && f.enqueued[i] == f.pending[id] ==> i == id - 1
    ensures forall i :: 0 <= i < |f.dequeued| && f.dequeued[i] == f.pending[id] ==> i == id - 1
  {
    TakenIs(f, open, id - 1);
    assert FateOk(f, id - 1);
    forall j | 0 <= j < |f.queue| ensures f.queue[j] != f.pending[id] { QueuedIs(f, open, j); }
    forall i | 0 <= i < |f.dequeued| && f.dequeued[i] == f.pending[id] ensures i == id - 1 { TakenIs(f, open, i); }
  }

  lemma HeadCall(f: Flow, open: bool)
    requires OrderOk(f, open) && f.queue != []
    ensures |f.dequeued| < |f.enqueued| && f.enqueued[|f.dequeued|] == f.queue[0]
    ensures f.queue[0] !in f.queue[1..] && f.queue[0] !in f.dequeued
    ensures (f.dequeued + [f.queue[0]]) + f.queue[1..] == f.dequeued + f.queue
  {
    QueuedIs(f, open, 0);
    forall i | 0 <= i < |f.dequeued| ensures f.dequeued[i] != f.queue[0] { TakenIs(f, open, i); }
    forall j | 1 <= j < |f.queue| ensures f.queue[j] != f.queue[0] { QueuedIs(f, open, j); }
  }

  // ---- Each change of the requests keeps the invariant ----

  lemma EnqueueKeepsOrder(f: Flow, conn: nat, c: Call)
    requires FlowInv(f, conn, true) && c !in f.enqueued
    ensures OrderOk(Enqueue(f, c), true) && UntakenOk(Enqueue(f, c))
  {
    assert f.dequeued + (f.queue + [c]) == (f.dequeued + f.queue) + [c];
    forall j | 0 <= j < |f.queue| ensures f.queue[j] != c { QueuedIs(f, true, j); }
  }

  lemma EnqueueKeepsTaken(f: Flow, conn: nat, c: Call, i: nat)
    requires FlowInv(f, conn, true) && c !in f.enqueued && i < |f.dequeued|
    ensures TakenSame(f, Enqueue(f, c), i)
  {
    TakenIs(f, true, i);
    assert FateOk(f, i);
  }

  lemma EnqueueKeepsFates(f: Flow, conn: nat, c: Call)
    requires FlowInv(f, conn, true) && c !in f.enqueued
    ensures FatesOk(Enqueue(f, c)) && WrittenOk(Enqueue(f, c))
  {
    var g := Enqueue(f, c);
    forall i | 0 <= i < |f.dequeued| ensures FateOk(g, i) {
      EnqueueKeepsTaken(f, conn, c, i);
      FateStays(f, g, i);
    }
    forall i | 0 <= i < |f.written| ensures SentOk(g, f.written[i]) {
      EnqueueKeepsTaken(f, conn, c, f.written[i].id - 1);
      SentStays(f, g, f.written[i]);
    }
  }

  lemma EnqueueKeeps(f: Flow, conn: nat, c: Call)
    requires FlowInv(f, conn, true) && c !in f.enqueued
    ensures FlowInv(Enqueue(f, c), conn, true) && Grows(f, Enqueue(f, c))
  {
    EnqueueKeepsOrder(f, conn, c);
    EnqueueKeepsFates(f, conn, c);
  }

  lemma TakeKeepsOrder(f: Flow, conn: nat, open: bool, e: Encoded)
    requires FlowInv(f, conn, open) && f.queue != []
    ensures OrderOk(Take(f, conn, e), open)
  {
    HeadCall(f, open);
  }

  lemma TakeKeepsUntaken(f: Flow, conn: nat, open: bool, e: Encoded)
    requires FlowInv(f, conn, open) && f.queue != []
    ensures UntakenOk(Take(f, conn, e)) && Grows(f, Take(f, conn, e))
  {
    HeadCall(f, open);
  }

  lemma TakeKeepsIds(f: Flow, conn: nat, open: bool, e: Encoded)
    requires FlowInv(f, conn, open) && f.queue != []
    ensures IdsOk(Take(f, conn, e), conn) && PendingOk(Take(f, conn, e), conn)
  {
  }

  /** What was taken before stays as it is. */
  lemma TakeKeepsTaken(f: Flow, conn: nat, open: bool, e: Encoded, i: nat)
    requires FlowInv(f, conn, open) && f.queue != [] && i < |f.dequeued|
    ensures TakenSame(f, Take(f, conn, e), i)
  {
    HeadCall(f, open);
    assert f.dequeued[i] in f.dequeued && FateOk(f, i);
  }

  ghost predicate TakenSame(f: Flow, g: Flow, i: nat) {
    && i < |f.dequeued| && i < |g.dequeued| && i < |f.takenOn| && i < |g.takenOn|
    && g.dequeued[i] == f.dequeued[i] && f.dequeued[i] in f.slots && g.takenOn[i] == f.takenOn[i]
    && f.dequeued[i] in g.slots && g.slots[f.dequeued[i]] == f.slots[f.dequeued[i]]
    && (i + 1 in g.pending <==> i + 1 in f.pending)
  }

  lemma TakenHasFate(f: Flow, conn: nat, open: bool, e: Encoded)
    requires FlowInv(f, conn, open) && f.queue != []
    ensures FateOk(Take(f, conn, e), |f.dequeued|)
  {
  }

  lemma TakeKeepsFates(f: Flow, conn: nat, open: bool, e: Encoded)
    requires FlowInv(f, conn, open) && f.queue != []
    ensures FatesOk(Take(f, conn, e))
  {
    var g := Take(f, conn, e);
    forall i | 0 <= i < |f.dequeued| ensures FateOk(g, i) {
      TakeKeepsTaken(f, conn, open, e, i);
      FateStays(f, g, i);
    }
    TakenHasFate(f, conn, open, e);
  }

  lemma FateStays(f: Flow, g: Flow, i: nat)
    requires FateOk(f, i) && TakenSame(f, g, i)
    ensures FateOk(g, i)
  {
  }

  lemma SentStays(f: Flow, g: Flow, w: Sent)
    requires SentOk(f, w) && TakenSame(f, g, w.id - 1)
    ensures SentOk(g, w)
  {
  }

  lemma TakeKeepsSent(f: Flow, conn: nat, open: bool, e: Encoded)
    requires FlowInv(f, conn, open) && f.queue != []
    ensures forall i :: 0 <= i < |f.written| ==> SentOk(Take(f, conn, e), f.written[i])
  {
    forall i | 0 <= i < |f.written| ensures SentOk(Take(f, conn, e), f.written[i]) {
      assert SentOk(f, f.written[i]);
      TakeKeepsTaken(f, conn, open, e, f.written[i].id - 1);
      SentStays(f, Take(f, conn, e), f.written[i]);
    }
  }

  lemma TakeKeepsWritten(f: Flow, conn: nat, open: bool, e: Encoded)
    requires FlowInv(f, conn, open) && f.queue != []
    ensures WrittenOk(Take(f, conn, e))
  {
    TakeKeepsSent(f, conn, open, e);
    assert forall i :: 0 <= i < |f.written| ==> SentOk(f, f.written[i]);
  }

  lemma TakeKeeps(f: Flow, conn: nat, open: bool, e: Encoded)
    requires FlowInv(f, conn, open) && f.queue != []
    ensures FlowInv(Take(f, conn, e), conn, open) && Grows(f, Take(f, conn, e))
  {
    TakeKeepsOrder(f, conn, open, e);
    TakeKeepsUntaken(f, conn, open, e);
    TakeKeepsIds(f, conn, open, e);
    TakeKeepsFates(f, conn, open, e);
    TakeKeepsWritten(f, conn, open, e);
  }

  /** Resolving calls that were still empty, and were not refused, keeps what is on the wire. */
  ghost predicate Resolves(f: Flow, g: Flow) {
    && g.written == f.written && g.dequeued == f.dequeued && g.takenOn == f.takenOn
    && forall c :: c in f.slots ==>
         c in g.slots && (g.slots[c] == f.slots[c] || (f.slots[c] == Empty && !EncodeRefused(g.slots[c])))
  }

  lemma ResolvingKeepsWritten(f: Flow, g: Flow)
    requires WrittenOk(f) && Resolves(f, g)
    ensures WrittenOk(g)
  {
    forall i | 0 <= i < |g.written| ensures SentOk(g, g.written[i]) { assert SentOk(f, f.written[i]); }
  }

  lemma AnswerKeepsFate(f: Flow, conn: nat, open: bool, id: nat, res: DaemonReply, i: nat)
    requires FlowInv(f, conn, open) && id in f.pending && FateOk(f, i)
    ensures FateOk(Answer(f, conn, id, res), i)
  {
    PendingCall(f, conn, open, id);
  }

  lemma AnswerKeepsFates(f: Flow, conn: nat, open: bool, id: nat, res: DaemonReply)
    requires FlowInv(f, conn, open) && id in f.pending
    ensures FatesOk(Answer(f, conn, id, res))
  {
    var g := Answer(f, conn, id, res);
    forall i | 0 <= i < |f.dequeued| ensures FateOk(g, i) {
      assert FateOk(f, i);
      AnswerKeepsFate(f, conn, open, id, res, i);
    }
  }

  lemma AnswerKeepsOrder(f: Flow, conn: nat, open: bool, id: nat, res: DaemonReply)
    requires FlowInv(f, conn, open) && id in f.pending
    ensures OrderOk(Answer(f, conn, id, res), open) && UntakenOk(Answer(f, conn, id, res))
  {
    PendingCall(f, conn, open, id);
  }

  lemma AnswerResolves(f: Flow, conn: nat, open: bool, id: nat, res: DaemonReply)
    requires FlowInv(f, conn, open) && id in f.pending
    ensures Resolves(f, Answer(f, conn, id, res)) && Grows(f, Answer(f, conn, id, res))
    ensures PendingOk(Answer(f, conn, id, res), conn)
  {
    PendingCall(f, conn, open, id);
  }

  lemma AnswerKeeps(f: Flow, conn: nat, open: bool, id: nat, res: DaemonReply)
    requires FlowInv(f, conn, open)
    ensures FlowInv(Answer(f, conn, id, res), conn, open) && Grows(f, Answer(f, conn, id, res))
  {
    if id in f.pending {
      AnswerKeepsFates(f, conn, open, id, res);
      AnswerKeepsOrder(f, conn, open, id, res);
      AnswerResolves(f, conn, open, id, res);
      ResolvingKeepsWritten(f, Answer(f, conn, id, res));
    }
  }

  lemma PendingCalls(f: Flow, conn: nat, open: bool)
    requires FlowInv(f, conn, open)
    ensures forall i :: 0 <= i < |f.dequeued| ==> (f.dequeued[i] in f.pending.Values <==> i + 1 in f.pending)
    ensures forall c :: c in f.pending.Values ==>
              c in f.slots && f.slots[c] == Empty && c !in f.queue
              && forall i :: |f.dequeued| <= i < |f.enqueued| ==> f.enqueued[i] != c
  {
    forall i | 0 <= i < |f.dequeued| ensures f.dequeued[i] in f.pending.Values <==> i + 1 in f.pending {
      if f.dequeued[i] in f.pending.Values {
        var id :| id in f.pending && f.pending[id] == f.dequeued[i];
        PendingCall(f, conn, open, id);
      }
      assert i + 1 in f.pending ==> f.pending[i + 1] in f.pending.Values;
    }
    forall c | c in f.pending.Values
      ensures c in f.slots && f.slots[c] == Empty && c !in f.queue
              && forall i :: |f.dequeued| <= i < |f.enqueued| ==> f.enqueued[i] != c
    {
      var id :| id in f.pending && f.pending[id] == c;
      PendingCall(f, conn, open, id);
    }
  }

  lemma DrainKeepsOrder(f: Flow, conn: nat, open: bool)
    requires FlowInv(f, conn, open)
    ensures OrderOk(DrainPending(f), open) && UntakenOk(DrainPending(f))
  {
    PendingCalls(f, conn, open);
  }

  lemma DrainKeepsFates(f: Flow, conn: nat, open: bool)
    requires FlowInv(f, conn, open)
    ensures FatesOk(DrainPending(f))
  {
    PendingCalls(f, conn, open);
    forall i | 0 <= i < |f.dequeued| ensures FateOk(DrainPending(f), i) { assert FateOk(f, i); }
  }

  lemma DrainResolves(f: Flow, conn: nat, open: bool)
    requires FlowInv(f, conn, open)
    ensures Resolves(f, DrainPending(f)) && Grows(f, DrainPending(f))
  {
    PendingCalls(f, conn, open);
  }

  lemma DrainKeeps(f: Flow, conn: nat, open: bool)
    requires FlowInv(f, conn, open)
    ensures FlowInv(DrainPending(f), conn, open) && Grows(f, DrainPending(f))
  {
    DrainKeepsOrder(f, conn, open);
    DrainKeepsFates(f, conn, open);
    DrainResolves(f, conn, open);
    ResolvingKeepsWritten(f, DrainPending(f));
  }

  lemma TakenNotQueued(f: Flow, i: nat)
    requires OrderOk(f, true) && i < |f.dequeued|
    ensures f.dequeued[i] !in f.queue
  {
    TakenIs(f, true, i);
    forall j | 0 <= j < |f.queue| ensures f.queue[j] != f.dequeued[i] { QueuedIs(f, true, j); }
  }

  lemma DropKeepsOrder(f: Flow, conn: nat)
    requires FlowInv(f, conn, true)
    ensures OrderOk(DropQueue(f), false) && UntakenOk(DropQueue(f))
    ensures Resolves(f, DropQueue(f)) && Grows(f, DropQueue(f))
  {
    assert f.dequeued + [] == f.dequeued;
  }

  lemma DropKeeps(f: Flow, conn: nat)
    requires FlowInv(f, conn, true)
    ensures FlowInv(DropQueue(f), conn, false) && Grows(f, DropQueue(f))
  {
    DropKeepsOrder(f, conn);
    ResolvingKeepsWritten(f, DropQueue(f));
    forall i | 0 <= i < |f.dequeued| ensures FateOk(DropQueue(f), i) {
      assert FateOk(f, i);
      TakenNotQueued(f, i);
    }
  }

  // ---- The connection events ----

  /** An observer saw `seen`, starting from entry `since` of the history. */
  datatype Seen = Seen(since: nat, seen: seq<ConnState>)

  /** `current` and the registered callbacks, with the history of every state fired so far. */
  datatype Events = Events(current: ConnState, observers: map<Observer, Seen>, history: seq<ConnState>)

  /** `fire_conn`: set the current state and tell every registered observer. */
  function Fire(e: Events, st: ConnState): Events {
    Events(st, map o | o in e.observers :: e.observers[o].(seen := e.observers[o].seen + [st]), e.history + [st])
  }

  /** `on_conn`: replay the current state, then register. */
  function Register(e: Events, o: Observer): Events {
    e.(observers := e.observers[o := Seen(if e.history == [] then 0 else |e.history| - 1, [e.current])])
  }

  /** `Connected (Disconnected Connected)* [Disconnected [Incompatible]]` */
  ghost predicate Lang(h: seq<ConnState>) {
    && |h| >= 1 && h[0] == Connected
    && (|h| == 1
        || (h[1] == Disconnected
            && (|h| == 2 || (|h| == 3 && h[2].Incompatible?) || Lang(h[2..]))))
  }

  ghost predicate EventsInv(e: Events) {
    && Lang(e.history)
    && Last(e.history) == e.current
    && forall o :: o in e.observers ==>
         e.observers[o].since < |e.history| && e.observers[o].seen == e.history[e.observers[o].since..]
  }

  ghost predicate MayFollow(last: ConnState, next: ConnState) {
    (last == Connected && next == Disconnected) || (last == Disconnected && next != Disconnected)
  }

  lemma {:induction false} LangExtends(h: seq<ConnState>, st: ConnState)
    requires Lang(h) && MayFollow(Last(h), st)
    ensures Lang(h + [st])
  {
    var g := h + [st];
    if |h| == 2 {
      if st == Connected { assert g[2..] == [Connected]; }
    } else if |h| >= 3 {
      assert !(|h| == 3 && h[2].Incompatible?);
      LangExtends(h[2..], st);
      assert g[2..] == h[2..] + [st];
    }
  }

  lemma FireKeeps(e: Events, st: ConnState)
    requires EventsInv(e) && MayFollow(e.current, st)
    ensures EventsInv(Fire(e, st))
  {
    LangExtends(e.history, st);
  }

  lemma RegisterKeeps(e: Events, o: Observer)
    requires EventsInv(e) && o !in e.observers
    ensures EventsInv(Register(e, o))
  {
  }

  // ---- The whole state ----

  /** Where a call of `request_inner` stands. */
  datatype CallPc = Admitted | Waiting | Finished(out: Outcome)

  /** Where `connection_task` stands; `lost` tells `ConnectionLost` from `ClientDropped`. */
  datatype TaskPc =
    | Serving
    | Ended(lost: bool)
    | Silenced(lost: bool)
    | Cleared(lost: bool)
    | Connecting
    | Reconnected
    | Leaving
    | Terminated

  datatype State = State(
    pc: TaskPc,
    handle: bool,
    live: bool,
    conn: nat,
    inbox: map<nat, seq<Frame>>,
    calls: map<Call, CallPc>,
    flow: Flow,
    events: Events)

  const INITIAL := State(Serving, true, true, 0, map[], map[],
                         Flow(1, map[], [], map[], [], [], [], []),
                         Events(Connected, map[], [Connected]))

  datatype Action =
    | Begin(c: Call)
    | Send(c: Call)
    | GiveUpWaiting(c: Call)
    | Receive(c: Call)
    | DropHandle
    | TakeCommand(encoded: Encoded)
    | TakeFrame
    | ReadFails
    | ClientDropped
    | Silence
    | Drain
    | FireDown
    | Reconnect
    | FireUp
    | FireIncompatible(min: nat, max: nat)
    | Leave
    | DaemonSends(to: nat, frame: Frame)
    | Observe(o: Observer)

  function Inbox(s: State, conn: nat): seq<Frame> {
    if conn in s.inbox then s.inbox[conn] else []
  }

  ghost predicate Enabled(s: State, a: Action) {
    match a
    case Begin(c) => s.handle && c !in s.calls
    case Send(c) => c in s.calls && s.calls[c] == Admitted && (s.pc == Terminated || |s.flow.queue| < CMD_CHANNEL_CAP)
    case GiveUpWaiting(c) => c in s.calls && !s.calls[c].Finished?
    case Receive(c) => c in s.calls && s.calls[c] == Waiting && c in s.flow.slots && s.flow.slots[c] != Empty
    case DropHandle => forall c :: c in s.calls ==> s.calls[c].Finished?
    case TakeCommand(_) => s.pc == Serving && s.flow.queue != []
    case TakeFrame => s.pc == Serving && Inbox(s, s.conn) != []
    case ReadFails => s.pc == Serving
    case ClientDropped => s.pc == Serving && !s.handle && s.flow.queue == []
    case Silence => s.pc.Ended?
    case Drain => s.pc.Silenced?
    case FireDown => s.pc == Cleared(true)
    case Reconnect => s.pc == Connecting
    case FireUp => s.pc == Reconnected
    case FireIncompatible(_, _) => s.pc == Connecting
    case Leave => s.pc == Cleared(false) || s.pc == Leaving
    case DaemonSends(k, _) => k <= s.conn
    case Observe(o) => o !in s.events.observers
  }

  /** The body of the `reader.next()` arm for one frame. */
  function OnFrame(f: Flow, conn: nat, frame: Frame): Flow {
    if frame.Response? then Answer(f, conn, frame.id, frame.res) else f
  }

  function Apply(s: State, a: Action): State
    requires Enabled(s, a)
  {
    match a
    case Begin(c) => s.(calls := s.calls[c := if s.live then Admitted else Finished(Down)])
    case Send(c) =>
      if s.pc == Terminated then s.(calls := s.calls[c := Finished(Down)])
      else s.(calls := s.calls[c := Waiting], flow := Enqueue(s.flow, c))
    case GiveUpWaiting(c) => s.(calls := s.calls[c := Finished(Down)])
    case Receive(c) =>
      s.(calls := s.calls[c := Finished(if s.flow.slots[c].Filled? then ResultOf(s.flow.slots[c].why) else Down)])
    case DropHandle => s.(handle := false)
    case TakeCommand(e) =>
      s.(flow := Take(s.flow, s.conn, e), pc := if e == WriteFailed then Ended(true) else Serving)
    case TakeFrame =>
      s.(inbox := s.inbox[s.conn := Inbox(s, s.conn)[1..]], flow := OnFrame(s.flow, s.conn, Inbox(s, s.conn)[0]))
    case ReadFails => s.(pc := Ended(true))
    case ClientDropped => s.(pc := Ended(false))
    case Silence => s.(live := false, pc := Silenced(s.pc.lost))
    case Drain => s.(flow := DrainPending(s.flow), pc := Cleared(s.pc.lost))
    case FireDown => s.(events := Fire(s.events, Disconnected), pc := Connecting)
    case Reconnect => s.(conn := s.conn + 1, live := true, pc := Reconnected)
    case FireUp => s.(events := Fire(s.events, Connected), pc := Serving)
    case FireIncompatible(lo, hi) => s.(events := Fire(s.events, Incompatible(lo, hi)), pc := Leaving)
    case Leave => s.(flow := DropQueue(s.flow), pc := Terminated)
    case DaemonSends(k, f) => s.(inbox := s.inbox[k := Inbox(s, k) + [f]])
    case Observe(o) => s.(events := Register(s.events, o))
  }

  // ---- The invariant of the state ----

  predicate Quiet(pc: TaskPc) {
    pc.Cleared? || pc == Connecting || pc == Reconnected || pc == Leaving || pc == Terminated
  }

  ghost predicate CallsOk(f: Flow, calls: map<Call, CallPc>) {
    && (forall c :: c in f.enqueued ==> c in calls && calls[c] != Admitted)
    && (forall c :: c in calls && calls[c] == Waiting ==> c in f.enqueued)
    && (forall c :: c in calls && calls[c].Finished? && calls[c].out.Reply? ==>
          c in f.slots && f.slots[c].Filled? && ResultOf(f.slots[c].why) == calls[c].out)
  }

  predicate PcOk(pc: TaskPc, live: bool, current: ConnState) {
    && (live <==> pc == Serving || pc.Ended? || pc == Reconnected)
    && match pc
       case Connecting => current == Disconnected
       case Reconnected => current == Disconnected
       case Leaving => current.Incompatible?
       case Terminated => current != Disconnected
       case _ => current == Connected
  }

  ghost predicate Inv(s: State) {
    && FlowInv(s.flow, s.conn, s.pc != Terminated)
    && (Quiet(s.pc) ==> s.flow.pending == map[])
    && (s.pc == Terminated ==> s.flow.queue == [])
    && CallsOk(s.flow, s.calls)
    && EventsInv(s.events)
    && PcOk(s.pc, s.live, s.events.current)
  }

  lemma CallsKept(f: Flow, g: Flow, calls: map<Call, CallPc>)
    requires CallsOk(f, calls) && Grows(f, g) && g.enqueued == f.enqueued
    ensures CallsOk(g, calls)
  {
  }

  /** What a step keeps of the requests. */
  ghost predicate KeepsFlow(s: State, a: Action)
    requires Enabled(s, a)
  {
    var t := Apply(s, a);
    && FlowInv(t.flow, t.conn, t.pc != Terminated)
    && Grows(s.flow, t.flow)
    && (!a.Send? ==> t.flow.enqueued == s.flow.enqueued)
  }

  predicate TouchesFlow(a: Action) {
    a.Send? || a.TakeCommand? || a.TakeFrame? || a.Drain? || a.Leave? || a.Reconnect?
  }

  lemma OtherKeepsFlow(s: State, a: Action)
    requires Inv(s) && Enabled(s, a) && !TouchesFlow(a)
    ensures KeepsFlow(s, a)
  {
    assert Apply(s, a).flow == s.flow && Apply(s, a).conn == s.conn;
    assert (Apply(s, a).pc == Terminated) == (s.pc == Terminated);
  }

  lemma ReconnectKeepsFlow(s: State, a: Action)
    requires Inv(s) && a.Reconnect? && Enabled(s, a)
    ensures KeepsFlow(s, a)
  {
  }

  lemma SendKeepsFlow(s: State, a: Action)
    requires Inv(s) && a.Send? && Enabled(s, a)
    ensures KeepsFlow(s, a)
  {
    if s.pc != Terminated { EnqueueKeeps(s.flow, s.conn, a.c); }
  }

  lemma CommandKeepsFlow(s: State, a: Action)
    requires Inv(s) && a.TakeCommand? && Enabled(s, a)
    ensures KeepsFlow(s, a)
  {
    TakeKeeps(s.flow, s.conn, true, a.encoded);
  }

  lemma FrameKeepsFlow(s: State, a: Action)
    requires Inv(s) && a.TakeFrame? && Enabled(s, a)
    ensures KeepsFlow(s, a)
  {
    var f := Inbox(s, s.conn)[0];
    if f.Response? { AnswerKeeps(s.flow, s.conn, true, f.id, f.res); }
  }

  lemma DrainKeepsFlow(s: State, a: Action)
    requires Inv(s) && a.Drain? && Enabled(s, a)
    ensures KeepsFlow(s, a)
  {
    DrainKeeps(s.flow, s.conn, true);
  }

  lemma LeaveKeepsFlow(s: State, a: Action)
    requires Inv(s) && a.Leave? && Enabled(s, a)
    ensures KeepsFlow(s, a)
  {
    DropKeeps(s.flow, s.conn);
  }

  lemma StepKeepsFlow(s: State, a: Action)
    requires Inv(s) && Enabled(s, a)
    ensures KeepsFlow(s, a)
  {
    if !TouchesFlow(a) { OtherKeepsFlow(s, a); }
    else if a.Send? { SendKeepsFlow(s, a); }
    else if a.TakeCommand? { CommandKeepsFlow(s, a); }
    else if a.TakeFrame? { FrameKeepsFlow(s, a); }
    else if a.Drain? { DrainKeepsFlow(s, a); }
    else if a.Leave? { LeaveKeepsFlow(s, a); }
    else { ReconnectKeepsFlow(s, a); }
  }

  lemma CallSet(f: Flow, calls: map<Call, CallPc>, c: Call, pc: CallPc)
    requires CallsOk(f, calls)
    requires if c in f.enqueued then pc != Admitted else pc != Waiting
    requires pc.Finished? && pc.out.Reply? ==> c in f.slots && f.slots[c].Filled? && ResultOf(f.slots[c].why) == pc.out
    ensures CallsOk(f, calls[c := pc])
  {
  }

  lemma CallSent(f: Flow, conn: nat, calls: map<Call, CallPc>, c: Call)
    requires CallsOk(f, calls) && FlowInv(f, conn, true) && c in calls && calls[c] == Admitted
    ensures CallsOk(Enqueue(f, c), calls[c := Waiting])
  {
  }

  predicate TouchesCalls(a: Action) {
    a.Begin? || a.Send? || a.GiveUpWaiting? || a.Receive?
  }

  ghost predicate KeepsCalls(s: State, a: Action)
    requires Enabled(s, a)
  {
    CallsOk(Apply(s, a).flow, Apply(s, a).calls)
  }

  lemma OtherKeepsCalls(s: State, a: Action)
    requires Inv(s) && Enabled(s, a) && !TouchesCalls(a)
    ensures KeepsCalls(s, a)
  {
    StepKeepsFlow(s, a);
    assert Apply(s, a).calls == s.calls;
    CallsKept(s.flow, Apply(s, a).flow, s.calls);
  }

  lemma BeginKeepsCalls(s: State, a: Action)
    requires Inv(s) && a.Begin? && Enabled(s, a)
    ensures KeepsCalls(s, a)
  {
    CallSet(s.flow, s.calls, a.c, if s.live then Admitted else Finished(Down));
  }

  lemma SendKeepsCalls(s: State, a: Action)
    requires Inv(s) && a.Send? && Enabled(s, a)
    ensures KeepsCalls(s, a)
  {
    if s.pc == Terminated { CallSet(s.flow, s.calls, a.c, Finished(Down)); }
    else { CallSent(s.flow, s.conn, s.calls, a.c); }
  }

  lemma GivingUpKeepsCalls(s: State, a: Action)
    requires Inv(s) && a.GiveUpWaiting? && Enabled(s, a)
    ensures KeepsCalls(s, a)
  {
    CallSet(s.flow, s.calls, a.c, Finished(Down));
  }

  lemma ReceiveKeepsCalls(s: State, a: Action)
    requires Inv(s) && a.Receive? && Enabled(s, a)
    ensures KeepsCalls(s, a)
  {
    var slot := s.flow.slots[a.c];
    CallSet(s.flow, s.calls, a.c, Finished(if slot.Filled? then ResultOf(slot.why) else Down));
  }

  lemma StepKeepsCalls(s: State, a: Action)
    requires Inv(s) && Enabled(s, a)
    ensures KeepsCalls(s, a)
  {
    if !TouchesCalls(a) { OtherKeepsCalls(s, a); }
    else if a.Begin? { BeginKeepsCalls(s, a); }
    else if a.Send? { SendKeepsCalls(s, a); }
    else if a.Receive? { ReceiveKeepsCalls(s, a); }
    else { GivingUpKeepsCalls(s, a); }
  }

  lemma StepKeepsHistory(s: State, a: Action)
    requires Inv(s) && Enabled(s, a)
    ensures EventsInv(Apply(s, a).events)
  {
    match a {
      case FireDown => FireKeeps(s.events, Disconnected);
      case FireUp => FireKeeps(s.events, Connected);
      case FireIncompatible(lo, hi) => FireKeeps(s.events, Incompatible(lo, hi));
      case Observe(o) => RegisterKeeps(s.events, o);
      case _ => assert Apply(s, a).events == s.events;
    }
  }

  lemma StepKeepsPc(s: State, a: Action)
    requires Inv(s) && Enabled(s, a)
    ensures PcOk(Apply(s, a).pc, Apply(s, a).live, Apply(s, a).events.current)
  {
  }

  lemma StepKeepsQuiet(s: State, a: Action)
    requires Inv(s) && Enabled(s, a)
    ensures Quiet(Apply(s, a).pc) ==> Apply(s, a).flow.pending == map[]
    ensures Apply(s, a).pc == Terminated ==> Apply(s, a).flow.queue == []
  {
  }

  lemma StepKeepsInv(s: State, a: Action)
    requires Inv(s) && Enabled(s, a)
    ensures Inv(Apply(s, a))
  {
    StepKeepsFlow(s, a);
    StepKeepsCalls(s, a);
    StepKeepsHistory(s, a);
    StepKeepsPc(s, a);
    StepKeepsQuiet(s, a);
  }

  // ---- Runs ----

  ghost predicate IsRun(s: State, acts: seq<Action>)
    decreases |acts|
  {
    acts != [] ==> Enabled(s, acts[0]) && IsRun(Apply(s, acts[0]), acts[1..])
  }

  ghost function Exec(s: State, acts: seq<Action>): State
    requires IsRun(s, acts)
    decreases |acts|
  {
    if acts == [] then s else Exec(Apply(s, acts[0]), acts[1..])
  }

  /** A state that some run from the first connection reaches. */
  ghost predicate Reachable(s: State) {
    exists acts :: IsRun(INITIAL, acts) && Exec(INITIAL, acts) == s
  }

  lemma {:induction false} RunKeepsInv(s: State, acts: seq<Action>)
    requires Inv(s) && IsRun(s, acts)
    ensures Inv(Exec(s, acts)) && Grows(s.flow, Exec(s, acts).flow)
    decreases |acts|
  {
    if acts != [] {
      StepKeepsInv(s, acts[0]);
      StepKeepsFlow(s, acts[0]);
      RunKeepsInv(Apply(s, acts[0]), acts[1..]);
    }
  }

  lemma ReachableInv(s: State)
    requires Reachable(s)
    ensures Inv(s)
  {
    assert Inv(INITIAL);
    var acts :| IsRun(INITIAL, acts) && Exec(INITIAL, acts) == s;
    RunKeepsInv(INITIAL, acts);
  }

  lemma {:induction false} RunAppend(s: State, acts: seq<Action>, a: Action)
    requires IsRun(s, acts) && Enabled(Exec(s, acts), a)
    ensures IsRun(s, acts + [a]) && Exec(s, acts + [a]) == Apply(Exec(s, acts), a)
    decreases |acts|
  {
    if acts == [] {
      assert [] + [a] == [a] && [a][1..] == [];
      assert IsRun(Apply(s, a), []);
    } else {
      assert (acts + [a])[1..] == acts[1..] + [a];
      RunAppend(Apply(s, acts[0]), acts[1..], a);
    }
  }

  lemma ReachableStep(s: State, a: Action)
    requires Reachable(s) && Enabled(s, a)
    ensures Reachable(Apply(s, a))
  {
    var acts :| IsRun(INITIAL, acts) && Exec(INITIAL, acts) == s;
    RunAppend(INITIAL, acts, a);
    assert IsRun(INITIAL, acts + [a]) && Exec(INITIAL, acts + [a]) == Apply(s, a);
  }

  // ---- What holds over every run ----

  predicate IsPending(s: State, i: nat) { i + 1 in s.flow.pending }

  predicate Resolved(s: State, c: Call) { c in s.flow.slots && s.flow.slots[c].Filled? }

  predicate FailedLocally(s: State, c: Call) { Resolved(s, c) && s.flow.slots[c].why.EncodeFailed? }

  predicate WasAnswered(s: State, c: Call) { Resolved(s, c) && s.flow.slots[c].why.Answered? }

  predicate WasDrained(s: State, c: Call) { Resolved(s, c) && s.flow.slots[c].why.Drained? }

  function One(b: bool): nat { if b then 1 else 0 }

  /** In every reachable state each dequeued request has exactly one of the four fates, and a pending
      one sits under an id of its own below `nextId`. */
  lemma ExactlyOneFate(s: State, i: nat)
    requires Reachable(s) && i < |s.flow.dequeued|
    ensures var c := s.flow.dequeued[i];
            One(IsPending(s, i)) + One(FailedLocally(s, c)) + One(WasAnswered(s, c)) + One(WasDrained(s, c)) == 1
    ensures IsPending(s, i) ==> i + 1 < s.flow.nextId && s.flow.pending[i + 1] == s.flow.dequeued[i]
    ensures forall id :: id in s.flow.pending && s.flow.pending[id] == s.flow.dequeued[i] ==> id == i + 1
  {
    ReachableInv(s);
    assert FateOk(s.flow, i);
    forall id | id in s.flow.pending && s.flow.pending[id] == s.flow.dequeued[i] ensures id == i + 1 {
      PendingCall(s.flow, s.conn, s.pc != Terminated, id);
    }
  }

  ghost predicate AnsweredAs(f: Flow, i: nat, c: Call, res: DaemonReply) {
    && i < |f.dequeued| && i < |f.takenOn|
    && f.dequeued[i] == c
    && c in f.slots && f.slots[c] == Filled(Answered(i + 1, f.takenOn[i], res))
  }

  /** A reply that reaches a caller carries the id that caller's request was written under, and was
      read from the connection it was written to. */
  lemma ReplyIsItsOwn(s: State, c: Call)
    requires Reachable(s) && c in s.calls && s.calls[c].Finished? && s.calls[c].out.Reply?
    ensures exists i :: AnsweredAs(s.flow, i, c, s.calls[c].out.res)
  {
    ReachableInv(s);
    assert c in s.flow.enqueued;
    var k :| 0 <= k < |s.flow.enqueued| && s.flow.enqueued[k] == c;
    assert k < |s.flow.dequeued|;
    TakenIs(s.flow, s.pc != Terminated, k);
    assert FateOk(s.flow, k);
    assert AnsweredAs(s.flow, k, c, s.calls[c].out.res);
  }

  /** Whatever happens afterwards, an id keeps naming the same request and a resolution stays. */
  lemma ResolutionIsFinal(s: State, more: seq<Action>)
    requires Reachable(s) && IsRun(s, more)
    ensures s.flow.dequeued <= Exec(s, more).flow.dequeued
    ensures forall c :: Resolved(s, c) ==> Resolved(Exec(s, more), c) && Exec(s, more).flow.slots[c] == s.flow.slots[c]
  {
    ReachableInv(s);
    RunKeepsInv(s, more);
  }

  /** A response frame touches no request but the one its id names, and not even that one once it is
      resolved: late and duplicate responses change nothing but the inbox. */
  lemma ResponseTouchesOnlyItsId(s: State, id: nat, res: DaemonReply, c: Call)
    requires Reachable(s) && Enabled(s, TakeFrame) && Inbox(s, s.conn)[0] == Response(id, res)
    ensures var t := Apply(s, TakeFrame);
            && t.calls == s.calls
            && (c in s.flow.slots && !(1 <= id <= |s.flow.dequeued| && c == s.flow.dequeued[id - 1]) ==>
                  c in t.flow.slots && t.flow.slots[c] == s.flow.slots[c])
            && (!(1 <= id <= |s.flow.dequeued|) || Resolved(s, s.flow.dequeued[id - 1]) ==> t.flow == s.flow)
  {
    ReachableInv(s);
    if id in s.flow.pending { PendingCall(s.flow, s.conn, s.pc != Terminated, id); }
  }

  /** A response to a pending id resolves the request written under it, with the daemon's reply and nothing
      else, and if that caller still waits its call can end with that reply at once. */
  lemma ResponseIsDelivered(s: State, id: nat, res: DaemonReply)
    requires Reachable(s) && Enabled(s, TakeFrame) && Inbox(s, s.conn)[0] == Response(id, res)
    requires id in s.flow.pending
    ensures 1 <= id <= |s.flow.dequeued| && s.flow.pending[id] == s.flow.dequeued[id - 1]
    ensures var t, c := Apply(s, TakeFrame), s.flow.dequeued[id - 1];
            && t.flow.pending == s.flow.pending - {id}
            && c in t.flow.slots && t.flow.slots[c] == Filled(Answered(id, s.conn, res))
            && (c in s.calls && s.calls[c] == Waiting ==>
                  Enabled(t, Receive(c)) && Apply(t, Receive(c)).calls[c] == Finished(Reply(res)))
  {
    ReachableInv(s);
    PendingCall(s.flow, s.conn, s.pc != Terminated, id);
  }

  /** Requests are taken, and written, in the order they entered the channel: numbered 1, 2, 3, …
      across all connections, on connections that only move on, each frame carrying the id of the
      request at its number; what could not be encoded is never written. */
  lemma FirstInFirstOut(s: State)
    requires Reachable(s)
    ensures s.flow.dequeued <= s.flow.enqueued && Distinct(s.flow.enqueued)
    ensures s.flow.nextId == |s.flow.dequeued| + 1 && |s.flow.takenOn| == |s.flow.dequeued|
    ensures forall i, j :: 0 <= i < j < |s.flow.takenOn| ==> s.flow.takenOn[i] <= s.flow.takenOn[j] <= s.conn
    ensures forall i, j :: 0 <= i < j < |s.flow.written| ==>
              s.flow.written[i].id < s.flow.written[j].id && s.flow.written[i].conn <= s.flow.written[j].conn
    ensures forall i :: 0 <= i < |s.flow.written| ==>
              var w := s.flow.written[i];
              1 <= w.id <= |s.flow.dequeued| && s.flow.takenOn[w.id - 1] == w.conn
              && !FailedLocally(s, s.flow.dequeued[w.id - 1])
  {
    ReachableInv(s);
    assert s.flow.dequeued <= s.flow.dequeued + s.flow.queue;
    forall i | 0 <= i < |s.flow.written|
      ensures 1 <= s.flow.written[i].id <= |s.flow.dequeued|
              && s.flow.takenOn[s.flow.written[i].id - 1] == s.flow.written[i].conn
              && !FailedLocally(s, s.flow.dequeued[s.flow.written[i].id - 1])
    {
      assert SentOk(s.flow, s.flow.written[i]);
    }
  }

  /** A caller whose reply channel is still open has its request in the queue, or pending under its id. */
  lemma WaitingIsKept(s: State, c: Call)
    requires Inv(s) && c in s.calls && s.calls[c] == Waiting
    ensures c in s.flow.slots
    ensures s.flow.slots[c] == Empty <==> c in s.flow.queue || c in s.flow.pending.Values
  {
    var f := s.flow;
    var i :| 0 <= i < |f.enqueued| && f.enqueued[i] == c;
    PendingCalls(f, s.conn, s.pc != Terminated);
    if i < |f.dequeued| {
      TakenIs(f, s.pc != Terminated, i);
      assert FateOk(f, i);
    } else if i < |f.dequeued| + |f.queue| {
      QueuedIs(f, s.pc != Terminated, i - |f.dequeued|);
    }
  }

  /** Nobody hangs: in every reachable state a caller still waits only for a request that is queued or
      pending; once the task is drained, only for a queued one; and once it is gone every unfinished
      call can end by itself, whatever else happens or does not. */
  lemma NobodyHangs(s: State, c: Call)
    requires Reachable(s) && c in s.calls && !s.calls[c].Finished?
    ensures s.calls[c] == Waiting ==>
              (Enabled(s, Receive(c)) <==> !(c in s.flow.queue || c in s.flow.pending.Values))
    ensures Quiet(s.pc) && s.calls[c] == Waiting ==> (Enabled(s, Receive(c)) <==> c !in s.flow.queue)
    ensures s.pc == Terminated ==>
              var a := if s.calls[c] == Waiting then Receive(c) else Send(c);
              Enabled(s, a) && Apply(s, a).calls[c].Finished?
  {
    ReachableInv(s);
    if s.calls[c] == Waiting { WaitingIsKept(s, c); }
  }

  /** From the drain until the next connection is served nothing is pending, and while the task is
      not serving a new call is refused on the spot. */
  lemma NothingPendingWhileDown(s: State, c: Call)
    requires Reachable(s)
    ensures Quiet(s.pc) ==> s.flow.pending == map[]
    ensures Enabled(s, Begin(c)) && Quiet(s.pc) && s.pc != Reconnected ==> Apply(s, Begin(c)).calls[c] == Finished(Down)
  {
    ReachableInv(s);
  }

  /** Whenever it registered, an observer has seen a gap-free suffix of the history, and the history
      is a word of `Connected (Disconnected Connected)* [Disconnected [Incompatible]]`. */
  lemma ObserverSeesSuffix(s: State, o: Observer)
    requires Reachable(s) && o in s.events.observers
    ensures Lang(s.events.history)
    ensures var seen := s.events.observers[o].seen;
            1 <= |seen| <= |s.events.history| && seen == s.events.history[|s.events.history| - |seen|..]
  {
    ReachableInv(s);
    var since := s.events.observers[o].since;
    assert |s.events.history[since..]| == |s.events.history| - since;
  }

  // ---- After the fatal state ----

  ghost predicate Gone(s: State) {
    Inv(s) && s.events.current.Incompatible?
  }

  predicate AnsweredCaller(s: State, c: Call) {
    c in s.calls && s.calls[c].Finished? && s.calls[c].out != Down
  }

  ghost predicate EventsOver(s: State, t: State) {
    && t.events.history == s.events.history && t.events.current == s.events.current
    && (forall o :: o in s.events.observers ==>
          o in t.events.observers && t.events.observers[o] == s.events.observers[o])
  }

  ghost predicate ResolvedBefore(s: State, t: State) {
    forall c :: Resolved(t, c) ==> Resolved(s, c)
  }

  ghost predicate NewCallsRefused(s: State, t: State) {
    && (forall c :: c in s.calls ==> c in t.calls && (s.calls[c].Finished? ==> t.calls[c] == s.calls[c]))
    && (forall c :: c in t.calls && c !in s.calls ==> t.calls[c] == Finished(Down))
  }

  ghost predicate AnsweredBefore(s: State, t: State) {
    forall c :: AnsweredCaller(t, c) ==> c in s.calls && (AnsweredCaller(s, c) || Resolved(s, c))
  }

  /** What can still change once the task has given up. */
  ghost predicate OnlyRefusals(s: State, t: State) {
    EventsOver(s, t) && ResolvedBefore(s, t) && NewCallsRefused(s, t) && AnsweredBefore(s, t)
  }

  lemma GoneIsDown(s: State)
    requires Gone(s)
    ensures s.pc == Leaving || s.pc == Terminated
  {
  }

  lemma GoneEvents(s: State, a: Action)
    requires Gone(s) && Enabled(s, a)
    ensures EventsOver(s, Apply(s, a))
  {
    GoneIsDown(s);
  }

  lemma GoneResolved(s: State, a: Action)
    requires Gone(s) && Enabled(s, a)
    ensures ResolvedBefore(s, Apply(s, a))
  {
    GoneIsDown(s);
  }

  lemma GoneCalls(s: State, a: Action)
    requires Gone(s) && Enabled(s, a)
    ensures NewCallsRefused(s, Apply(s, a))
  {
    GoneIsDown(s);
  }

  lemma GoneAnswered(s: State, a: Action)
    requires Gone(s) && Enabled(s, a)
    ensures AnsweredBefore(s, Apply(s, a))
  {
    GoneIsDown(s);
  }

  lemma GoneStep(s: State, a: Action)
    requires Gone(s) && Enabled(s, a)
    ensures OnlyRefusals(s, Apply(s, a))
  {
    GoneEvents(s, a);
    GoneResolved(s, a);
    GoneCalls(s, a);
    GoneAnswered(s, a);
  }

  lemma RefusalsCompose(s: State, t: State, u: State)
    requires OnlyRefusals(s, t) && OnlyRefusals(t, u)
    ensures OnlyRefusals(s, u)
  {
  }

  lemma {:induction false} GoneRun(s: State, acts: seq<Action>)
    requires Gone(s) && IsRun(s, acts)
    ensures OnlyRefusals(s, Exec(s, acts))
    decreases |acts|
  {
    if acts != [] {
      StepKeepsInv(s, acts[0]);
      GoneStep(s, acts[0]);
      GoneRun(Apply(s, acts[0]), acts[1..]);
      RefusalsCompose(s, Apply(s, acts[0]), Exec(s, acts));
    }
  }

  /** After the fatal state no registered callback fires again; every later request is refused as
      disconnected, and an earlier one ends otherwise only with the resolution it already had. */
  lemma AfterIncompatible(s: State, more: seq<Action>, c: Call)
    requires Reachable(s) && s.events.current.Incompatible? && IsRun(s, more)
    ensures forall o :: o in s.events.observers ==>
              o in Exec(s, more).events.observers && Exec(s, more).events.observers[o] == s.events.observers[o]
    ensures c in Exec(s, more).calls && c !in s.calls ==> Exec(s, more).calls[c] == Finished(Down)
    ensures AnsweredCaller(Exec(s, more), c) ==> AnsweredCaller(s, c) || Resolved(s, c)
  {
    ReachableInv(s);
    GoneRun(s, more);
  }
}
