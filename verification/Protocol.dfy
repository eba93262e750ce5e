/**
 The realtime stream of stream/stream.go as a step machine. Four kinds of actor
 interleave: API calls, the declare loop, the read loop, and `run` with `Close`.
 Each critical section is one step; a goroutine's position between two of its
 critical sections is its program counter. The environment (server frames, write
 outcomes, dial outcomes, time) is chosen freely by the step labels, so what is
 proved here holds for every server and every schedule.
 */
module Protocol {
  import opened Wrappers
  import opened Mutations
  import opened Declaring

  type Waiter = nat

  /** What a server can send, as far as the declare/ack protocol reacts to it. */
  datatype Frame =
    | Ack(id: Id, rejected: seq<Key>)
    | RateLimited(id: Id)
    | Refused(id: Id) // an error frame with any other code
    | Shutdown
    | Other // message, pong, unknown and undecodable frames

  /** Why a waiter was released. */
  datatype Cause =
    | Acked(id: Id, rejected: seq<Key>)
    | Failed(id: Id)
    | Emptied(n: nat)
    | Unwritten
    | NotConnected
    | ConnectionLost

  datatype Release = Release(w: Waiter, cause: Cause)

  /** Program points of `declareLoop`, named after what happens next. */
  datatype LoopAt =
    | Idle
    | Coalescing
    | Absorbing
    | Draining
    | Snapshotting
    | Connecting
    | Gauging
    | Sleeping
    | Prepared
    | EmptyWriting
    | EmptyStamping
    | Writing
    | Stamping
    | RollingBack
    | Releasing
    | Dead

  /**
   `declareLoop` with its local variables: the number of the round's id, the
   waiters in its hands (`waiting`, later `carried`), the snapshot, `prevID`, and
   what it is going to tell the waiters.
   */
  datatype Loop = Loop(at: LoopAt, n: nat, waiting: seq<Waiter>, body: set<Key>, prev: Id,
                       cause: Cause, exits: bool)

  datatype ReaderAt = Reading | Checking | Rejecting | Taking | Answering | Gone

  /** `readLoop` with the frame it is working on and the waiters it has taken. */
  datatype Reader = Reader(at: ReaderAt, id: Id, rejected: seq<Key>, i: nat, stale: bool,
                           cause: Cause, chs: seq<Waiter>)

  datatype RunAt =
    | Serving
    | Failing
    | RunSwapping
    | RunClosing
    | Deciding
    | Dialling
    | Installing
    | Signalling
    | Finished

  /** `run`, with the waiters it fails, the connection it closes, and the one it dialled. */
  datatype Run = Run(at: RunAt, chs: seq<Waiter>, held: Option<Conn>, next: Option<Conn>)

  datatype CloseAt = Open | Cancelling | CloseSwapping | CloseClosing | CloseWaiting | Returned

  /** The first `Close` call; later calls return at once. */
  datatype Close = Close(at: CloseAt, held: Option<Conn>)

  datatype Closer = ByRun | ByClose

  datatype Closing = Closing(conn: Conn, closer: Closer)

  /** The mutations so far and who is known to have made which, kept for the theorems. */
  datatype History = History(
    log: seq<Mutation>,
    limbo: map<Waiter, nat>, // calls between their mutation and their registration, with its version
    reg: map<Waiter, nat>, // registered waiters, with the version of their mutation
    decls: map<nat, nat>) // declaration number -> version of its snapshot

  /** The answers given, the waiters lost, and the times of the successful declaration writes. */
  datatype Past = Past(released: seq<Release>, dropped: seq<Waiter>, writes: seq<nat>)


  /** The connections ever dialled, those not closed yet, and who closed the others. */
  datatype Net = Net(dialled: nat, open: set<Conn>, closings: seq<Closing>)

  datatype Client = Client(
    sh: Shared<Waiter>,
    now: nat,
    seqNo: nat,
    loop: Loop,
    reader: Reader,
    ping: bool,
    timers: nat, // rate-limit timers of this connection
    oldTimers: nat, // and of earlier ones
    auto: bool, // cfg.autoReconnect
    run: Run,
    close: Close,
    hist: History,
    past: Past,
    net: Net)

  const IDLE := Loop(Idle, 0, [], {}, NoId, ConnectionLost, false)
  const READING := Reader(Reading, NoId, [], 0, false, ConnectionLost, [])

  function Init(auto: bool): Client {
    Client(Shared([], [], NoId, -MIN_DECLARE_INTERVAL, false, Some(0)), 0, 0, IDLE, READING, true, 0, 0,
           auto, Run(Serving, [], None, None), Close(Open, None),
           History([], map[], map[], map[]), Past([], [], []), Net(0, {0}, []))
  }

  /** The context of the stream is cancelled by `Close`. */
  predicate Cancelled(c: Client) {
    c.close.at != Open && c.close.at != Cancelling
  }

  /** The context of the connection is done: cancelled, or one of its loops has ended. */
  predicate ConnDone(c: Client) {
    Cancelled(c) || c.loop.at == Dead || c.reader.at == Gone || !c.ping
  }

  // ---------------------------------------------------------------- steps

  datatype ApiStep =
    | Mutating(w: Waiter, m: Mutation)
    | Registering(w: Waiter)

  /** The declare loop up to the moment it may send: take the token, drain, snapshot, keep the interval. */
  datatype GatherStep =
    | TakeToken(coalesce: bool)
    | Quit
    | Coalesced
    | Absorb
    | DrainAll
    | Snapshot
    | LookupConn
    | Gauge
    | Wake
    | Lose

  /** And from there on: register, write, stamp, and answer. */
  datatype SendStep =
    | CarryEmpty
    | EmptyWritten
    | EmptyUnwritten(leaked: bool) // leaked: the server got it although the write failed
    | StampEmpty
    | AnnounceBody
    | Written
    | WriteFailed(leaked: bool)
    | StampWrite
    | UndoWrite
    | ReleaseOne
    | ReleaseDone

  datatype ReadStep =
    | Receive(f: Frame)
    | ReadError
    | CheckStale
    | RejectNext
    | RejectsDone
    | TakeAnswers
    | AnswerOne
    | AnswerDone

  datatype RunStep =
    | JoinAndFail
    | FailOne
    | FailDone
    | RunSwap
    | RunClose
    | Decide
    | AbortDial
    | DialOk
    | Install
    | Signal

  datatype CloseStep =
    | Begin
    | Cancel
    | CloseSwap
    | CloseIt
    | Return

  datatype MiscStep =
    | Tick(d: nat)
    | PingEnds
    | TimerFires
    | TimerCancelled
    | OldTimer(fires: bool)

  datatype Step =
    | Api(api: ApiStep)
    | Gathering(g: GatherStep)
    | Sending(e: SendStep)
    | Reads(r: ReadStep)
    | Running(u: RunStep)
    | CloseCall(k: CloseStep)
    | Misc(x: MiscStep)

  predicate ApiEnabled(c: Client, a: ApiStep) {
    match a
    case Mutating(w, m) => w !in c.hist.limbo && w !in c.hist.reg && !m.Reject?
    case Registering(w) => w in c.hist.limbo
  }

  function ApiApply(c: Client, a: ApiStep): Client
    requires ApiEnabled(c, a)
  {
    var h := c.hist;
    match a
    case Mutating(w, m) => c.(hist := h.(log := h.log + [m], limbo := h.limbo[w := |h.log| + 1]))
    case Registering(w) =>
      c.(sh := RegisterWaiter(c.sh, w),
         hist := h.(reg := h.reg[w := h.limbo[w]], limbo := h.limbo - {w}))
  }

  /** At least the minimum interval has passed since the last successful declaration. */
  predicate Rested(c: Client) {
    c.now - c.sh.lastAt >= MIN_DECLARE_INTERVAL
  }

  predicate GatherEnabled(c: Client, g: GatherStep) {
    var at := c.loop.at;
    match g
    case TakeToken(_) => at == Idle && c.sh.token
    case Quit => (at == Idle || at == Coalescing) && ConnDone(c)
    case Coalesced => at == Coalescing
    case Absorb => at == Absorbing
    case DrainAll => at == Draining
    case Snapshot => at == Snapshotting
    case LookupConn => at == Connecting
    case Gauge => at == Gauging
    case Wake => at == Sleeping && Rested(c)
    case Lose => at == Sleeping && ConnDone(c)
  }

  function GatherApply(c: Client, g: GatherStep): Client
    requires GatherEnabled(c, g)
  {
    var p := c.loop;
    var h := c.hist;
    var past := c.past;
    match g
    case TakeToken(coalesce) =>
      c.(sh := c.sh.(token := false), loop := p.(at := if coalesce then Coalescing else Draining))
    case Quit => c.(loop := p.(at := Dead))
    case Coalesced => c.(loop := p.(at := Absorbing))
    case Absorb => c.(sh := c.sh.(token := false), loop := p.(at := Draining))
    case DrainAll =>
      c.(sh := Drain(c.sh), seqNo := c.seqNo + 1,
         loop := p.(at := Snapshotting, n := c.seqNo + 1, waiting := c.sh.pending))
    case Snapshot =>
      c.(hist := h.(decls := h.decls[p.n := |h.log|]), loop := p.(at := Connecting, body := Replay(h.log)))
    case LookupConn =>
      c.(loop := if c.sh.conn == None then p.(at := Releasing, cause := NotConnected, exits := false)
                 else p.(at := Gauging))
    case Gauge => c.(loop := p.(at := if Rested(c) then Prepared else Sleeping))
    case Wake => c.(loop := p.(at := Prepared))
    case Lose =>
      c.(loop := p.(at := Dead, waiting := []), past := past.(dropped := past.dropped + p.waiting))
  }

  predicate SendEnabled(c: Client, e: SendStep) {
    var at := c.loop.at;
    match e
    case CarryEmpty => at == Prepared && c.loop.body == {}
    case EmptyWritten => at == EmptyWriting
    case EmptyUnwritten(_) => at == EmptyWriting
    case StampEmpty => at == EmptyStamping
    case AnnounceBody => at == Prepared && c.loop.body != {}
    case Written => at == Writing
    case WriteFailed(_) => at == Writing
    case StampWrite => at == Stamping
    case UndoWrite => at == RollingBack
    case ReleaseOne => at == Releasing && c.loop.waiting != []
    case ReleaseDone => at == Releasing && c.loop.waiting == []
  }

  function SendApply(c: Client, e: SendStep): Client
    requires SendEnabled(c, e)
  {
    var p := c.loop;
    var h := c.hist;
    var past := c.past;
    match e
    case CarryEmpty =>
      c.(sh := CarryAll(c.sh), loop := p.(at := EmptyWriting, waiting := Carried(c.sh, p.waiting)))
    case EmptyWritten => c.(loop := p.(at := EmptyStamping), past := past.(writes := past.writes + [c.now]))
    case EmptyUnwritten(_) => c.(loop := p.(at := Releasing, cause := Unwritten, exits := true))
    case StampEmpty =>
      c.(sh := c.sh.(lastAt := c.now), loop := p.(at := Releasing, cause := Emptied(p.n), exits := false))
    case AnnounceBody =>
      c.(sh := Announce(c.sh, Declared(p.n), p.waiting),
         loop := p.(at := Writing, waiting := [], prev := c.sh.lastId))
    case Written => c.(loop := p.(at := Stamping), past := past.(writes := past.writes + [c.now]))
    case WriteFailed(_) => c.(loop := p.(at := RollingBack))
    case StampWrite => c.(sh := c.sh.(lastAt := c.now), loop := p.(at := Idle))
    case UndoWrite =>
      c.(sh := RollBack(c.sh, p.prev),
         loop := p.(at := Releasing, waiting := AllWaiters(c.sh.batches), cause := Unwritten, exits := true))
    case ReleaseOne =>
      c.(loop := p.(waiting := p.waiting[1..]),
         past := past.(released := past.released + [Release(p.waiting[0], p.cause)]))
    case ReleaseDone => c.(loop := p.(at := if p.exits then Dead else Idle))
  }

  predicate ReadEnabled(c: Client, r: ReadStep) {
    var at := c.reader.at;
    match r
    case Receive(_) => at == Reading
    case ReadError => at == Reading
    case CheckStale => at == Checking
    case RejectNext => at == Rejecting && c.reader.i < |c.reader.rejected|
    case RejectsDone => at == Rejecting && c.reader.i >= |c.reader.rejected|
    case TakeAnswers => at == Taking
    case AnswerOne => at == Answering && c.reader.chs != []
    case AnswerDone => at == Answering && c.reader.chs == []
  }

  function ReadApply(c: Client, r: ReadStep): Client
    requires ReadEnabled(c, r)
  {
    var p := c.reader;
    var h := c.hist;
    var past := c.past;
    match r
    case Receive(f) =>
      (match f
       case Ack(id, rejected) => c.(reader := p.(at := Checking, id := id, rejected := rejected))
       case RateLimited(_) => c.(timers := c.timers + 1)
       case Refused(id) =>
         if id == NoId then c else c.(reader := p.(at := Taking, id := id, cause := Failed(id)))
       case Shutdown => c
       case Other => c)
    case ReadError => c.(reader := p.(at := Gone))
    case CheckStale => c.(reader := p.(at := Rejecting, i := 0, stale := Stale(c.sh, p.id)))
    case RejectNext =>
      c.(reader := p.(i := p.i + 1),
         hist := if p.stale then h else h.(log := h.log + [Reject(p.rejected[p.i])]))
    case RejectsDone => c.(reader := p.(at := Taking, cause := Acked(p.id, p.rejected)))
    case TakeAnswers =>
      c.(sh := TakeBatch(c.sh, p.id), reader := p.(at := Answering, chs := TakenBatch(c.sh, p.id)))
    case AnswerOne =>
      c.(reader := p.(chs := p.chs[1..]),
         past := past.(released := past.released + [Release(p.chs[0], p.cause)]))
    case AnswerDone => c.(reader := p.(at := Reading))
  }

  predicate RunEnabled(c: Client, u: RunStep) {
    var at := c.run.at;
    match u
    case JoinAndFail => at == Serving && c.loop.at == Dead && c.reader.at == Gone && !c.ping
    case FailOne => at == Failing && c.run.chs != []
    case FailDone => at == Failing && c.run.chs == []
    case RunSwap => at == RunSwapping
    case RunClose => at == RunClosing
    case Decide => at == Deciding
    case AbortDial => at == Dialling && Cancelled(c)
    case DialOk => at == Dialling
    case Install => at == Installing
    case Signal => at == Signalling
  }

  /** `closeConn`: a nil connection is left alone. */
  function CloseConn(net: Net, held: Option<Conn>, closer: Closer): Net {
    match held
    case None => net
    case Some(k) => net.(open := net.open - {k}, closings := net.closings + [Closing(k, closer)])
  }

  function RunApply(c: Client, u: RunStep): Client
    requires RunEnabled(c, u)
  {
    var p := c.run;
    match u
    case JoinAndFail =>
      c.(sh := FailAll(c.sh), run := p.(at := Failing, chs := Carried(c.sh, c.sh.pending)))
    case FailOne =>
      c.(run := p.(chs := p.chs[1..]),
         past := c.past.(released := c.past.released + [Release(p.chs[0], ConnectionLost)]))
    case FailDone => c.(run := p.(at := RunSwapping))
    case RunSwap => c.(sh := c.sh.(conn := None), run := p.(at := RunClosing, held := c.sh.conn))
    case RunClose => c.(net := CloseConn(c.net, p.held, ByRun), run := p.(at := Deciding, held := None))
    case Decide => c.(run := p.(at := if Cancelled(c) || !c.auto then Finished else Dialling))
    case AbortDial => c.(run := p.(at := Finished))
    case DialOk =>
      var k := c.net.dialled + 1;
      c.(net := c.net.(dialled := k, open := c.net.open + {k}), run := p.(at := Installing, next := Some(k)))
    case Install => c.(sh := c.sh.(conn := p.next), run := p.(at := Signalling, next := None))
    case Signal =>
      c.(sh := c.sh.(token := true), run := p.(at := Serving), loop := IDLE, reader := READING,
         ping := true, timers := 0, oldTimers := c.oldTimers + c.timers)
  }

  predicate CloseEnabled(c: Client, k: CloseStep) {
    var at := c.close.at;
    match k
    case Begin => at == Open
    case Cancel => at == Cancelling
    case CloseSwap => at == CloseSwapping
    case CloseIt => at == CloseClosing
    case Return => at == CloseWaiting && c.run.at == Finished
  }

  function CloseApply(c: Client, k: CloseStep): Client
    requires CloseEnabled(c, k)
  {
    var p := c.close;
    match k
    case Begin => c.(close := p.(at := Cancelling))
    case Cancel => c.(close := p.(at := CloseSwapping))
    case CloseSwap => c.(sh := c.sh.(conn := None), close := Close(CloseClosing, c.sh.conn))
    case CloseIt => c.(net := CloseConn(c.net, p.held, ByClose), close := Close(CloseWaiting, None))
    case Return => c.(close := p.(at := Returned))
  }

  predicate MiscEnabled(c: Client, x: MiscStep) {
    match x
    case Tick(_) => true
    case PingEnds => c.ping
    case TimerFires => c.timers > 0
    case TimerCancelled => c.timers > 0 && (ConnDone(c) || c.run.at != Serving)
    case OldTimer(_) => c.oldTimers > 0
  }

  function MiscApply(c: Client, x: MiscStep): Client
    requires MiscEnabled(c, x)
  {
    match x
    case Tick(d) => c.(now := c.now + d)
    case PingEnds => c.(ping := false)
    case TimerFires => c.(sh := c.sh.(token := true), timers := c.timers - 1)
    case TimerCancelled => c.(timers := c.timers - 1)
    case OldTimer(fires) =>
      c.(sh := if fires then c.sh.(token := true) else c.sh, oldTimers := c.oldTimers - 1)
  }

  predicate Enabled(c: Client, step: Step) {
    match step
    case Api(a) => ApiEnabled(c, a)
    case Gathering(g) => GatherEnabled(c, g)
    case Sending(e) => SendEnabled(c, e)
    case Reads(r) => ReadEnabled(c, r)
    case Running(u) => RunEnabled(c, u)
    case CloseCall(k) => CloseEnabled(c, k)
    case Misc(x) => MiscEnabled(c, x)
  }

  function Apply(c: Client, step: Step): Client
    requires Enabled(c, step)
  {
    match step
    case Api(a) => ApiApply(c, a)
    case Gathering(g) => GatherApply(c, g)
    case Sending(e) => SendApply(c, e)
    case Reads(r) => ReadApply(c, r)
    case Running(u) => RunApply(c, u)
    case CloseCall(k) => CloseApply(c, k)
    case Misc(x) => MiscApply(c, x)
  }

  /** `steps` is a run from `a` that ends in `b`. */
  predicate Runs(a: Client, steps: seq<Step>, b: Client)
    decreases steps
  {
    if steps == [] then a == b
    else Enabled(a, steps[0]) && Runs(Apply(a, steps[0]), steps[1..], b)
  }

  ghost predicate Reachable(c: Client) {
    exists auto, steps :: Runs(Init(auto), steps, c)
  }
}
