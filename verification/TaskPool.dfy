/**
 The task connection pool as a step machine: any number of threads, one step per channel operation,
 flag test, write or read, in every interleaving, beside a gateway that answers on the other end of
 each connection. `Do` is what one step does; a run is a list of steps.
 */
module TaskPool {
  import opened Framing
  import opened Transfer

  /** The pool's settings and the gateway it talks to. `cap` is the capacity of both channels, `timed`
      tells whether waitTimeout is positive, `beat` is the heartbeat message. The gateway replies only
      to messages for which `isQuery` holds, with a body that `answers` the query. */
  datatype Config = Config(
    cap: nat,
    timed: bool,
    beat: Message,
    isQuery: Message -> bool,
    answers: (Message, Message) -> bool)

  /** Heartbeats are not answered. */
  predicate Sane(cfg: Config) {
    Fits(cfg.beat) && !cfg.isQuery(cfg.beat)
  }

  /** One connection: its flag, the bytes written to it, the replies the gateway has sent back on it
      and how many bytes of those replies have been read. */
  datatype Conn = Conn(up: bool, out: seq<byte>, replies: seq<Message>, read: nat)

  const FRESH := Conn(true, [], [], 0)

  /** The requests on a wire that the gateway answers, as the gateway finds them in the bytes. */
  function Queries(cfg: Config, out: seq<byte>): seq<Message> {
    Select(cfg.isQuery, Decode(out).frames)
  }

  function Select(f: Message -> bool, ms: seq<Message>): seq<Message> {
    if ms == [] then []
    else Select(f, ms[..|ms| - 1]) + if f(ms[|ms| - 1]) then [ms[|ms| - 1]] else []
  }

  /** The bytes of the replies that have not been read yet. */
  function Unread(k: Conn): seq<byte> {
    var stream := EncodeAll(k.replies);
    if k.read <= |stream| then stream[k.read..] else []
  }

  /** Why a message is being sent: a one-way message, a query, or the heartbeat's own message with
      `left` turns of its loop to go. */
  datatype Job = OneWay | Query | Heartbeat(left: nat)

  /** What a thread goes on with after giving back a connection or a token. */
  datatype Resume = ToCaller | ToBeat(left: nat) | ToSweep(turn: nat)

  /** Where a thread is. */
  datatype PC =
    | Idle
    | SawEmpty                                           // Get: len(pool) was 0, about to select on size
    | Dialing                                            // Get: holds a token
    | Waiting                                            // Get: about to receive from pool
    | Holding(c: nat)                                    // the caller has a connection
    | Sending(c: nat, msg: Message, done: nat, job: Job) // Send: `done` bytes of the frame are out
    | Receiving(c: nat, msg: Message, got: seq<byte>)    // Receive after the query `msg`
    | Answered(c: nat, msg: Message, body: Message)      // Receive returned `body` to the query `msg`
    | PutIdle(c: nat, next: Resume)                      // about to send the connection on pool
    | PutToken(next: Resume)                             // about to send a token on size
    | BeatLoop(left: nat)                                // head of the heartbeat loop
    | BeatHolds(c: nat, left: nat)                       // heartbeat: about to test the connection
    | Shutting(c: nat, next: Resume)                     // about to close a connection taken from pool
    | CloseSeen                                          // Close: closedCh was open, about to close it
    | SweepLoop(turn: nat)                               // head of the loop of Close
    | Crashed                                            // closed closedCh a second time

  datatype State = State(
    threads: seq<PC>,
    tokens: nat,         // channel size
    idle: seq<nat>,      // channel pool, oldest first
    conns: seq<Conn>,    // every connection ever dialled
    closed: bool)        // closedCh is closed

  datatype Step =
    | Spawn                             // a new goroutine
    | Reply(c: nat, body: Message)      // the gateway answers the next query on connection c
    | GetTest(t: nat)
    | GetSelect(t: nat)
    | DialResult(t: nat, ok: bool)
    | TakeIdle(t: nat)
    | WaitExpires(t: nat)
    | Begin(t: nat, msg: Message)
    | WriteOnce(t: nat, wev: WriteEvent)
    | ReadOnce(t: nat, rev: ReadEvent)
    | Digest(t: nat)
    | Release(t: nat)
    | SendIdle(t: nat)
    | SendToken(t: nat)
    | BeatStart(t: nat)
    | BeatTurn(t: nat, quit: bool)
    | BeatTest(t: nat)
    | Shut(t: nat)
    | CloseTest(t: nat)
    | CloseMark(t: nat)
    | SweepTurn(t: nat)

  function NewPool(cfg: Config): State {
    State([], cfg.cap, [], [], false)
  }

  /** The connection a thread holds, or -1. */
  function Sock(p: PC): int {
    match p
    case Holding(c) => c
    case Sending(c, _, _, _) => c
    case Receiving(c, _, _) => c
    case Answered(c, _, _) => c
    case PutIdle(c, _) => c
    case BeatHolds(c, _) => c
    case Shutting(c, _) => c
    case _ => -1
  }

  predicate InRange(s: State, t: nat) {
    t < |s.threads| && Sock(s.threads[t]) < |s.conns|
  }

  /** When a step can be taken. A channel send waits for room, a receive for an element. */
  predicate Enabled(cfg: Config, s: State, step: Step) {
    match step
    case Spawn => true
    case Reply(c, body) =>
      && c < |s.conns| && Fits(body)
      && var k := s.conns[c];
         var qs := Queries(cfg, k.out);
         |k.replies| < |qs| && cfg.answers(qs[|k.replies|], body)
    case GetTest(t) => InRange(s, t) && s.threads[t].Idle?
    case GetSelect(t) => InRange(s, t) && s.threads[t].SawEmpty?
    case DialResult(t, ok) => InRange(s, t) && s.threads[t].Dialing?
    case TakeIdle(t) => InRange(s, t) && s.threads[t].Waiting? && |s.idle| > 0
    case WaitExpires(t) => InRange(s, t) && s.threads[t].Waiting? && cfg.timed
    case Begin(t, msg) => InRange(s, t) && s.threads[t].Holding? && Fits(msg)
    case WriteOnce(t, ev) =>
      && InRange(s, t) && s.threads[t].Sending?
      && s.threads[t].done < |Frame(s.threads[t].msg)|
      && (s.conns[s.threads[t].c].up || ev.DeadlineError?)
    case ReadOnce(t, ev) =>
      InRange(s, t) && s.threads[t].Receiving? && (s.conns[s.threads[t].c].up || ev.ReadError?)
    case Digest(t) => InRange(s, t) && s.threads[t].Answered?
    case Release(t) => InRange(s, t) && s.threads[t].Holding?
    case SendIdle(t) => InRange(s, t) && s.threads[t].PutIdle? && |s.idle| < cfg.cap
    case SendToken(t) => InRange(s, t) && s.threads[t].PutToken? && s.tokens < cfg.cap
    case BeatStart(t) => InRange(s, t) && s.threads[t].Idle?
    case BeatTurn(t, quit) =>
      && InRange(s, t) && s.threads[t].BeatLoop? && (quit ==> s.closed)
      && (s.threads[t].left > 0 && s.closed && |s.idle| == 0 ==> quit)
    case BeatTest(t) => InRange(s, t) && s.threads[t].BeatHolds?
    case Shut(t) => InRange(s, t) && s.threads[t].Shutting?
    case CloseTest(t) => InRange(s, t) && s.threads[t].Idle?
    case CloseMark(t) => InRange(s, t) && s.threads[t].CloseSeen?
    case SweepTurn(t) => InRange(s, t) && s.threads[t].SweepLoop?
  }

  function Goto(s: State, t: nat, p: PC): State
    requires t < |s.threads|
  {
    s.(threads := s.threads[t := p])
  }

  function SetConn(s: State, c: nat, k: Conn): State
    requires c < |s.conns|
  {
    s.(conns := s.conns[c := k])
  }

  function Back(r: Resume): PC {
    match r
    case ToCaller => Idle
    case ToBeat(left) => BeatLoop(left)
    case ToSweep(turn) => SweepLoop(turn)
  }

  /** What follows a Send: queries read whether or not the send succeeded, the heartbeat looks at the
      result, one-way senders ignore it. */
  function AfterSend(c: nat, msg: Message, job: Job, ok: bool): PC {
    match job
    case OneWay => Holding(c)
    case Query => Receiving(c, msg, [])
    case Heartbeat(left) => if ok then PutIdle(c, ToBeat(left)) else Shutting(c, ToBeat(left))
  }

  function DoWrite(s: State, t: nat, ev: WriteEvent): State
    requires t < |s.threads| && s.threads[t].Sending? && s.threads[t].c < |s.conns|
    requires s.threads[t].done < |Frame(s.threads[t].msg)|
  {
    var Sending(c, msg, done, job) := s.threads[t];
    var k := s.conns[c];
    var r := WriteTurn(Frame(msg), done, ev, 0);
    var k' := k.(out := k.out + Frame(msg)[done..r.done], up := k.up && r.verdict != Failed(true));
    var p := if r.verdict.Continue? then Sending(c, msg, r.done, job)
             else AfterSend(c, msg, job, r.verdict.Sent?);
    Goto(SetConn(s, c, k'), t, p)
  }

  function DoRead(s: State, t: nat, ev: ReadEvent): State
    requires t < |s.threads| && s.threads[t].Receiving? && s.threads[t].c < |s.conns|
  {
    var Receiving(c, msg, got) := s.threads[t];
    var k := s.conns[c];
    match ev
    case ReadError => Goto(SetConn(s, c, k.(up := false)), t, Holding(c))
    case Arrived(n) =>
      var m := Take(got, |Unread(k)|, n);
      var got' := got + Unread(k)[..m];
      var p := if StartsWhole(got') then Answered(c, msg, got'[4..]) else Receiving(c, msg, got');
      Goto(SetConn(s, c, k.(read := k.read + m)), t, p)
  }

  function Do(cfg: Config, s: State, step: Step): State
    requires Enabled(cfg, s, step)
  {
    match step
    case Spawn => s.(threads := s.threads + [Idle])
    case Reply(c, body) => SetConn(s, c, s.conns[c].(replies := s.conns[c].replies + [body]))
    case GetTest(t) => Goto(s, t, if |s.idle| == 0 then SawEmpty else Waiting)
    case GetSelect(t) =>
      if s.tokens > 0 then Goto(s, t, Dialing).(tokens := s.tokens - 1) else Goto(s, t, Waiting)
    case DialResult(t, ok) =>
      if ok then Goto(s, t, Holding(|s.conns|)).(conns := s.conns + [FRESH])
      else Goto(s, t, PutToken(ToCaller))
    case TakeIdle(t) => Goto(s, t, Holding(s.idle[0])).(idle := s.idle[1..])
    case WaitExpires(t) => Goto(s, t, Idle)
    case Begin(t, msg) =>
      Goto(s, t, Sending(s.threads[t].c, msg, 0, if cfg.isQuery(msg) then Query else OneWay))
    case WriteOnce(t, ev) => DoWrite(s, t, ev)
    case ReadOnce(t, ev) => DoRead(s, t, ev)
    case Digest(t) => Goto(s, t, Holding(s.threads[t].c))
    case Release(t) =>
      var c := s.threads[t].c;
      Goto(s, t, if s.conns[c].up then PutIdle(c, ToCaller) else PutToken(ToCaller))
    case SendIdle(t) => Goto(s, t, Back(s.threads[t].next)).(idle := s.idle + [s.threads[t].c])
    case SendToken(t) => Goto(s, t, Back(s.threads[t].next)).(tokens := s.tokens + 1)
    case BeatStart(t) => Goto(s, t, BeatLoop(|s.idle|))
    case BeatTurn(t, quit) =>
      var left := s.threads[t].left;
      if left == 0 || quit then Goto(s, t, Idle)
      else if |s.idle| == 0 then Goto(s, t, BeatLoop(left - 1))
      else Goto(s, t, BeatHolds(s.idle[0], left - 1)).(idle := s.idle[1..])
    case BeatTest(t) =>
      var BeatHolds(c, left) := s.threads[t];
      Goto(s, t, if s.conns[c].up then Sending(c, cfg.beat, 0, Heartbeat(left))
                 else Shutting(c, ToBeat(left)))
    case Shut(t) =>
      var c := s.threads[t].c;
      Goto(SetConn(s, c, s.conns[c].(up := false)), t, PutToken(s.threads[t].next))
    case CloseTest(t) => Goto(s, t, if s.closed then Idle else CloseSeen)
    case CloseMark(t) =>
      if s.closed then Goto(s, t, Crashed) else Goto(s, t, SweepLoop(0)).(closed := true)
    case SweepTurn(t) =>
      var turn := s.threads[t].turn;
      if turn >= cfg.cap then Goto(s, t, Idle)
      else if |s.idle| == 0 then Goto(s, t, SweepLoop(turn + 1))
      else Goto(s, t, Shutting(s.idle[0], ToSweep(turn + 1))).(idle := s.idle[1..])
  }

  /** Every step of the list can be taken when its turn comes. */
  predicate Legal(cfg: Config, s: State, steps: seq<Step>)
    decreases |steps|
  {
    steps == [] || (Enabled(cfg, s, steps[0]) && Legal(cfg, Do(cfg, s, steps[0]), steps[1..]))
  }

  function Run(cfg: Config, s: State, steps: seq<Step>): State
    requires Legal(cfg, s, steps)
    decreases |steps|
  {
    if steps == [] then s else Run(cfg, Do(cfg, s, steps[0]), steps[1..])
  }
}
