/**
 Unregistering a main socket: the caller, the heartbeat loop and the receive loop pass one token through
 a channel of capacity one, which Close later closes. One step per channel operation, message or network
 event, in every interleaving.
 */
module Baton {

  /** Who put the token into the channel. */
  datatype Origin = ByCaller | ByHeart | ByReceiver

  /** One Unregister followed by Close, or Close alone. */
  datatype Caller =
    | Start
    | Offering                  // about to send the token on closedCh
    | Reclaiming                // about to receive it back
    | Writing(got: Origin)      // has received it, about to send the request
    | AwaitingReply             // the request was sent, about to receive from closedCh
    | Returned(ok: bool)
    | Closed                    // has closed closedCh

  datatype Heart =
    | Beating                   // in the select of its loop
    | InHand(token: Origin)     // took the token, about to send it back
    | Quit
    | HeartPanicked             // sent on a closed channel

  datatype Receiver =
    | Reading
    | Dialling                  // Receive returned nil
    | Registering               // connected again, about to send Register
    | AwaitingRegister          // Register is about to read its reply, whatever message comes
    | Handing                   // read the reply to Unregister, about to send on closedCh
    | Done
    | ReceiverPanicked

  datatype Request = AskRegister | AskUnregister

  datatype Message = RegisterReply | UnregisterReply | Event

  /** The connection: `requests` wait at the gateway, which answers them in order, `registered` tells whether
      it sends events on this connection, `inbox` is on its way to this side. `lost` counts unregister
      requests and replies to them that the receive loop will never see. */
  datatype State = State(
    caller: Caller,
    heart: Heart,
    receiver: Receiver,
    chan: seq<Origin>,
    closed: bool,
    requests: seq<Request>,
    registered: bool,
    inbox: seq<Message>,
    lost: nat)

  const INITIAL := State(Start, Beating, Reading, [], false, [], true, [], 0)

  datatype Step =
    | Unregister
    | Offer
    | Reclaim
    | WriteRequest(ok: bool)    // Send's result; true may still be lost with the connection
    | TakeReply
    | CloseChannel
    | HeartTakes
    | HeartSeesClosed
    | HeartTicks
    | HeartPutsBack
    | ReadMessage
    | LoseConnection
    | Reconnect(ok: bool)
    | SendRegister(ok: bool)
    | ReadRegisterReply
    | HandOver
    | GatewayReplies            // to the oldest request
    | GatewaySends              // an event, to a registered process

  predicate Enabled(s: State, step: Step) {
    match step
    case Unregister => s.caller.Start?
    case Offer => s.caller.Offering? && |s.chan| < 1
    case Reclaim => s.caller.Reclaiming? && |s.chan| > 0
    case WriteRequest(ok) => s.caller.Writing? && (ok ==> !s.receiver.Dialling?)
    case TakeReply => s.caller.AwaitingReply? && |s.chan| > 0
    case CloseChannel => s.caller.Start? || s.caller.Returned?
    case HeartTakes => s.heart.Beating? && |s.chan| > 0
    case HeartSeesClosed => s.heart.Beating? && |s.chan| == 0 && s.closed
    case HeartTicks => s.heart.Beating?
    case HeartPutsBack => s.heart.InHand? && (s.closed || |s.chan| < 1)
    case ReadMessage => s.receiver.Reading? && |s.inbox| > 0
    case LoseConnection => s.receiver.Reading? || s.receiver.AwaitingRegister?
    case Reconnect(_) => s.receiver.Dialling?
    case SendRegister(_) => s.receiver.Registering?
    case ReadRegisterReply => s.receiver.AwaitingRegister? && |s.inbox| > 0
    case HandOver => s.receiver.Handing? && (s.closed || |s.chan| < 1)
    case GatewayReplies => |s.requests| > 0
    case GatewaySends => s.registered
  }

  /** How many replies to an unregister request are among the messages. */
  function Replies(inbox: seq<Message>): nat {
    multiset(inbox)[UnregisterReply]
  }

  /** How many unregister requests wait at the gateway. */
  function Asked(requests: seq<Request>): nat {
    multiset(requests)[AskUnregister]
  }

  function ReplyTo(request: Request): Message {
    if request.AskRegister? then RegisterReply else UnregisterReply
  }

  function Do(s: State, step: Step): State
    requires Enabled(s, step)
  {
    match step
    case Unregister => s.(caller := Offering)
    case Offer => s.(caller := Reclaiming, chan := [ByCaller])
    case Reclaim => s.(caller := Writing(s.chan[0]), chan := s.chan[1..])
    case WriteRequest(ok) =>
      if ok then s.(caller := AwaitingReply, requests := s.requests + [AskUnregister])
      else s.(caller := Returned(false))
    case TakeReply => s.(caller := Returned(true), chan := s.chan[1..])
    case CloseChannel => s.(caller := Closed, closed := true)
    case HeartTakes => s.(heart := InHand(s.chan[0]), chan := s.chan[1..])
    case HeartSeesClosed => s.(heart := Quit)
    case HeartTicks => s
    case HeartPutsBack => if s.closed then s.(heart := HeartPanicked) else s.(heart := Quit, chan := [ByHeart])
    case ReadMessage =>
      s.(inbox := s.inbox[1..], receiver := if s.inbox[0].UnregisterReply? then Handing else Reading)
    case LoseConnection =>
      s.(receiver := Dialling, requests := [], registered := false, inbox := [],
         lost := s.lost + Asked(s.requests) + Replies(s.inbox))
    case Reconnect(ok) => if ok then s.(receiver := Registering) else s
    case SendRegister(ok) =>
      if ok then s.(receiver := AwaitingRegister, requests := s.requests + [AskRegister])
      else s.(receiver := Reading)
    case ReadRegisterReply =>
      s.(inbox := s.inbox[1..], receiver := Reading,
         lost := s.lost + if s.inbox[0].UnregisterReply? then 1 else 0)
    case HandOver => if s.closed then s.(receiver := ReceiverPanicked) else s.(receiver := Done, chan := [ByReceiver])
    case GatewayReplies =>
      s.(requests := s.requests[1..], registered := s.requests[0].AskRegister?,
         inbox := s.inbox + [ReplyTo(s.requests[0])])
    case GatewaySends => s.(inbox := s.inbox + [Event])
  }

  predicate Legal(s: State, steps: seq<Step>)
    decreases |steps|
  {
    steps == [] || (Enabled(s, steps[0]) && Legal(Do(s, steps[0]), steps[1..]))
  }

  function Run(s: State, steps: seq<Step>): State
    requires Legal(s, steps)
    decreases |steps|
  {
    if steps == [] then s else Run(Do(s, steps[0]), steps[1..])
  }

  // ---------------------------------------------------------------- the invariant

  /** Tokens in the channel or in the heartbeat's hand. */
  function Tokens(s: State): nat {
    |s.chan| + if s.heart.InHand? then 1 else 0
  }

  /** Tokens, and everything that will become the receive loop's token or has been lost on the way. */
  function Batons(s: State): nat {
    Tokens(s) + Asked(s.requests) + Replies(s.inbox) + (if s.receiver.Handing? then 1 else 0) + s.lost
  }

  ghost predicate Passed(s: State) {
    match s.caller
    case Start => Batons(s) == 0 && s.heart.Beating? && !s.receiver.Done?
    case Offering => Batons(s) == 0 && s.heart.Beating? && !s.receiver.Done?
    case Reclaiming =>
      && Tokens(s) == 1 && Batons(s) == 1 && !s.receiver.Done?
      && (s.chan == [ByHeart] || s.chan == [ByCaller] || s.heart.InHand?)
      && (s.heart.Quit? <==> s.chan == [ByHeart])
    case Writing(got) =>
      && Batons(s) == 0 && !s.receiver.Done?
      && (got.ByHeart? || got.ByCaller?) && (s.heart.Quit? <==> got.ByHeart?)
    case AwaitingReply => Batons(s) == 1 && (Tokens(s) == 1 <==> s.receiver.Done?)
    case Returned(ok) => Batons(s) == 0 && (ok <==> s.receiver.Done?)
    case Closed => Batons(s) == 0
  }

  /** What is on a new connection before the receive loop reads from it: no event comes before the reply to
      its Register. */
  ghost predicate Linked(s: State) {
    match s.receiver
    case Dialling => s.requests == [] && s.inbox == [] && !s.registered
    case Registering => AskRegister !in s.requests && !s.registered
    case AwaitingRegister => s.inbox == [] ==> !s.registered && AskRegister in s.requests
    case _ => true
  }

  ghost predicate Good(s: State) {
    && |s.chan| <= 1
    && (s.closed <==> s.caller.Closed?)
    && !s.heart.HeartPanicked? && !s.receiver.ReceiverPanicked?
    && Passed(s) && Linked(s)
  }

  lemma RepliesPop(inbox: seq<Message>)
    requires |inbox| > 0
    ensures Replies(inbox) == Replies(inbox[1..]) + if inbox[0].UnregisterReply? then 1 else 0
  {
    assert inbox == [inbox[0]] + inbox[1..];
  }

  lemma AskedPop(requests: seq<Request>)
    requires |requests| > 0
    ensures Asked(requests) == Asked(requests[1..]) + if requests[0].AskUnregister? then 1 else 0
  {
    assert requests == [requests[0]] + requests[1..];
  }

  predicate CallerStep(step: Step) {
    step.Unregister? || step.Offer? || step.Reclaim? || step.WriteRequest? || step.TakeReply? || step.CloseChannel?
  }

  predicate HeartStep(step: Step) {
    step.HeartTakes? || step.HeartSeesClosed? || step.HeartTicks? || step.HeartPutsBack?
  }

  lemma CallerGood(s: State, step: Step)
    requires Good(s) && Enabled(s, step) && CallerStep(step)
    ensures Good(Do(s, step))
  {
  }

  lemma HeartGood(s: State, step: Step)
    requires Good(s) && Enabled(s, step) && HeartStep(step)
    ensures Good(Do(s, step))
  {
  }

  predicate ReceiverStep(step: Step) {
    step.ReadMessage? || step.ReadRegisterReply? || step.HandOver? || step.LoseConnection? || step.Reconnect?
  }

  lemma ReceiverGood(s: State, step: Step)
    requires Good(s) && Enabled(s, step) && ReceiverStep(step)
    ensures Good(Do(s, step))
  {
    if step.ReadMessage? || step.ReadRegisterReply? {
      RepliesPop(s.inbox);
    }
  }

  lemma GatewayGood(s: State, step: Step)
    requires Good(s) && Enabled(s, step) && (step.SendRegister? || step.GatewayReplies? || step.GatewaySends?)
    ensures Good(Do(s, step))
  {
    if step.GatewayReplies? {
      AskedPop(s.requests);
    }
  }

  lemma GoodStep(s: State, step: Step)
    requires Good(s) && Enabled(s, step)
    ensures Good(Do(s, step))
  {
    if CallerStep(step) {
      CallerGood(s, step);
    } else if HeartStep(step) {
      HeartGood(s, step);
    } else if ReceiverStep(step) {
      ReceiverGood(s, step);
    } else {
      GatewayGood(s, step);
    }
  }

  lemma {:induction false} GoodRun(s: State, steps: seq<Step>)
    requires Good(s) && Legal(s, steps)
    ensures Good(Run(s, steps))
    decreases |steps|
  {
    if steps != [] {
      GoodStep(s, steps[0]);
      GoodRun(Do(s, steps[0]), steps[1..]);
    }
  }

  // ---------------------------------------------------------------- what follows for every run

  /** At no time is there more than one token in the channel or in the heartbeat's hand. */
  lemma OneToken(steps: seq<Step>)
    requires Legal(INITIAL, steps)
    ensures Tokens(Run(INITIAL, steps)) <= 1
  {
    GoodRun(INITIAL, steps);
  }

  /** Whoever is about to send on closedCh finds it open and empty: no send blocks and none panics, also
      after Close. */
  lemma SendsAreSafe(steps: seq<Step>)
    requires Legal(INITIAL, steps)
    ensures var s := Run(INITIAL, steps);
            && (s.caller.Offering? ==> !s.closed && Enabled(s, Offer))
            && (s.heart.InHand? ==> !s.closed && Enabled(s, HeartPutsBack))
            && (s.receiver.Handing? ==> !s.closed && Enabled(s, HandOver))
            && !s.heart.HeartPanicked? && !s.receiver.ReceiverPanicked?
  {
    GoodRun(INITIAL, steps);
  }

  /** In the run the receive loop reads a reply to an unregister request. */
  predicate ReadsReply(s: State, steps: seq<Step>)
    requires Legal(s, steps)
    decreases |steps|
  {
    steps != [] &&
    ((steps[0].ReadMessage? && s.inbox[0].UnregisterReply?) || ReadsReply(Do(s, steps[0]), steps[1..]))
  }

  /** The receive loop has read the reply and hands over or has ended. */
  predicate Ended(r: Receiver) {
    r.Handing? || r.Done? || r.ReceiverPanicked?
  }

  lemma {:induction false} EndedByReply(s: State, steps: seq<Step>)
    requires Legal(s, steps)
    ensures Ended(Run(s, steps).receiver) <==> Ended(s.receiver) || ReadsReply(s, steps)
    decreases |steps|
  {
    if steps != [] {
      EndedByReply(Do(s, steps[0]), steps[1..]);
      EndedStep(s, steps[0]);
    }
  }

  lemma EndedStep(s: State, step: Step)
    requires Enabled(s, step)
    ensures Ended(Do(s, step).receiver) <==> Ended(s.receiver) || (step.ReadMessage? && s.inbox[0].UnregisterReply?)
  {
  }

  /** In every run Unregister that has got past its Send has returned true exactly when the receive loop has
      read the gateway's reply in that run, handed over its token and ended. */
  lemma TrueMeansRead(steps: seq<Step>)
    requires Legal(INITIAL, steps)
    ensures var s := Run(INITIAL, steps);
            && (s.caller.Returned? ==> (s.caller.ok <==> ReadsReply(INITIAL, steps)))
            && (s.caller.Returned? ==> (s.caller.ok <==> s.receiver.Done?) && s.chan == [] && !s.heart.InHand?)
  {
    GoodRun(INITIAL, steps);
    EndedByReply(INITIAL, steps);
  }

  /** In every run the receive loop is at its end if and only if it has read the reply to an unregister
      request; a lost connection, a failed Register or any other message never ends it. */
  lemma OnlyTheReplyEndsIt(steps: seq<Step>)
    requires Legal(INITIAL, steps)
    ensures var r := Run(INITIAL, steps).receiver; r.Handing? || r.Done? <==> ReadsReply(INITIAL, steps)
  {
    GoodRun(INITIAL, steps);
    EndedByReply(INITIAL, steps);
  }

  /** The first hand-shake cannot be stranded: until the caller has its token back, the token is in the
      channel for it to take or in the hand of the heartbeat, whose put-back is enabled. */
  lemma HandshakeIsNotStranded(steps: seq<Step>)
    requires Legal(INITIAL, steps)
    ensures var s := Run(INITIAL, steps);
            s.caller.Reclaiming? ==> Enabled(s, Reclaim) || (s.heart.InHand? && Enabled(s, HeartPutsBack))
  {
    GoodRun(INITIAL, steps);
  }

  /** While the caller waits for the reply, exactly one of these holds the baton: the gateway, the network,
      the receive loop, the channel, the heartbeat; or it has been lost. */
  lemma BatonIsSomewhere(steps: seq<Step>)
    requires Legal(INITIAL, steps)
    ensures var s := Run(INITIAL, steps);
            s.caller.AwaitingReply? ==>
              |s.chan| + (if s.heart.InHand? then 1 else 0) + Asked(s.requests) + Replies(s.inbox)
              + (if s.receiver.Handing? then 1 else 0) + s.lost == 1
  {
    GoodRun(INITIAL, steps);
  }

  /** The next message to come on the connection is the reply to the unregister request: it is the first on
      its way, or nothing is on its way and it answers the oldest request. */
  predicate ReplyIsNext(s: State) {
    if s.inbox != [] then s.inbox[0].UnregisterReply? else s.requests != [] && s.requests[0].AskUnregister?
  }

  /** The baton is lost, or a Register that waits for its reply will read the baton as its own. */
  predicate Doomed(s: State) {
    s.lost > 0 || (s.receiver.AwaitingRegister? && ReplyIsNext(s))
  }

  lemma DoomedStep(s: State, step: Step)
    requires Good(s) && s.caller.AwaitingReply? && Doomed(s) && Enabled(s, step)
    ensures Do(s, step).caller.AwaitingReply? && Doomed(Do(s, step))
  {
    if s.lost == 0 {
      if s.inbox != [] {
        RepliesPop(s.inbox);
      } else {
        AskedPop(s.requests);
      }
    }
  }

  lemma {:induction false} DoomedRun(s: State, steps: seq<Step>)
    requires Good(s) && s.caller.AwaitingReply? && Doomed(s) && Legal(s, steps)
    ensures Run(s, steps).caller.AwaitingReply?
    decreases |steps|
  {
    if steps != [] {
      GoodStep(s, steps[0]);
      DoomedStep(s, steps[0]);
      DoomedRun(Do(s, steps[0]), steps[1..]);
    }
  }

  /** There is a way for Unregister to return true. */
  ghost predicate CanReturn(s: State) {
    exists steps :: Legal(s, steps) && Run(s, steps).caller == Returned(true)
  }

  lemma First(s: State, step: Step, rest: seq<Step>, s': State)
    requires Enabled(s, step) && Legal(Do(s, step), rest) && Run(Do(s, step), rest) == s'
    ensures Legal(s, [step] + rest) && Run(s, [step] + rest) == s'
  {
    assert ([step] + rest)[1..] == rest;
  }

  lemma CanReturnAfter(s: State, step: Step)
    requires Enabled(s, step) && CanReturn(Do(s, step))
    ensures CanReturn(s)
  {
    var rest :| Legal(Do(s, step), rest) && Run(Do(s, step), rest).caller == Returned(true);
    First(s, step, rest, Run(Do(s, step), rest));
  }

  lemma {:induction false} TokenReturns(s: State)
    requires Good(s) && s.caller.AwaitingReply? && Tokens(s) == 1
    ensures CanReturn(s)
    decreases s.heart.InHand?
  {
    if s.heart.InHand? {
      GoodStep(s, HeartPutsBack);
      TokenReturns(Do(s, HeartPutsBack));
      CanReturnAfter(s, HeartPutsBack);
    } else {
      var s' := Do(s, TakeReply);
      assert Legal(s', []) && Run(s', []).caller == Returned(true);
      CanReturnAfter(s, TakeReply);
    }
  }

  lemma HandingReturns(s: State)
    requires Good(s) && s.caller.AwaitingReply? && s.receiver.Handing?
    ensures CanReturn(s)
  {
    GoodStep(s, HandOver);
    TokenReturns(Do(s, HandOver));
    CanReturnAfter(s, HandOver);
  }

  /** A receive loop that is reading gets to the reply. */
  lemma {:induction false} ReadingReturns(s: State)
    requires Good(s) && s.caller.AwaitingReply? && s.receiver.Reading? && s.lost == 0
    ensures CanReturn(s)
    decreases |s.inbox| + 2 * |s.requests|
  {
    if Tokens(s) == 1 {
      TokenReturns(s);
    } else if s.inbox == [] {
      assert Replies([]) == 0;
      var s' := Do(s, GatewayReplies);
      GoodStep(s, GatewayReplies);
      ReadingReturns(s');
      CanReturnAfter(s, GatewayReplies);
    } else {
      var s' := Do(s, ReadMessage);
      GoodStep(s, ReadMessage);
      if s'.receiver.Handing? {
        HandingReturns(s');
      } else {
        ReadingReturns(s');
      }
      CanReturnAfter(s, ReadMessage);
    }
  }

  /** So does one that is reconnecting: the Register after the dial may fail to be sent. */
  lemma {:induction false} ReconnectingReturns(s: State)
    requires Good(s) && s.caller.AwaitingReply? && s.lost == 0 && (s.receiver.Dialling? || s.receiver.Registering?)
    ensures CanReturn(s)
    decreases s.receiver.Dialling?
  {
    if s.receiver.Dialling? {
      GoodStep(s, Reconnect(true));
      ReconnectingReturns(Do(s, Reconnect(true)));
      CanReturnAfter(s, Reconnect(true));
    } else {
      GoodStep(s, SendRegister(false));
      ReadingReturns(Do(s, SendRegister(false)));
      CanReturnAfter(s, SendRegister(false));
    }
  }

  /** So does one whose Register gets its own reply. */
  lemma RegisteringReturns(s: State)
    requires Good(s) && s.caller.AwaitingReply? && s.receiver.AwaitingRegister? && !Doomed(s)
    ensures CanReturn(s)
  {
    if s.inbox == [] {
      GoodStep(s, GatewayReplies);
      AnsweredReturns(Do(s, GatewayReplies));
      CanReturnAfter(s, GatewayReplies);
    } else {
      AnsweredReturns(s);
    }
  }

  lemma AnsweredReturns(s: State)
    requires Good(s) && s.caller.AwaitingReply? && s.receiver.AwaitingRegister? && s.lost == 0
    requires |s.inbox| > 0 && !s.inbox[0].UnregisterReply?
    ensures CanReturn(s)
  {
    GoodStep(s, ReadRegisterReply);
    ReadingReturns(Do(s, ReadRegisterReply));
    CanReturnAfter(s, ReadRegisterReply);
  }

  /** Whenever the caller waits for the reply, Unregister can still return true if and only if the baton is not
      lost and no Register waits on a connection on which it is the next message. */
  lemma ReturnsExactly(steps: seq<Step>)
    requires Legal(INITIAL, steps)
    ensures var s := Run(INITIAL, steps); s.caller.AwaitingReply? ==> (CanReturn(s) <==> !Doomed(s))
  {
    GoodRun(INITIAL, steps);
    var s := Run(INITIAL, steps);
    if s.caller.AwaitingReply? {
      if Doomed(s) {
        forall later | Legal(s, later) ensures Run(s, later).caller != Returned(true) {
          DoomedRun(s, later);
        }
      } else {
        match s.receiver
        case Done => TokenReturns(s);
        case Handing => HandingReturns(s);
        case Reading => ReadingReturns(s);
        case Dialling => ReconnectingReturns(s);
        case Registering => ReconnectingReturns(s);
        case AwaitingRegister => RegisteringReturns(s);
      }
    }
  }

  /** The heartbeat takes the token before the caller takes it back. */
  predicate HeartFirst(steps: seq<Step>) {
    exists i, j :: 0 <= i < j < |steps| && steps[i] == HeartTakes && steps[j] == Reclaim
  }

  /** The heartbeat has taken the token. */
  predicate Stopping(heart: Heart) {
    heart.InHand? || heart.Quit?
  }

  lemma HeartFirstAfter(step: Step, rest: seq<Step>)
    ensures HeartFirst([step] + rest) <==> HeartFirst(rest) || (step == HeartTakes && Reclaim in rest)
  {
    var steps := [step] + rest;
    if HeartFirst(rest) {
      var i, j :| 0 <= i < j < |rest| && rest[i] == HeartTakes && rest[j] == Reclaim;
      assert steps[i + 1] == HeartTakes && steps[j + 1] == Reclaim;
    }
    if step == HeartTakes && Reclaim in rest {
      var j :| 0 <= j < |rest| && rest[j] == Reclaim;
      assert steps[0] == HeartTakes && steps[j + 1] == Reclaim;
    }
    if HeartFirst(steps) {
      var i, j :| 0 <= i < j < |steps| && steps[i] == HeartTakes && steps[j] == Reclaim;
      assert rest[j - 1] == Reclaim;
      if i > 0 {
        assert rest[i - 1] == HeartTakes;
      }
    }
  }

  /** The caller has not yet taken the token back. */
  predicate BeforeReclaim(c: Caller) {
    c.Start? || c.Offering? || c.Reclaiming?
  }

  lemma {:induction false} ReclaimHappens(s: State, steps: seq<Step>)
    requires Legal(s, steps) && !s.caller.Writing? && Run(s, steps).caller.Writing?
    ensures Reclaim in steps
    decreases |steps|
  {
    if steps[0] != Reclaim {
      ReclaimHappens(Do(s, steps[0]), steps[1..]);
    }
  }

  lemma {:induction false} HeartSchedule(s: State, steps: seq<Step>)
    requires Good(s) && Legal(s, steps) && Run(s, steps).caller.Writing?
    ensures BeforeReclaim(s.caller) ==> (Run(s, steps).heart.Quit? <==> Stopping(s.heart) || HeartFirst(steps))
    ensures !BeforeReclaim(s.caller) ==> s.caller.Writing? && Run(s, steps).heart.Quit? == s.heart.Quit?
    ensures !BeforeReclaim(s.caller) ==> Reclaim !in steps
    decreases |steps|
  {
    if steps != [] {
      var step, rest := steps[0], steps[1..];
      GoodStep(s, step);
      HeartSchedule(Do(s, step), rest);
      assert steps == [step] + rest;
      HeartFirstAfter(step, rest);
      if BeforeReclaim(Do(s, step).caller) {
        ReclaimHappens(Do(s, step), rest);
      }
    }
  }

  /** The hand-shake is meant to stop the heartbeat before the request is written. In every run that gets
      there it has stopped if and only if it took the token before the caller took it back. */
  lemma HeartStoppedExactly(steps: seq<Step>)
    requires Legal(INITIAL, steps)
    ensures var s := Run(INITIAL, steps);
            s.caller.Writing? ==> (s.heart.Quit? <==> HeartFirst(steps)) && (s.heart.Quit? <==> s.caller.got.ByHeart?)
  {
    GoodRun(INITIAL, steps);
    if Run(INITIAL, steps).caller.Writing? {
      HeartSchedule(INITIAL, steps);
    }
  }

  /** It need not have: the caller can take its own token back from the buffer, and then writes while the
      heartbeat still ticks. */
  lemma HeartMayOutliveHandshake()
    ensures Legal(INITIAL, HandshakeSteps())
    ensures var s := Run(INITIAL, HandshakeSteps()); s.caller.Writing? && Enabled(s, HeartTicks)
  {
    HandshakeRun(INITIAL);
  }

  // ---------------------------------------------------------------- how the heartbeat and the caller end

  lemma {:induction false} QuitIsFinal(s: State, steps: seq<Step>, j: nat)
    requires s.heart.Quit? && Legal(s, steps) && j < |steps|
    ensures !HeartStep(steps[j])
    decreases |steps|
  {
    if j > 0 {
      QuitIsFinal(Do(s, steps[0]), steps[1..], j - 1);
    }
  }

  lemma {:induction false} HeartSilent(s: State, steps: seq<Step>, i: nat, j: nat)
    requires Good(s) && Legal(s, steps) && i < j < |steps| && (steps[i].HeartSeesClosed? || steps[i].HeartPutsBack?)
    ensures !HeartStep(steps[j])
    decreases |steps|
  {
    GoodStep(s, steps[0]);
    if i == 0 {
      QuitIsFinal(Do(s, steps[0]), steps[1..], j - 1);
    } else {
      HeartSilent(Do(s, steps[0]), steps[1..], i - 1, j - 1);
    }
  }

  /** In every run the heartbeat takes no step any more once it has seen the channel closed, or has put a token
      back. */
  lemma HeartEndsForGood(steps: seq<Step>, i: nat, j: nat)
    requires Legal(INITIAL, steps) && i < j < |steps| && (steps[i].HeartSeesClosed? || steps[i].HeartPutsBack?)
    ensures !HeartStep(steps[j])
  {
    HeartSilent(INITIAL, steps, i, j);
  }

  lemma {:induction false} QuitRun(s: State, steps: seq<Step>)
    requires Good(s) && Legal(s, steps)
    ensures Run(s, steps).heart.Quit? <==> s.heart.Quit? || HeartSeesClosed in steps || HeartPutsBack in steps
    decreases |steps|
  {
    if steps != [] {
      GoodStep(s, steps[0]);
      QuitRun(Do(s, steps[0]), steps[1..]);
      assert steps == [steps[0]] + steps[1..];
    }
  }

  /** In every run the heartbeat has ended if and only if it has seen the channel closed or put a token back. */
  lemma HeartEndsExactly(steps: seq<Step>)
    requires Legal(INITIAL, steps)
    ensures Run(INITIAL, steps).heart.Quit? <==> HeartSeesClosed in steps || HeartPutsBack in steps
  {
    QuitRun(INITIAL, steps);
  }

  predicate OnlyHeart(steps: seq<Step>) {
    forall i :: 0 <= i < |steps| ==> HeartStep(steps[i])
  }

  /** After Close the heartbeat can always end by itself: from every reachable closed state some continuation made
      of its own steps alone ends it. */
  lemma CloseEndsHeart(steps: seq<Step>) returns (later: seq<Step>)
    requires Legal(INITIAL, steps) && Run(INITIAL, steps).closed
    ensures OnlyHeart(later) && Legal(Run(INITIAL, steps), later)
    ensures Run(Run(INITIAL, steps), later).heart.Quit?
  {
    GoodRun(INITIAL, steps);
    var s := Run(INITIAL, steps);
    later := [];
    if !s.heart.Quit? {
      var s' := Do(s, HeartSeesClosed);
      assert Legal(s', []) && Run(s', []) == s';
      First(s, HeartSeesClosed, [], s');
      later := [HeartSeesClosed] + [];
    }
  }

  /** The connection has been lost and no dial has succeeded since. */
  predicate Offline(steps: seq<Step>) {
    exists i :: 0 <= i < |steps| && steps[i] == LoseConnection && Reconnect(true) !in steps[i..]
  }

  lemma OfflineAfter(step: Step, rest: seq<Step>)
    ensures Offline([step] + rest) <==> Offline(rest) || (step == LoseConnection && Reconnect(true) !in rest)
  {
    var steps := [step] + rest;
    if Offline(rest) {
      var i :| 0 <= i < |rest| && rest[i] == LoseConnection && Reconnect(true) !in rest[i..];
      assert steps[i + 1] == LoseConnection && steps[i + 1..] == rest[i..];
    }
    if step == LoseConnection && Reconnect(true) !in rest {
      assert steps[0] == LoseConnection && steps[0..] == [step] + rest;
    }
    if Offline(steps) {
      var i :| 0 <= i < |steps| && steps[i] == LoseConnection && Reconnect(true) !in steps[i..];
      if i > 0 {
        assert rest[i - 1] == LoseConnection && rest[i - 1..] == steps[i..];
      } else {
        assert steps[0..] == steps;
      }
    }
  }

  lemma {:induction false} DiallingRun(s: State, steps: seq<Step>)
    requires Legal(s, steps)
    ensures Run(s, steps).receiver.Dialling?
            <==> Offline(steps) || (s.receiver.Dialling? && Reconnect(true) !in steps)
    decreases |steps|
  {
    if steps != [] {
      DiallingRun(Do(s, steps[0]), steps[1..]);
      assert steps == [steps[0]] + steps[1..];
      OfflineAfter(steps[0], steps[1..]);
    }
  }

  /** In every run the receive loop is dialling if and only if the connection has been lost and no dial has
      succeeded since: it neither reads nor registers before it has connected again. */
  lemma DialsExactly(steps: seq<Step>)
    requires Legal(INITIAL, steps)
    ensures Run(INITIAL, steps).receiver.Dialling? <==> Offline(steps)
  {
    DiallingRun(INITIAL, steps);
  }

  lemma {:induction false} UnsentRun(s: State, steps: seq<Step>)
    requires Legal(s, steps)
    ensures Run(s, steps).caller == Returned(false) ==> s.caller == Returned(false) || WriteRequest(false) in steps
    ensures s.caller == Returned(false) || s.caller.Closed? || WriteRequest(false) in steps ==>
              Run(s, steps).caller == Returned(false) || Run(s, steps).caller.Closed?
    decreases |steps|
  {
    if steps != [] {
      UnsentRun(Do(s, steps[0]), steps[1..]);
      assert steps == [steps[0]] + steps[1..];
    }
  }

  /** In every run Unregister has returned false only if its request could not be sent, and once that has happened
      it has returned false, or Close has followed. */
  lemma FalseMeansUnsent(steps: seq<Step>)
    requires Legal(INITIAL, steps)
    ensures var c := Run(INITIAL, steps).caller;
            && (c == Returned(false) ==> WriteRequest(false) in steps)
            && (WriteRequest(false) in steps ==> c == Returned(false) || c.Closed?)
  {
    UnsentRun(INITIAL, steps);
  }

  /** There is a way for Unregister to get to writing its request. */
  ghost predicate CanWrite(s: State) {
    exists steps :: Legal(s, steps) && Run(s, steps).caller.Writing?
  }

  lemma CanWriteAfter(s: State, step: Step)
    requires Enabled(s, step) && CanWrite(Do(s, step))
    ensures CanWrite(s)
  {
    var rest :| Legal(Do(s, step), rest) && Run(Do(s, step), rest).caller.Writing?;
    First(s, step, rest, Run(Do(s, step), rest));
  }

  lemma ReclaimingWrites(s: State)
    requires Good(s) && s.caller.Reclaiming?
    ensures CanWrite(s)
    decreases s.heart.InHand?
  {
    if s.heart.InHand? {
      GoodStep(s, HeartPutsBack);
      ReclaimingWrites(Do(s, HeartPutsBack));
      CanWriteAfter(s, HeartPutsBack);
    } else {
      var s' := Do(s, Reclaim);
      assert Legal(s', []) && Run(s', []).caller.Writing?;
      CanWriteAfter(s, Reclaim);
    }
  }

  /** From every reachable state in which Unregister has begun and not written yet, it can still get to writing:
      the hand-shake blocks nobody. */
  lemma HandshakeCompletes(steps: seq<Step>)
    requires Legal(INITIAL, steps)
    ensures var s := Run(INITIAL, steps);
            s.caller.Start? || s.caller.Offering? || s.caller.Reclaiming? || s.caller.Writing? ==> CanWrite(s)
  {
    GoodRun(INITIAL, steps);
    BeforeWriting(Run(INITIAL, steps));
  }

  lemma BeforeWriting(s: State)
    requires Good(s)
    ensures s.caller.Start? || s.caller.Offering? || s.caller.Reclaiming? || s.caller.Writing? ==> CanWrite(s)
    decreases if s.caller.Start? then 1 else 0
  {
    match s.caller
    case Start =>
      GoodStep(s, Unregister);
      BeforeWriting(Do(s, Unregister));
      CanWriteAfter(s, Unregister);
    case Offering =>
      GoodStep(s, Offer);
      ReclaimingWrites(Do(s, Offer));
      CanWriteAfter(s, Offer);
    case Reclaiming => ReclaimingWrites(s);
    case Writing(_) => assert Legal(s, []) && Run(s, []).caller.Writing?;
    case _ =>
  }

  /** Close alone: the heartbeat sees the channel closed and has ended. */
  lemma CloseOnly()
    ensures Legal(INITIAL, [CloseChannel, HeartSeesClosed])
    ensures Run(INITIAL, [CloseChannel, HeartSeesClosed]) == INITIAL.(caller := Closed, closed := true, heart := Quit)
  {
    TwoSteps(INITIAL, CloseChannel, INITIAL.(caller := Closed, closed := true),
             HeartSeesClosed, INITIAL.(caller := Closed, closed := true, heart := Quit));
  }

  /** The heartbeat takes the token and puts it back. */
  function StopSteps(): seq<Step> {
    [HeartTakes, HeartPutsBack]
  }

  /** The request cannot be sent; Unregister returns false and Close follows. */
  function UnsentSteps(): seq<Step> {
    [WriteRequest(false), CloseChannel]
  }

  /** The hand-shake as it is meant, and a request that cannot be sent: the heartbeat has ended, Unregister has
      returned false and the channel is closed. */
  lemma StoppedAndUnsent()
    ensures var steps := [Unregister, Offer] + (StopSteps() + ([Reclaim] + UnsentSteps()));
            && Legal(INITIAL, steps)
            && Run(INITIAL, steps) == INITIAL.(caller := Closed, closed := true, heart := Quit)
  {
    var s1 := INITIAL.(caller := Offering);
    var s2 := s1.(caller := Reclaiming, chan := [ByCaller]);
    var s3 := s2.(heart := InHand(ByCaller), chan := []);
    var s4 := s3.(heart := Quit, chan := [ByHeart]);
    var s5 := s4.(caller := Writing(ByHeart), chan := []);
    var s6 := s5.(caller := Returned(false));
    var s7 := s6.(caller := Closed, closed := true);
    TwoSteps(s5, WriteRequest(false), s6, CloseChannel, s7);
    First(s4, Reclaim, UnsentSteps(), s7);
    First(s3, HeartPutsBack, [Reclaim] + UnsentSteps(), s7);
    First(s2, HeartTakes, [HeartPutsBack] + ([Reclaim] + UnsentSteps()), s7);
    First(s1, Offer, [HeartTakes] + ([HeartPutsBack] + ([Reclaim] + UnsentSteps())), s7);
    First(INITIAL, Unregister, [Offer] + ([HeartTakes] + ([HeartPutsBack] + ([Reclaim] + UnsentSteps()))), s7);
    assert [Unregister] + ([Offer] + ([HeartTakes] + ([HeartPutsBack] + ([Reclaim] + UnsentSteps()))))
           == [Unregister, Offer] + (StopSteps() + ([Reclaim] + UnsentSteps()));
  }

  // ---------------------------------------------------------------- a swallowed reply

  /** The connection is lost and the receive loop connects again. */
  function RejoinSteps(): seq<Step> {
    [LoseConnection, Reconnect(true)]
  }

  /** Unregister up to the point where the request is about to be written. */
  function HandshakeSteps(): seq<Step> {
    [Unregister, Offer, Reclaim]
  }

  /** The request is written before the receive loop sends its Register. */
  function RaceSteps(): seq<Step> {
    [WriteRequest(true), SendRegister(true)]
  }

  /** The gateway answers the older request and Register reads the answer. */
  function SwallowSteps(): seq<Step> {
    [GatewayReplies, ReadRegisterReply]
  }

  lemma TwoSteps(s: State, a: Step, s1: State, b: Step, s2: State)
    requires Enabled(s, a) && Do(s, a) == s1 && Enabled(s1, b) && Do(s1, b) == s2
    ensures Legal(s, [a, b]) && Run(s, [a, b]) == s2
  {
    assert Legal(s2, []) && Run(s2, []) == s2;
    First(s1, b, [], s2);
    First(s, a, [b] + [], s2);
    assert [a, b] == [a] + ([b] + []);
  }

  lemma HandshakeRun(s: State)
    requires s.caller.Start? && s.chan == []
    ensures Legal(s, HandshakeSteps()) && Run(s, HandshakeSteps()) == s.(caller := Writing(ByCaller))
  {
    var offering, reclaiming := s.(caller := Offering), s.(caller := Reclaiming, chan := [ByCaller]);
    TwoSteps(offering, Offer, reclaiming, Reclaim, s.(caller := Writing(ByCaller)));
    First(s, Unregister, [Offer, Reclaim], s.(caller := Writing(ByCaller)));
    assert HandshakeSteps() == [Unregister] + [Offer, Reclaim];
  }

  lemma RejoinRun(s: State)
    requires s.receiver.Reading? && s.requests == [] && s.inbox == []
    ensures Legal(s, RejoinSteps())
    ensures Run(s, RejoinSteps()) == s.(receiver := Registering, registered := false)
  {
    assert Asked([]) == 0 && Replies([]) == 0;
    TwoSteps(s, LoseConnection, s.(receiver := Dialling, registered := false), Reconnect(true),
             s.(receiver := Registering, registered := false));
  }

  const REJOINED := INITIAL.(receiver := Registering, registered := false)

  const ABOUT_TO_WRITE := REJOINED.(caller := Writing(ByCaller))

  const RACED :=
    REJOINED.(caller := AwaitingReply, receiver := AwaitingRegister, requests := [AskUnregister, AskRegister])

  const SWALLOWED := REJOINED.(caller := AwaitingReply, receiver := Reading, requests := [AskRegister], lost := 1)

  lemma RaceRun()
    ensures Legal(ABOUT_TO_WRITE, RaceSteps()) && Run(ABOUT_TO_WRITE, RaceSteps()) == RACED
  {
    var sent := REJOINED.(caller := AwaitingReply, requests := [AskUnregister]);
    assert [] + [AskUnregister] == [AskUnregister];
    TwoSteps(ABOUT_TO_WRITE, WriteRequest(true), sent, SendRegister(true), RACED);
  }

  lemma SwallowRun()
    ensures Legal(RACED, SwallowSteps()) && Run(RACED, SwallowSteps()) == SWALLOWED
  {
    var replied := RACED.(requests := [AskRegister], inbox := [UnregisterReply]);
    TwoSteps(RACED, GatewayReplies, replied, ReadRegisterReply, SWALLOWED);
  }

  /** How the baton gets lost on a live connection: the request is written after the receive loop has connected
      again and before it sends its Register, so the gateway answers it first and Register takes the answer
      for its own. From the moment Register has been sent there is no way for Unregister to return. */
  lemma RegisterSwallowsReply(later: seq<Step>)
    ensures Legal(INITIAL, RejoinSteps()) && Run(INITIAL, RejoinSteps()) == REJOINED
    ensures Legal(REJOINED, HandshakeSteps()) && Run(REJOINED, HandshakeSteps()) == ABOUT_TO_WRITE
    ensures Legal(ABOUT_TO_WRITE, RaceSteps()) && Run(ABOUT_TO_WRITE, RaceSteps()) == RACED
    ensures Legal(RACED, SwallowSteps()) && Run(RACED, SwallowSteps()) == SWALLOWED
    ensures Legal(RACED, later) ==> Run(RACED, later).caller.AwaitingReply?
  {
    RejoinRun(INITIAL);
    HandshakeRun(REJOINED);
    RaceRun();
    SwallowRun();
    if Legal(RACED, later) {
      RacedIsGood();
      DoomedRun(RACED, later);
    }
  }

  lemma RacedIsGood()
    ensures Good(RACED) && Doomed(RACED)
  {
    assert Asked([AskUnregister, AskRegister]) == 1 && Replies([]) == 0;
  }
}
