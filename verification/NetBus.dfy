/**
 Sends and queries over borrowed connections: the borrow, send, receive, release pattern of every
 NetBus method, on one gateway and on all of them. Every contract says what the gateway gets and what becomes
 of the connection: `used` is what each pool lent, an old connection or a new one, and `Done` says what has
 been written to it, what has been read from it, whether it is still up and that it is back in its queue if it
 is. No other idle connection is touched.
 */
module NetBuses {
  import opened Options
  import opened Collections
  import opened Framing
  import opened Transfer
  import opened Sockets
  import opened Address
  import opened TaskSockets

  /** What the network does during one exchange. */
  datatype Weather = Weather(sending: WriteEnv, deadlineSet: bool, receiving: ReadEnv)

  ghost predicate Moving(w: Weather) {
    Progress(w.sending) && Flowing(w.receiving)
  }

  ghost predicate AllMoving(ws: nat -> Weather) {
    (forall i: nat :: Moving(ws(i))) && AllProgress(Sendings(ws))
  }

  ghost function Sendings(ws: nat -> Weather): nat -> WriteEnv {
    (i: nat) => ws(i).sending
  }

  /** The bytes one Send of `data` puts on an open connection. */
  ghost function Put(data: Message, env: WriteEnv): seq<byte>
    requires Progress(env)
  {
    Frame(data)[..SendRun(Frame(data), 0, env, 0).done]
  }

  /** Sending `data` pollutes the stream, so the connection is closed. */
  ghost predicate Breaks(data: Message, env: WriteEnv)
    requires Progress(env)
  {
    SendRun(Frame(data), 0, env, 0).verdict == Failed(true)
  }

  /** What a query returns on a connection with the bytes `ahead` still to read. */
  ghost function Answer(open: bool, ahead: seq<byte>, message: Message, w: Weather): Option<Message>
    requires Moving(w)
  {
    var r := SendRun(Frame(message), 0, Faced(open, w.sending), 0);
    var h := Heard(open && r.verdict != Failed(true), w.deadlineSet, ahead, w.receiving);
    if h.Whole? then Some(h.body) else None
  }

  /** What a query to a pool with this offer brings back. */
  ghost function Outcome(offer: Offer, message: Message, w: Weather): Option<Message>
    requires Moving(w)
  {
    if offer.lends then Answer(true, offer.ahead, message, w) else None
  }

  /** What has happened to a connection since it was lent: the bytes written to it, how many bytes have been
      read from it, and whether it is still up. */
  datatype Use = Use(written: seq<byte>, read: nat, up: bool)

  /** A one-way send. */
  ghost function SendUse(data: Message, env: WriteEnv): Use
    requires Progress(env)
  {
    Use(Put(data, env), 0, !Breaks(data, env))
  }

  /** A query: the reply read is the next frame that arrives. */
  ghost function QueryUse(offer: Offer, message: Message, w: Weather): Use
    requires Moving(w)
  {
    var r := Outcome(offer, message, w);
    Use(Put(message, w.sending), if r.Some? then |r.value| + 4 else 0, r.Some?)
  }

  /** `s` is what the pool lent on this offer, if anything, used like this since. */
  ghost predicate Served(p: Pool, s: Socket?<Pool>, offer: Offer, use: Use)
    reads s
  {
    && (s != null <==> offer.lends)
    && (s != null ==>
          && s.tag == p && (offer.queue != [] ==> s == offer.queue[0])
          && s.wire == offer.wire + use.written
          && (s.IsConnected() <==> use.up)
          && (use.up ==> use.read <= |offer.ahead| && s.Ahead() == offer.ahead[use.read..]))
  }

  /** As `Served`, and the pool has got the connection back: it is at the end of the queue if it is up, and the
      caller holds nothing. */
  ghost predicate Done(p: Pool, s: Socket?<Pool>, offer: Offer, use: Use)
    reads p, s
  {
    Served(p, s, offer, use) && Back(p, s, offer)
  }

  /** Each of the first `|used|` pools is done with its use of the connection it lent, if any. */
  ghost predicate AllDone(ps: seq<Pool>, used: seq<Socket?<Pool>>, offers: seq<Offer>, uses: seq<Use>)
    requires |used| <= |ps| == |offers| == |uses|
    reads ps[..|used|], used
  {
    forall j :: 0 <= j < |used| ==> Done(ps[j], used[j], offers[j], uses[j])
  }

  /** What a one-way send does to the connection, told by the events it meets. */
  lemma SendUseByEvents(data: Message, env: WriteEnv, last: nat)
    requires Progress(env) && LastTurn(env, |data| + 4, last)
    ensures var u := SendUse(data, env);
            && u.written == Frame(data)[..Min(|data| + 4, Gone(env, last + 1))] && u.read == 0
            && (u.up <==> env(last).Wrote? || env(last).DeadlineError? || (env(last).timeout && u.written == []))
  {
    SendByEvents(data, env, []);
    OneLast(env, |data| + 4, last, SendRun(Frame(data), 0, env, 0).last);
  }

  /** A whole frame, and the connection stays up, when the network delivers. */
  lemma SendUseDelivers(data: Message, env: WriteEnv)
    requires Progress(env)
    ensures FaultFree(env) ==> SendUse(data, env) == Use(Frame(data), 0, true)
  {
    if FaultFree(env) {
      FaultFreeSends(data, env);
    }
  }

  /** What a query brings back, told by the bytes that arrive: a reply is the frame at their front and needs a
      connection, a deadline that could be set and a Send that has not closed the connection; when all that is
      given and no read fails, there is a reply exactly when a whole frame arrives. */
  lemma OutcomeByStream(offer: Offer, message: Message, w: Weather)
    requires Moving(w)
    ensures var r := Outcome(offer, message, w);
            && (r.Some? ==>
                  && offer.lends && w.deadlineSet && SendUse(message, w.sending).up
                  && StartsWhole(offer.ahead) && r.value == offer.ahead[4..Need(offer.ahead)])
            && (offer.lends && w.deadlineSet && SendUse(message, w.sending).up && ErrorFree(w.receiving) ==>
                  (r.Some? <==> StartsWhole(offer.ahead)))
  {
    assert Faced(true, w.sending) == w.sending;
    RecvExact(offer.ahead, 0, w.receiving, 0);
  }

  /** On a network that delivers, the whole query is written, and there is a reply exactly when a frame arrives. */
  lemma DeliversQuery(offer: Offer, message: Message, w: Weather)
    requires Moving(w)
    ensures offer.lends && FaultFree(w.sending) && w.deadlineSet && ErrorFree(w.receiving) ==>
              && QueryUse(offer, message, w).written == Frame(message)
              && (Outcome(offer, message, w).Some? <==> StartsWhole(offer.ahead))
  {
    SendUseDelivers(message, w.sending);
    OutcomeByStream(offer, message, w);
  }

  /** Send, whose result is ignored, then Receive; a nil reply leaves the connection down. */
  method Exchange(s: TaskSocket, message: Message, w: Weather) returns (r: Option<Message>)
    requires s.Valid() && s.dialled && Moving(w)
    modifies s`wire, s`connected, s`open, s`pos
    ensures s.Valid()
    ensures r == Answer(old(s.open), old(s.Ahead()), message, w)
    ensures old(s.open) ==> s.wire == old(s.wire) + Put(message, w.sending)
    ensures r.Some? ==> s.connected == old(s.connected)
    ensures r.Some? ==> |r.value| + 4 <= |old(s.Ahead())| && s.Ahead() == old(s.Ahead())[|r.value| + 4..]
    ensures r.None? ==> !s.IsConnected()
  {
    assert Faced(true, w.sending) == w.sending;
    var _, _ := s.Send(message, w.sending);
    ghost var ahead := s.Ahead();
    RecvExact(ahead, 0, w.receiving, 0);
    r := s.Receive(w.deadlineSet, w.receiving);
  }

  /** Borrow, query, release. On every path the caller ends up holding nothing. The query has been written to
      the connection that was lent, the reply is the next frame on it, and exactly that frame is consumed; a
      connection whose Receive returned nil does not go back into the queue. */
  method QueryPool(p: Pool, message: Message, dial: Dial, w: Weather, ghost offer: Offer)
    returns (r: Option<Message>, ghost used: Socket?<Pool>)
    requires p.Valid() && Moving(w) && p.Offers(dial) == offer
    modifies p`idle, p`size, if p.idle == [] then {} else {p.idle[0]}
    ensures p.Valid()
    ensures Done(p, used, offer, QueryUse(offer, message, w)) && r == Outcome(offer, message, w)
    ensures r.Some? ==> StartsWhole(offer.ahead) && r.value == offer.ahead[4..Need(offer.ahead)] && w.deadlineSet
    ensures offer.lends && FaultFree(w.sending) && w.deadlineSet && ErrorFree(w.receiving) ==>
      used != null && used.wire == offer.wire + Frame(message) && (r.Some? <==> StartsWhole(offer.ahead))
    ensures used != null && offer.queue == [] ==> fresh(used)
  {
    OutcomeByStream(offer, message, w);
    DeliversQuery(offer, message, w);
    var s := p.Get(dial);
    used := s;
    if s == null {
      return None, null;
    }
    r := Exchange(s, message, w);
    p.Release(s);
  }

  /** Borrow, send one way, release; the result of Send is ignored. */
  method SendPool(p: Pool, data: Message, dial: Dial, env: WriteEnv, ghost offer: Offer)
    returns (ghost used: Socket?<Pool>)
    requires p.Valid() && Progress(env) && p.Offers(dial) == offer
    modifies p`idle, p`size, if p.idle == [] then {} else {p.idle[0]}
    ensures p.Valid()
    ensures Done(p, used, offer, SendUse(data, env))
    ensures used != null && FaultFree(env) ==> used.wire == offer.wire + Frame(data) && used.IsConnected()
    ensures used != null && offer.queue == [] ==> fresh(used)
  {
    assert Faced(true, env) == env;
    var s := p.Get(dial);
    used := s;
    if s != null {
      var _, _ := s.Send(data, env);
      p.Release(s);
    }
    assert Done(p, used, offer, SendUse(data, env));
    SendUseDelivers(data, env);
  }

  /** `res` has exactly this reply under `addr`. */
  predicate Filed<A, M(==)>(res: map<A, M>, addr: A, reply: Option<M>) {
    match reply
    case None => addr !in res
    case Some(body) => addr in res && res[addr] == body
  }

  class NetBus {
    const manger: Manger

    constructor (manger: Manger)
      ensures this.manger == manger
    {
      this.manger := manger;
    }

    /** One query to the gateway under `key`; nothing happens when no such gateway is registered. */
    method QueryOne(key: string, message: Message, dial: Dial, w: Weather)
      returns (r: Option<Message>, ghost used: Socket?<Pool>)
      requires manger.Valid() && Moving(w)
      modifies (if key in manger.pools then {manger.pools[key]} else {})`idle,
               (if key in manger.pools then {manger.pools[key]} else {})`size,
               if key in manger.pools && manger.pools[key].idle != [] then {manger.pools[key].idle[0]} else {}
      ensures manger.Valid()
      ensures if key !in manger.pools then r.None? && used == null
              else
                var p := manger.pools[key];
                && r == Outcome(old(manger.pools[key].Offers(dial)), message, w)
                && Done(p, used, old(manger.pools[key].Offers(dial)),
                        QueryUse(old(manger.pools[key].Offers(dial)), message, w))
      ensures key in manger.pools && r.Some? ==>
        var ahead := old(manger.pools[key].NextAhead(dial));
        StartsWhole(ahead) && r.value == ahead[4..Need(ahead)] && w.deadlineSet
      ensures used != null && FaultFree(w.sending) && w.deadlineSet && ErrorFree(w.receiving) ==>
        (r.Some? <==> StartsWhole(old(manger.pools[key].NextAhead(dial))))
      ensures used != null && old(manger.pools[key].idle) == [] ==> fresh(used)
    {
      if key !in manger.pools {
        return None, null;
      }
      r, used := QueryPool(manger.pools[key], message, dial, w, manger.pools[key].Offers(dial));
    }

    /** A one-way message to the gateway under `key`. */
    method SendToSocketByKey(key: string, data: Message, dial: Dial, env: WriteEnv)
      returns (ghost used: Socket?<Pool>)
      requires manger.Valid() && Progress(env)
      modifies (if key in manger.pools then {manger.pools[key]} else {})`idle,
               (if key in manger.pools then {manger.pools[key]} else {})`size,
               if key in manger.pools && manger.pools[key].idle != [] then {manger.pools[key].idle[0]} else {}
      ensures manger.Valid()
      ensures if key !in manger.pools then used == null
              else Done(manger.pools[key], used, old(manger.pools[key].Offers(dial)), SendUse(data, env))
      ensures used != null && old(manger.pools[key].idle) == [] ==> fresh(used)
    {
      used := null;
      if key in manger.pools {
        used := SendPool(manger.pools[key], data, dial, env, manger.pools[key].Offers(dial));
      }
    }

    /** The body of sendToSockets, with the pools in the order they are visited. */
    method SendVisited(ps: seq<Pool>, data: Message, dials: nat -> Dial, envs: nat -> WriteEnv,
                       ghost offers: seq<Offer>)
      returns (ghost used: seq<TaskSocket>)
      requires manger.Valid() && manger.Visits(ps) && AllProgress(envs)
      requires |offers| == |ps| && Offering(ps, 0, dials, offers)
      modifies ps`idle, ps`size, Heads(ps)
      ensures AllValid(ps) && |used| <= |ps|
      ensures if AllLend(offers) then |used| == |ps| && AllDone(ps, used, offers, SendUses(Same(data, |ps|), envs))
              else Withdrawn(ps, used, offers) && var heads := old(Heads(ps)); unchanged(heads)
      ensures NewOnes(used, offers)
    {
      HeadsOffered(ps, dials, offers);
      var r;
      r, used := manger.GetSockets(ps, dials, offers);
      if r.Some? {
        SendAndRelease(ps, r.value, data, envs, offers, SendUses(Same(data, |ps|), envs));
      }
    }

    /** A one-way message to every gateway, or to none when some pool has no connection to give. On every path
        each connection borrowed is back in its queue if it is up. */
    method SendToSockets(ps: seq<Pool>, data: Message, dials: nat -> Dial, envs: nat -> WriteEnv,
                         ghost offers: seq<Offer>)
      returns (ghost used: seq<TaskSocket>)
      requires manger.Valid() && manger.Visits(ps) && AllProgress(envs)
      requires |offers| == |ps| && Offering(ps, 0, dials, offers)
      modifies ps`idle, ps`size, Heads(ps)
      ensures manger.Valid() && |used| <= |ps|
      ensures if AllLend(offers) then |used| == |ps| && AllDone(ps, used, offers, SendUses(Same(data, |ps|), envs))
              else Withdrawn(ps, used, offers) && var heads := old(Heads(ps)); unchanged(heads)
      ensures NewOnes(used, offers)
    {
      used := SendVisited(ps, data, dials, envs, offers);
      manger.ValidByVisits(ps);
    }

    /** The body of a query to all, with the pools in the order they are visited. */
    method QueryVisited(ps: seq<Pool>, message: Message, dials: nat -> Dial, ws: nat -> Weather,
                        ghost offers: seq<Offer>, ghost addrs: seq<Endpoint>)
      returns (res: map<Endpoint, Message>, ghost used: seq<TaskSocket>)
      requires manger.Valid() && manger.Visits(ps) && AllMoving(ws)
      requires |offers| == |ps| && Offering(ps, 0, dials, offers)
      requires |addrs| == |ps| && forall i :: 0 <= i < |ps| ==> addrs[i] == ps[i].addr
      modifies ps`idle, ps`size, Heads(ps)
      ensures AllValid(ps) && |used| <= |ps|
      ensures if AllLend(offers)
              then
                && |used| == |ps| && AllDone(ps, used, offers, QueryUses(offers, Same(message, |ps|), ws))
                && res == FileAll(addrs, Outcomes(offers, Same(message, |ps|), ws))
              else Withdrawn(ps, used, offers) && res == map[] && var heads := old(Heads(ps)); unchanged(heads)
      ensures NewOnes(used, offers)
    {
      HeadsOffered(ps, dials, offers);
      var r;
      r, used := manger.GetSockets(ps, dials, offers);
      res := map[];
      if r.Some? {
        ghost var messages := Same(message, |ps|);
        res := ExchangeAndRelease(ps, r.value, message, ws, offers, QueryUses(offers, messages, ws), addrs,
                                  Outcomes(offers, messages, ws));
      }
    }

    /** A query to every gateway. On every path each connection borrowed is back in its queue if it is up. When
        every pool can lend a connection, each of them has got the query, and the result has an entry exactly
        for the gateways whose connection gave a reply, and that reply under the gateway's own address;
        otherwise no connection has got anything and the result is empty. */
    method QueryAll(ps: seq<Pool>, message: Message, dials: nat -> Dial, ws: nat -> Weather, ghost offers: seq<Offer>)
      returns (res: map<Endpoint, Message>, ghost used: seq<TaskSocket>)
      requires manger.Valid() && manger.Visits(ps) && AllMoving(ws)
      requires |offers| == |ps| && Offering(ps, 0, dials, offers)
      modifies ps`idle, ps`size, Heads(ps)
      ensures manger.Valid() && |used| <= |ps|
      ensures if AllLend(offers)
              then
                && |used| == |ps| && AllDone(ps, used, offers, QueryUses(offers, Same(message, |ps|), ws))
                && forall i :: 0 <= i < |ps| ==> Filed(res, ps[i].addr, Outcome(offers[i], message, ws(i)))
              else Withdrawn(ps, used, offers) && res == map[] && var heads := old(Heads(ps)); unchanged(heads)
      ensures NewOnes(used, offers)
      ensures forall a :: a in res ==> exists i :: 0 <= i < |ps| && ps[i].addr == a
    {
      ghost var addrs := Addresses(ps);
      AddressesDiffer(manger, ps);
      res, used := QueryVisited(ps, message, dials, ws, offers, addrs);
      if AllLend(offers) {
        FiledOutcomes(ps, offers, Same(message, |ps|), ws, addrs, res);
      }
      manger.ValidByVisits(ps);
    }
  }

  /** Gateways are registered under a function of their address, so no two have the same one. */
  lemma AddressesDiffer(manger: Manger, ps: seq<Pool>)
    requires manger.Valid() && manger.Visits(ps)
    ensures forall i, j :: 0 <= i < j < |ps| ==> ps[i].addr != ps[j].addr
  {
    forall i, j | 0 <= i < j < |ps| ensures ps[i].addr != ps[j].addr {
      var k :| k in manger.pools && manger.pools[k] == ps[i];
      var l :| l in manger.pools && manger.pools[l] == ps[j];
    }
  }

  /** The pools up to the first that cannot lend have lent a connection each, which has come back unused. */
  ghost predicate Withdrawn(ps: seq<Pool>, used: seq<TaskSocket>, offers: seq<Offer>)
    requires |used| <= |ps| == |offers|
    reads ps, used
  {
    && |used| < |ps| && !offers[|used|].lends
    && AllLent(ps, used, offers) && AllBack(ps, used, offers)
  }

  ghost function Same(message: Message, n: nat): seq<Message> {
    seq(n, i => message)
  }

  ghost function SendUses(messages: seq<Message>, envs: nat -> WriteEnv): (uses: seq<Use>)
    requires AllProgress(envs)
    ensures |uses| == |messages|
    ensures forall i {:trigger envs(i)} :: 0 <= i < |messages| ==> uses[i] == SendUse(messages[i], envs(i))
  {
    seq(|messages|, i requires 0 <= i < |messages| => SendUse(messages[i], envs(i)))
  }

  ghost function QueryUses(offers: seq<Offer>, messages: seq<Message>, ws: nat -> Weather): (uses: seq<Use>)
    requires |messages| == |offers| && AllMoving(ws)
    ensures |uses| == |offers|
    ensures forall i :: 0 <= i < |offers| ==> uses[i] == QueryUse(offers[i], messages[i], ws(i))
  {
    seq(|offers|, i requires 0 <= i < |offers| => QueryUse(offers[i], messages[i], ws(i)))
  }

  // ---------------------------------------------------------------- the same message to every gateway

  lemma HeldAreDistinct(ps: seq<Pool>, socks: seq<TaskSocket>, i: nat, offers: seq<Offer>)
    requires NoDup(ps) && |offers| == |ps| && Holds(ps, socks, offers) && i < |socks|
    ensures forall j :: 0 <= j < |socks| && j != i ==> socks[j] != socks[i]
    ensures forall j :: 0 <= j < |ps| ==> socks[i] !in ps[j].idle || !ps[j].Valid()
  {
    forall j | 0 <= j < |socks| && j != i ensures socks[j] != socks[i] {
      assert Out(ps[i], socks[i], offers[i]) && Out(ps[j], socks[j], offers[j]);
      assert socks[j].tag == ps[j] && socks[i].tag == ps[i];
    }
  }

  /** The connections from `from` on are as the pools have lent them, those before have been used. */
  ghost predicate ServedUpTo(ps: seq<Pool>, socks: seq<TaskSocket>, from: nat, offers: seq<Offer>, uses: seq<Use>)
    requires |socks| == |offers| == |ps| == |uses|
    reads socks
  {
    && (forall j :: 0 <= j < from && j < |ps| ==> Served(ps[j], socks[j], offers[j], uses[j]))
    && (forall j :: from <= j < |ps| ==> Lent(ps[j], socks[j], offers[j]))
  }

  /** Where a loop over the connections held is: those before `i` have been used. */
  datatype Held = Held(ps: seq<Pool>, socks: seq<TaskSocket>, i: nat, offers: seq<Offer>, uses: seq<Use>)

  /** Using the next of them keeps the others and every pool. */
  twostate lemma HeldKept(h: Held)
    requires h.i < |h.socks| == |h.offers| == |h.ps| == |h.uses|
    requires old(AllValid(h.ps) && Holds(h.ps, h.socks, h.offers))
    requires old(ServedUpTo(h.ps, h.socks, h.i, h.offers, h.uses))
    requires forall j :: 0 <= j < |h.ps| ==> unchanged(h.ps[j]) && unchanged(h.ps[j].idle)
    requires forall j :: 0 <= j < |h.ps| && j != h.i ==> unchanged(h.socks[j])
    requires h.socks[h.i].Valid() && h.socks[h.i].dialled
    requires Served(h.ps[h.i], h.socks[h.i], h.offers[h.i], h.uses[h.i])
    ensures AllValid(h.ps) && Holds(h.ps, h.socks, h.offers)
    ensures ServedUpTo(h.ps, h.socks, h.i + 1, h.offers, h.uses)
  {
    forall j | 0 <= j < |h.ps| ensures h.ps[j].Valid() && Out(h.ps[j], h.socks[j], h.offers[j]) {
      assert old(h.ps[j].Valid()) && old(Out(h.ps[j], h.socks[j], h.offers[j]));
    }
  }

  /** Sending on one of the connections held leaves every pool and the other connections alone. */
  method SendHeld(ps: seq<Pool>, socks: seq<TaskSocket>, i: nat, data: Message, env: WriteEnv,
                  ghost offers: seq<Offer>, ghost uses: seq<Use>)
    requires AllValid(ps) && NoDup(ps) && |socks| == |offers| == |ps| == |uses| && Holds(ps, socks, offers)
    requires i < |ps| && Progress(env) && uses[i] == SendUse(data, env) && ServedUpTo(ps, socks, i, offers, uses)
    modifies socks[i]
    ensures AllValid(ps) && Holds(ps, socks, offers) && ServedUpTo(ps, socks, i + 1, offers, uses)
  {
    HeldAreDistinct(ps, socks, i, offers);
    assert Faced(true, env) == env;
    var _, _ := socks[i].Send(data, env);
    HeldKept(Held(ps, socks, i, offers, uses));
  }

  method SendAll(ps: seq<Pool>, socks: seq<TaskSocket>, data: Message, envs: nat -> WriteEnv,
                 ghost offers: seq<Offer>, ghost uses: seq<Use>)
    requires AllValid(ps) && NoDup(ps) && |socks| == |offers| == |ps| == |uses| && Holds(ps, socks, offers)
    requires AllProgress(envs)
    requires forall i {:trigger envs(i)} :: 0 <= i < |ps| ==> uses[i] == SendUse(data, envs(i))
    requires AllLent(ps, socks, offers)
    modifies socks
    ensures AllValid(ps) && Holds(ps, socks, offers) && ServedUpTo(ps, socks, |ps|, offers, uses)
  {
    var i := 0;
    while i < |socks|
      invariant i <= |socks| && AllValid(ps) && Holds(ps, socks, offers) && ServedUpTo(ps, socks, i, offers, uses)
    {
      SendHeld(ps, socks, i, data, envs(i), offers, uses);
      i := i + 1;
    }
  }

  /** The loop of a one-way send and its deferred release. */
  method SendAndRelease(ps: seq<Pool>, socks: seq<TaskSocket>, data: Message, envs: nat -> WriteEnv,
                        ghost offers: seq<Offer>, ghost uses: seq<Use>)
    requires AllValid(ps) && NoDup(ps) && |socks| == |offers| == |ps| == |uses| && Holds(ps, socks, offers)
    requires AllProgress(envs)
    requires forall i {:trigger envs(i)} :: 0 <= i < |ps| ==> uses[i] == SendUse(data, envs(i))
    requires AllLent(ps, socks, offers)
    modifies ps`idle, ps`size, socks
    ensures AllValid(ps) && AllDone(ps, socks, offers, uses)
  {
    SendAll(ps, socks, data, envs, offers, uses);
    ReleaseAll(ps, socks, offers);
  }

  /** The result map after filing each reply under its address. */
  function FileAll<A, M>(addrs: seq<A>, replies: seq<Option<M>>): map<A, M>
    requires |addrs| == |replies|
  {
    if addrs == [] then map[]
    else
      var n := |addrs| - 1;
      var m := FileAll(addrs[..n], replies[..n]);
      if replies[n].Some? then m[addrs[n] := replies[n].value] else m
  }

  lemma {:induction false} FileAllFiles<A, M>(addrs: seq<A>, replies: seq<Option<M>>)
    requires |addrs| == |replies| && NoDup(addrs)
    ensures forall i :: 0 <= i < |addrs| ==> Filed(FileAll(addrs, replies), addrs[i], replies[i])
    ensures forall a :: a in FileAll(addrs, replies) ==> a in addrs
    decreases |addrs|
  {
    if addrs != [] {
      var n := |addrs| - 1;
      FileAllFiles(addrs[..n], replies[..n]);
      forall i | 0 <= i < |addrs| ensures Filed(FileAll(addrs, replies), addrs[i], replies[i]) {
        if i < n {
          assert addrs[..n][i] == addrs[i] && replies[..n][i] == replies[i];
        }
      }
    }
  }

  lemma FileNext<A, M>(addrs: seq<A>, replies: seq<Option<M>>, i: nat)
    requires |addrs| == |replies| && i < |addrs|
    ensures FileAll(addrs[..i + 1], replies[..i + 1])
            == if replies[i].Some? then FileAll(addrs[..i], replies[..i])[addrs[i] := replies[i].value]
               else FileAll(addrs[..i], replies[..i])
  {
    TakeNext(addrs, i);
    TakeNext(replies, i);
  }

  lemma Addresses(ps: seq<Pool>) returns (addrs: seq<Endpoint>)
    ensures |addrs| == |ps| && forall i :: 0 <= i < |ps| ==> addrs[i] == ps[i].addr
  {
    addrs := seq(|ps|, i requires 0 <= i < |ps| => ps[i].addr);
  }

  /** What each connection held will answer. */
  ghost function Outcomes(offers: seq<Offer>, messages: seq<Message>, ws: nat -> Weather): (e: seq<Option<Message>>)
    requires |messages| == |offers| && AllMoving(ws)
    ensures |e| == |offers| && forall i :: 0 <= i < |offers| ==> e[i] == Outcome(offers[i], messages[i], ws(i))
  {
    seq(|offers|, i requires 0 <= i < |offers| => Outcome(offers[i], messages[i], ws(i)))
  }

  lemma FiledOutcomes(ps: seq<Pool>, offers: seq<Offer>, messages: seq<Message>, ws: nat -> Weather,
                      addrs: seq<Endpoint>, res: map<Endpoint, Message>)
    requires |messages| == |offers| == |addrs| == |ps| && AllMoving(ws)
    requires NoDup(addrs) && forall i :: 0 <= i < |ps| ==> addrs[i] == ps[i].addr
    requires res == FileAll(addrs, Outcomes(offers, messages, ws))
    ensures forall i :: 0 <= i < |ps| ==> Filed(res, ps[i].addr, Outcome(offers[i], messages[i], ws(i)))
    ensures forall a :: a in res ==> exists i :: 0 <= i < |ps| && ps[i].addr == a
  {
    FileAllFiles(addrs, Outcomes(offers, messages, ws));
    forall a | a in res ensures exists i :: 0 <= i < |ps| && ps[i].addr == a {
      var i :| 0 <= i < |addrs| && addrs[i] == a;
      assert ps[i].addr == a;
    }
  }

  /** One exchange on the next of the connections held, and filing its reply. */
  method ExchangeHeld(ps: seq<Pool>, socks: seq<TaskSocket>, res: map<Endpoint, Message>, i: nat, message: Message,
                      w: Weather, ghost offers: seq<Offer>, ghost uses: seq<Use>, ghost addrs: seq<Endpoint>,
                      ghost expected: seq<Option<Message>>)
    returns (res': map<Endpoint, Message>)
    requires AllValid(ps) && NoDup(ps) && |socks| == |offers| == |ps| == |uses| && Holds(ps, socks, offers)
    requires i < |ps| == |addrs| == |expected| && Moving(w) && ServedUpTo(ps, socks, i, offers, uses)
    requires uses[i] == QueryUse(offers[i], message, w) && expected[i] == Outcome(offers[i], message, w)
    requires addrs[i] == ps[i].addr && res == FileAll(addrs[..i], expected[..i])
    modifies socks[i]
    ensures AllValid(ps) && Holds(ps, socks, offers) && ServedUpTo(ps, socks, i + 1, offers, uses)
    ensures res' == FileAll(addrs[..i + 1], expected[..i + 1])
  {
    HeldAreDistinct(ps, socks, i, offers);
    FileNext(addrs, expected, i);
    var r := Exchange(socks[i], message, w);
    HeldKept(Held(ps, socks, i, offers, uses));
    res' := if r.Some? then res[socks[i].tag.addr := r.value] else res;
  }

  /** The loop of a query: `expected` is what each connection answers. */
  method ExchangeAll(ps: seq<Pool>, socks: seq<TaskSocket>, message: Message, ws: nat -> Weather,
                     ghost offers: seq<Offer>, ghost uses: seq<Use>, ghost addrs: seq<Endpoint>,
                     ghost expected: seq<Option<Message>>)
    returns (res: map<Endpoint, Message>)
    requires AllValid(ps) && NoDup(ps) && |socks| == |offers| == |ps| == |uses| && Holds(ps, socks, offers)
    requires AllMoving(ws) && AllLent(ps, socks, offers)
    requires forall i {:trigger ws(i)} :: 0 <= i < |ps| ==> uses[i] == QueryUse(offers[i], message, ws(i))
    requires |addrs| == |ps| && forall i :: 0 <= i < |ps| ==> addrs[i] == ps[i].addr
    requires |expected| == |ps|
    requires forall i {:trigger ws(i)} :: 0 <= i < |ps| ==> expected[i] == Outcome(offers[i], message, ws(i))
    modifies socks
    ensures AllValid(ps) && Holds(ps, socks, offers) && ServedUpTo(ps, socks, |ps|, offers, uses)
    ensures res == FileAll(addrs, expected)
  {
    res := map[];
    var i := 0;
    while i < |socks|
      invariant i <= |socks| && AllValid(ps) && Holds(ps, socks, offers)
      invariant ServedUpTo(ps, socks, i, offers, uses)
      invariant res == FileAll(addrs[..i], expected[..i])
    {
      res := ExchangeHeld(ps, socks, res, i, message, ws(i), offers, uses, addrs, expected);
      i := i + 1;
    }
    assert addrs[..i] == addrs && expected[..i] == expected;
  }

  /** The loop of a query and its deferred release. */
  method ExchangeAndRelease(ps: seq<Pool>, socks: seq<TaskSocket>, message: Message, ws: nat -> Weather,
                            ghost offers: seq<Offer>, ghost uses: seq<Use>, ghost addrs: seq<Endpoint>,
                            ghost expected: seq<Option<Message>>)
    returns (res: map<Endpoint, Message>)
    requires AllValid(ps) && NoDup(ps) && |socks| == |offers| == |ps| == |uses| && Holds(ps, socks, offers)
    requires AllMoving(ws) && AllLent(ps, socks, offers)
    requires forall i {:trigger ws(i)} :: 0 <= i < |ps| ==> uses[i] == QueryUse(offers[i], message, ws(i))
    requires |addrs| == |ps| && forall i :: 0 <= i < |ps| ==> addrs[i] == ps[i].addr
    requires |expected| == |ps|
    requires forall i {:trigger ws(i)} :: 0 <= i < |ps| ==> expected[i] == Outcome(offers[i], message, ws(i))
    modifies ps`idle, ps`size, socks
    ensures AllValid(ps) && AllDone(ps, socks, offers, uses)
    ensures res == FileAll(addrs, expected)
  {
    res := ExchangeAll(ps, socks, message, ws, offers, uses, addrs, expected);
    ReleaseAll(ps, socks, offers);
  }

  // ---------------------------------------------------------------- one message per gateway

  /** The connection a pool lends next is none of those used already, nor in another queue. */
  lemma TurnApart(ps: seq<Pool>, used: seq<Socket?<Pool>>, i: nat, offers: seq<Offer>, uses: seq<Use>)
    requires AllValid(ps) && Apart(ps, i) && i == |used| && |ps| == |offers| == |uses|
    requires AllDone(ps, used, offers, uses)
    ensures ps[i].idle != [] ==> forall j :: 0 <= j < |ps| && j != i ==> ps[i].idle[0] !in ps[j].idle
    ensures ps[i].idle != [] ==> ps[i].idle[0] !in used
  {
    assert ps[i].Valid();
    if ps[i].idle != [] {
      assert forall j :: 0 <= j < |ps| ==> ps[j].Valid();
      assert forall j :: 0 <= j < i ==> Done(ps[j], used[j], offers[j], uses[j]);
    }
  }

  /** One turn of a grouped query: what the other pools hold does not change. */
  method QueryTurn(ps: seq<Pool>, ghost used: seq<Socket?<Pool>>, res: map<Endpoint, Message>, i: nat,
                   message: Message, dials: nat -> Dial, w: Weather, ghost offers: seq<Offer>,
                   ghost addrs: seq<Endpoint>, ghost expected: seq<Option<Message>>, ghost uses: seq<Use>)
    returns (res': map<Endpoint, Message>, ghost s: Socket?<Pool>)
    requires AllValid(ps) && Apart(ps, i) && i == |used| && |ps| == |offers| == |expected| == |uses| == |addrs|
    requires Offering(ps, i, dials, offers) && AllDone(ps, used, offers, uses) && addrs[i] == ps[i].addr
    requires Moving(w) && uses[i] == QueryUse(offers[i], message, w) && expected[i] == Outcome(offers[i], message, w)
    requires res == FileAll(addrs[..i], expected[..i])
    modifies {ps[i]}`idle, {ps[i]}`size, if ps[i].idle == [] then {} else {ps[i].idle[0]}
    ensures AllValid(ps)
    ensures Offering(ps, i + 1, dials, offers) && AllDone(ps, used + [s], offers, uses)
    ensures s != null && offers[i].queue == [] ==> fresh(s)
    ensures res' == FileAll(addrs[..i + 1], expected[..i + 1])
  {
    TurnApart(ps, used, i, offers, uses);
    FileNext(addrs, expected, i);
    var r;
    r, s := QueryPool(ps[i], message, dials(i), w, offers[i]);
    OthersKept(Turn(ps, i, dials, offers));
    res' := if r.Some? then res[ps[i].addr := r.value] else res;
  }

  /** The loop of a grouped query: `expected` is what each gateway answers. */
  method QueryEach(ps: seq<Pool>, messages: seq<Message>, dials: nat -> Dial, ws: nat -> Weather,
                   ghost offers: seq<Offer>, ghost addrs: seq<Endpoint>, ghost expected: seq<Option<Message>>,
                   ghost uses: seq<Use>)
    returns (res: map<Endpoint, Message>, ghost used: seq<Socket?<Pool>>)
    requires AllValid(ps) && NoDup(ps) && |ps| == |offers| == |messages| == |expected| == |uses|
    requires AllMoving(ws) && Offering(ps, 0, dials, offers)
    requires forall i {:trigger ws(i)} :: 0 <= i < |ps| ==> uses[i] == QueryUse(offers[i], messages[i], ws(i))
    requires forall i {:trigger ws(i)} :: 0 <= i < |ps| ==> expected[i] == Outcome(offers[i], messages[i], ws(i))
    requires |addrs| == |ps| && forall i :: 0 <= i < |ps| ==> addrs[i] == ps[i].addr
    modifies ps`idle, ps`size, Heads(ps)
    ensures AllValid(ps) && |used| == |ps| && AllDone(ps, used, offers, uses)
    ensures NewOnes(used, offers)
    ensures res == FileAll(addrs, expected)
  {
    HeadsOffered(ps, dials, offers);
    res, used := map[], [];
    var i := 0;
    while i < |ps|
      invariant i == |used| <= |ps| && AllValid(ps)
      invariant Offering(ps, i, dials, offers) && AllDone(ps, used, offers, uses)
      invariant NewOnes(used, offers)
      invariant res == FileAll(addrs[..i], expected[..i])
    {
      ghost var s;
      res, s := QueryTurn(ps, used, res, i, messages[i], dials, ws(i), offers, addrs, expected, uses);
      used := used + [s];
      i := i + 1;
    }
    assert addrs[..i] == addrs && expected[..i] == expected;
  }

  /** The multi-gateway path of CheckOnline and ConnInfo: each pool in `ps` gets its own question, on its
      oldest idle connection or on a new one, and its reply is filed under its address; a gateway that lends
      nothing or gives no reply has no entry. */
  method QueryGroups(ps: seq<Pool>, messages: seq<Message>, dials: nat -> Dial, ws: nat -> Weather,
                     ghost offers: seq<Offer>)
    returns (res: map<Endpoint, Message>, ghost used: seq<Socket?<Pool>>)
    requires AllValid(ps) && NoDup(ps) && |ps| == |offers| == |messages|
    requires AllMoving(ws) && Offering(ps, 0, dials, offers)
    requires forall i, j :: 0 <= i < j < |ps| ==> ps[i].addr != ps[j].addr
    modifies ps`idle, ps`size, Heads(ps)
    ensures AllValid(ps) && |used| == |ps| && AllDone(ps, used, offers, QueryUses(offers, messages, ws))
    ensures NewOnes(used, offers)
    ensures forall i :: 0 <= i < |ps| ==> Filed(res, ps[i].addr, Outcome(offers[i], messages[i], ws(i)))
    ensures forall a :: a in res ==> exists i :: 0 <= i < |ps| && ps[i].addr == a
  {
    ghost var addrs := Addresses(ps);
    res, used := QueryEach(ps, messages, dials, ws, offers, addrs, Outcomes(offers, messages, ws),
                           QueryUses(offers, messages, ws));
    FiledOutcomes(ps, offers, messages, ws, addrs, res);
  }

  /** One turn of a grouped send: what the other pools hold does not change. */
  method SendTurn(ps: seq<Pool>, ghost used: seq<Socket?<Pool>>, i: nat, message: Message, dials: nat -> Dial,
                  env: WriteEnv, ghost offers: seq<Offer>, ghost uses: seq<Use>)
    returns (ghost s: Socket?<Pool>)
    requires AllValid(ps) && Apart(ps, i) && i == |used| && |ps| == |offers| == |uses|
    requires Offering(ps, i, dials, offers) && AllDone(ps, used, offers, uses)
    requires Progress(env) && uses[i] == SendUse(message, env)
    modifies {ps[i]}`idle, {ps[i]}`size, if ps[i].idle == [] then {} else {ps[i].idle[0]}
    ensures AllValid(ps)
    ensures Offering(ps, i + 1, dials, offers) && AllDone(ps, used + [s], offers, uses)
    ensures s != null && offers[i].queue == [] ==> fresh(s)
  {
    TurnApart(ps, used, i, offers, uses);
    s := SendPool(ps[i], message, dials(i), env, offers[i]);
    OthersKept(Turn(ps, i, dials, offers));
  }

  /** The multi-gateway path of SingleCastBulk and ForceOffline: each pool in `ps` gets its own message, on
      its oldest idle connection or on a new one. */
  method SendGroups(ps: seq<Pool>, messages: seq<Message>, dials: nat -> Dial, envs: nat -> WriteEnv,
                    ghost offers: seq<Offer>)
    returns (ghost used: seq<Socket?<Pool>>)
    requires AllValid(ps) && NoDup(ps) && |ps| == |offers| == |messages| && AllProgress(envs)
    requires Offering(ps, 0, dials, offers)
    modifies ps`idle, ps`size, Heads(ps)
    ensures AllValid(ps) && |used| == |ps| && AllDone(ps, used, offers, SendUses(messages, envs))
    ensures NewOnes(used, offers)
  {
    ghost var uses := SendUses(messages, envs);
    HeadsOffered(ps, dials, offers);
    used := [];
    var i := 0;
    while i < |ps|
      invariant i == |used| <= |ps| && AllValid(ps)
      invariant Offering(ps, i, dials, offers) && AllDone(ps, used, offers, uses)
      invariant NewOnes(used, offers)
    {
      ghost var s := SendTurn(ps, used, i, messages[i], dials, envs(i), offers, uses);
      used := used + [s];
      i := i + 1;
    }
  }
}
