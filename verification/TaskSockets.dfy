/**
 The pool object and its manager as one goroutine uses them when nobody interferes: the loops of the
 heartbeat and of Close, and acquiring one connection from every pool or none.
 */
module TaskSockets {
  import opened Options
  import opened Collections
  import opened Framing
  import opened Transfer
  import opened Sockets
  import opened Address

  type TaskSocket = Socket<Pool>

  /** What a pool offers: whether it can lend a connection, its queue, of which it would lend the oldest if
      there is one, its tokens, the bytes already written to the connection it would lend and those it has
      still to deliver. */
  datatype Offer = Offer(lends: bool, queue: seq<TaskSocket>, tokens: nat, wire: seq<byte>, ahead: seq<byte>)
  {
    function Total(): nat {
      tokens + |queue|
    }
  }

  /** `s` is what the pool has just lent on this offer. */
  ghost predicate Lent(p: Pool, s: TaskSocket, offer: Offer)
    reads s
  {
    && offer.lends && s.tag == p && s.IsConnected() && s.wire == offer.wire && s.Ahead() == offer.ahead
    && (offer.queue != [] ==> s == offer.queue[0])
  }

  ghost predicate AllLent(ps: seq<Pool>, socks: seq<TaskSocket>, offers: seq<Offer>)
    requires |socks| <= |ps| == |offers|
    reads socks
  {
    forall i :: 0 <= i < |socks| ==> Lent(ps[i], socks[i], offers[i])
  }

  /** What the pools not visited yet offer. */
  ghost predicate Offering(ps: seq<Pool>, from: nat, dials: nat -> Dial, offers: seq<Offer>)
    requires |offers| == |ps|
    reads ps, AllIdle(ps)
  {
    forall i :: from <= i < |ps| ==> ps[i].Offers(dials(i)) == offers[i]
  }

  ghost predicate AllLend(offers: seq<Offer>) {
    forall i :: 0 <= i < |offers| ==> offers[i].lends
  }

  /** The oldest idle connection of each pool that has one. */
  ghost function Heads(ps: seq<Pool>): set<TaskSocket>
    reads ps
  {
    set i: nat | i < |ps| && ps[i].idle != [] :: ps[i].idle[0]
  }

  lemma HeadsOffered(ps: seq<Pool>, dials: nat -> Dial, offers: seq<Offer>)
    requires |offers| == |ps| && Offering(ps, 0, dials, offers)
    ensures forall i :: 0 <= i < |ps| && offers[i].queue != [] ==> offers[i].queue[0] in Heads(ps)
  {
    forall i | 0 <= i < |ps| && offers[i].queue != []
      ensures offers[i].queue[0] in Heads(ps)
    {
      assert ps[i].Offers(dials(i)) == offers[i];
      assert ps[i].idle == offers[i].queue;
    }
  }

  /** The queue after the connection lent has come back, which it does while it is connected. */
  ghost predicate GivenBack(queue: seq<TaskSocket>, used: Socket?<Pool>, queue': seq<TaskSocket>)
    reads used
  {
    queue' == Tail(queue) + (if used != null && used.IsConnected() then [used] else [])
  }

  /** Where the queue was empty, the connection lent is a new one. */
  twostate predicate NewOnes(new used: seq<Socket?<Pool>>, offers: seq<Offer>)
    requires |used| <= |offers|
  {
    forall i :: 0 <= i < |used| && used[i] != null && offers[i].queue == [] ==> fresh(used[i])
  }

  /** The heartbeat message goes out whole on an open connection that behaves like `env`. */
  ghost predicate Beats(beat: Message, env: WriteEnv)
    requires Progress(env)
  {
    SendRun(Frame(beat), 0, env, 0).verdict.Sent?
  }

  /** In terms of what the network does: the turn that ends the write loop has not failed. */
  lemma BeatsByEvents(beat: Message, env: WriteEnv, last: nat)
    requires Progress(env) && LastTurn(env, |beat| + 4, last)
    ensures Beats(beat, env) <==> env(last).Wrote?
  {
    SendByEvents(beat, env, []);
    OneLast(env, |beat| + 4, last, SendRun(Frame(beat), 0, env, 0).last);
  }

  ghost predicate AllProgress(envs: nat -> WriteEnv) {
    forall i: nat :: Progress(envs(i))
  }

  /** Which of a series of heartbeats go out. */
  ghost function Beating(beat: Message, envs: nat -> WriteEnv): nat -> bool
    requires AllProgress(envs)
  {
    (i: nat) => Beats(beat, envs(i))
  }

  /** The members of `q[..n]` whose heartbeat goes out, in their order. */
  function Survivors<S>(q: seq<S>, beats: nat -> bool, n: nat): (r: seq<S>)
    requires n <= |q|
    ensures |r| <= n
  {
    if n == 0 then [] else Survivors(q, beats, n - 1) + if beats(n - 1) then [q[n - 1]] else []
  }

  lemma NextSurvivor<S>(q: seq<S>, beats: nat -> bool, n: nat)
    requires n < |q|
    ensures var queue := q[n..] + Survivors(q, beats, n);
            && queue[0] == q[n]
            && queue[1..] + (if beats(n) then [q[n]] else []) == q[n + 1..] + Survivors(q, beats, n + 1)
    ensures |Survivors(q, beats, n + 1)| == |Survivors(q, beats, n)| + if beats(n) then 1 else 0
  {
  }

  class Pool {
    const addr: Endpoint
    const cap: nat
    const beat: Message
    var idle: seq<TaskSocket>   // channel pool
    var size: nat               // channel size
    var closed: bool            // closedCh is closed

    constructor (addr: Endpoint, cap: nat, beat: Message)
      ensures Valid() && this.addr == addr && this.cap == cap && this.beat == beat
      ensures idle == [] && size == cap && !closed
    {
      this.addr, this.cap, this.beat := addr, cap, beat;
      idle, size, closed := [], cap, false;
    }

    ghost predicate Valid()
      reads this, idle
    {
      && size + |idle| <= cap
      && (forall i :: 0 <= i < |idle| ==> idle[i].tag == this && idle[i].Valid() && idle[i].IsConnected())
      && (forall i, j :: 0 <= i < j < |idle| ==> idle[i] != idle[j])
    }

    /** Tokens and idle connections: the configured size minus what is in callers' hands. */
    function Total(): nat
      reads this
    {
      size + |idle|
    }

    /** A connection of this pool that is in somebody's hands. */
    ghost predicate Borrowed(s: TaskSocket)
      reads this, s
    {
      s.tag == this && s !in idle && s.Valid() && s.dialled && size + |idle| < cap
    }

    /** The pool has an idle connection, or may dial and succeeds. */
    predicate CanLend(dial: Dial)
      reads this
    {
      idle != [] || (size > 0 && dial.Accepted?)
    }

    /** The bytes that will arrive on the connection the pool lends next. */
    function NextAhead(dial: Dial): seq<byte>
      reads this, idle
    {
      if idle != [] then idle[0].Ahead() else if dial.Accepted? then dial.incoming else []
    }

    ghost function Offers(dial: Dial): Offer
      reads this, idle
    {
      Offer(CanLend(dial), idle, size, if idle == [] then [] else idle[0].wire, NextAhead(dial))
    }

    /** Nobody interferes, so waiting on an empty queue ends with the timeout. */
    method Get(dial: Dial) returns (r: Socket?<Pool>)
      requires Valid()
      modifies this`idle, this`size
      ensures Valid()
      ensures r != null ==> Borrowed(r) && r.IsConnected() && Total() == old(Total()) - 1
      ensures r != null <==> old(CanLend(dial))
      ensures r != null <==> old(idle) != [] || (old(size) > 0 && dial.Accepted?)
      ensures r == null ==> size == old(size) && idle == old(idle)
      ensures r != null ==> Lent(this, r, old(Offers(dial)))
      ensures old(idle) != [] ==> r == old(idle)[0] && idle == old(idle)[1..] && size == old(size)
      ensures old(idle) == [] && r != null ==> fresh(r) && r.Dialled(dial) && idle == [] && size == old(size) - 1
    {
      if |idle| == 0 {
        if size > 0 {
          size := size - 1;
          var s := new Socket<Pool>(this);
          var ok := s.Connect(dial, false);
          if !ok {
            size := size + 1;
            return null;
          }
          return s;
        }
      }
      if |idle| > 0 {
        r := idle[0];
        idle := idle[1..];
        return r;
      }
      return null;
    }

    method Release(s: Socket?<Pool>)
      requires Valid() && size + |idle| < cap && (s != null ==> Borrowed(s))
      modifies this`idle, this`size
      ensures Valid()
      ensures if s == null || !s.IsConnected() then size == old(size) + 1 && idle == old(idle)
              else size == old(size) && idle == old(idle) + [s]
    {
      if s == null || !s.IsConnected() {
        size := size + 1;
        return;
      }
      idle := idle + [s];
    }

    /** What one heartbeat turn leaves of an idle connection that had written `wire`. */
    ghost predicate Beaten(s: TaskSocket, wire: seq<byte>, up: bool)
      reads s
    {
      && s.Valid()
      && (s.IsConnected() <==> up)
      && (up ==> s.wire == wire + Frame(beat))
    }

    ghost predicate Untouched(s: TaskSocket, wire: seq<byte>)
      reads s
    {
      s.Valid() && s.IsConnected() && s.wire == wire
    }

    /** The first `turns` connections of the queue `q` have been tested, the others have not. */
    ghost predicate Swept(q: seq<TaskSocket>, wires: seq<seq<byte>>, beats: nat -> bool, turns: nat)
      requires |wires| == |q|
      reads q
    {
      && (forall k :: 0 <= k < turns && k < |q| ==> Beaten(q[k], wires[k], beats(k)))
      && (forall k :: turns <= k < |q| ==> Untouched(q[k], wires[k]))
    }

    /** Tests the oldest idle connection: it goes to the end of the queue or is closed. */
    method BeatOnce(env: WriteEnv)
      requires Valid() && idle != [] && Progress(env)
      modifies this`idle, this`size, {idle[0]}`wire, {idle[0]}`connected, {idle[0]}`open
      ensures Valid()
      ensures Beaten(old(idle)[0], old(idle[0].wire), Beats(beat, env))
      ensures idle == old(idle)[1..] + if Beats(beat, env) then [old(idle)[0]] else []
      ensures size == old(size) + if Beats(beat, env) then 0 else 1
    {
      var s := idle[0];
      idle := idle[1..];
      var ok := s.IsConnected();
      assert Faced(s.open, env) == env;
      if ok {
        ghost var last;
        ok, last := s.Send(beat, env);
        assert Frame(beat)[..|Frame(beat)|] == Frame(beat);
        SendRunVerdict(Frame(beat), 0, env, 0);
      }
      if ok {
        idle := idle + [s];
      } else {
        s.Close();
        Release(null);
      }
    }

    /** Where the heartbeat loop is after `turns` turns over the queue `q`, having started with `tokens`. */
    ghost predicate BeatState(q: seq<TaskSocket>, wires: seq<seq<byte>>, beats: nat -> bool, turns: nat, tokens: nat)
      requires |wires| == |q| && turns <= |q|
      reads this, idle, q
    {
      && Valid() && Swept(q, wires, beats, turns)
      && var kept := Survivors(q, beats, turns);
         idle == q[turns..] + kept && size + |kept| == tokens + turns
    }

    lemma BeatStart(wires: seq<seq<byte>>, beats: nat -> bool)
      requires Valid() && |wires| == |idle| && forall k :: 0 <= k < |idle| ==> wires[k] == idle[k].wire
      ensures BeatState(idle, wires, beats, 0, size)
    {
      assert idle[0..] + [] == idle;
    }

    /** One turn of the heartbeat loop. */
    method BeatNext(ghost q: seq<TaskSocket>, ghost wires: seq<seq<byte>>, env: WriteEnv, turns: nat,
                    ghost beats: nat -> bool, ghost tokens: nat)
      requires turns < |q| && |wires| == |q| && BeatState(q, wires, beats, turns, tokens)
      requires Progress(env) && beats(turns) == Beats(beat, env)
      requires forall i, j :: 0 <= i < j < |q| ==> q[i] != q[j]
      modifies this`idle, this`size, {q[turns]}`wire, {q[turns]}`connected, {q[turns]}`open
      ensures BeatState(q, wires, beats, turns + 1, tokens)
    {
      NextSurvivor(q, beats, turns);
      BeatOnce(env);
    }

    /** `turns` idle connections have been tested, in queue order and once each; the survivors follow the
        untested ones in their own order, the others are closed and their tokens are back. On an open
        pool every idle connection is tested. */
    method Heartbeat(envs: nat -> WriteEnv, quits: nat -> bool, ghost q: seq<TaskSocket>,
                     ghost wires: seq<seq<byte>>, ghost tokens: nat, ghost beats: nat -> bool)
      returns (turns: nat)
      requires Valid() && AllProgress(envs) && q == idle && tokens == size && beats == Beating(beat, envs)
      requires |wires| == |idle| && forall k :: 0 <= k < |idle| ==> wires[k] == idle[k].wire
      modifies this`idle, this`size, idle`wire, idle`connected, idle`open
      ensures turns <= |q| && BeatState(q, wires, beats, turns, tokens)
      ensures !closed ==> turns == |q|
    {
      turns := 0;
      var i := |idle|;
      BeatStart(wires, beats);
      while i > 0
        invariant i >= 0 && turns == |q| - i && BeatState(q, wires, beats, turns, tokens)
        decreases i
      {
        if closed && quits(turns) {
          return;
        }
        assert q[turns] in q;
        BeatNext(q, wires, envs(turns), turns, beats, tokens);
        turns := turns + 1;
        i := i - 1;
      }
    }

    /** The loop of Close runs once per unit of capacity: it empties the queue, closes every idle
        connection and gives their tokens back; a second call does nothing. */
    method Close()
      requires Valid()
      modifies this`idle, this`size, this`closed,
               (if closed then {} else Elems(idle))`connected, (if closed then {} else Elems(idle))`open
      ensures Valid() && closed
      ensures old(closed) ==> idle == old(idle) && size == old(size)
      ensures !old(closed) ==> idle == [] && size == old(size) + |old(idle)|
      ensures !old(closed) ==> forall k :: 0 <= k < |old(idle)| ==> !old(idle)[k].IsConnected() && !old(idle)[k].open
    {
      if closed {
        return;
      }
      closed := true;
      ghost var q := idle;
      var i := 0;
      while i < cap
        invariant i <= cap && Valid() && closed
        invariant idle == q[Min(i, |q|)..] && size == old(size) + Min(i, |q|)
        invariant forall k :: 0 <= k < i && k < |q| ==> q[k].Valid() && !q[k].IsConnected()
      {
        if |idle| > 0 {
          var s := idle[0];
          assert s == q[i];
          idle := idle[1..];
          s.Close();
          Release(null);
        }
        i := i + 1;
      }
    }
  }

  class Manger {
    var pools: map<string, Pool>

    constructor ()
      ensures Valid() && Keyed() && pools == map[]
    {
      pools := map[];
    }

    /** Every pool is registered under the key of its own address. */
    ghost predicate Keyed()
      reads this
    {
      forall k :: k in pools ==> pools[k].addr.Key() == k
    }

    /** No two pools have the same address. */
    ghost predicate Valid()
      reads this, pools.Values,
            set p: Pool, i: nat | p in pools.Values && i < |p.idle| :: p.idle[i]
    {
      && (forall p: Pool :: p in pools.Values ==> p.Valid())
      && (forall k, l :: k in pools && l in pools && pools[k].addr == pools[l].addr ==> k == l)
    }

    lemma ValidByVisits(ps: seq<Pool>)
      requires Visits(ps) && AllValid(ps)
      requires forall k, l :: k in pools && l in pools && pools[k].addr == pools[l].addr ==> k == l
      ensures Valid()
    {
      forall p: Pool | p in pools.Values ensures p.Valid() {
        assert p in ps;
      }
    }

    /** Registered under the key of its gateway's address; a pool already there is replaced. */
    method AddSocket(pool: Pool)
      requires Valid() && Keyed() && pool.Valid()
      modifies this
      ensures Valid() && Keyed() && pools == old(pools)[pool.addr.Key() := pool]
    {
      pools := pools[pool.addr.Key() := pool];
    }

    /** How many different gateway addresses have been registered: one registered twice counts once. */
    method Count() returns (n: nat)
      requires Valid()
      ensures n == |pools| == |set k | k in pools :: pools[k].addr|
    {
      ghost var addrs := map k | k in pools :: pools[k].addr;
      AddressCount(addrs, pools.Keys);
      assert (set k | k in pools.Keys :: addrs[k]) == set k | k in pools :: pools[k].addr;
      n := |pools|;
    }

    method GetSocket(key: string, dial: Dial) returns (r: Socket?<Pool>)
      requires Valid()
      modifies (if key in pools then {pools[key]} else {})`idle, (if key in pools then {pools[key]} else {})`size
      ensures Valid()
      ensures r != null <==>
        key in pools && (old(pools[key].idle) != [] || (old(pools[key].size) > 0 && dial.Accepted?))
      ensures r != null ==> pools[key].Borrowed(r) && r.IsConnected()
      ensures r != null ==> Lent(pools[key], r, old(pools[key].Offers(dial)))
      ensures r != null && old(pools[key].idle) != [] ==>
        r == old(pools[key].idle)[0] && pools[key].idle == old(pools[key].idle)[1..]
      ensures r != null && old(pools[key].idle) == [] ==> fresh(r) && r.Dialled(dial) && pools[key].idle == []
      ensures key in pools ==> pools[key].Total() == old(pools[key].Total()) - if r == null then 0 else 1
    {
      if key !in pools {
        return null;
      }
      r := pools[key].Get(dial);
    }

    /** An order in which the map's values may be visited. */
    ghost predicate Visits(ps: seq<Pool>)
      reads this
    {
      && (forall p: Pool :: p in pools.Values ==> p in ps)
      && (forall i :: 0 <= i < |ps| ==> ps[i] in pools.Values)
      && NoDup(ps)
    }

    /** One connection from every pool, in whatever order the map is visited, when every pool can lend one;
        otherwise none, and each connection `taken` meanwhile is back at the end of its own queue. */
    method GetSockets(ps: seq<Pool>, dials: nat -> Dial, ghost offers: seq<Offer>)
      returns (r: Option<seq<TaskSocket>>, ghost taken: seq<TaskSocket>)
      requires Valid() && Visits(ps) && |offers| == |ps| && Offering(ps, 0, dials, offers)
      modifies ps`idle, ps`size
      ensures Valid() && AllValid(ps)
      ensures r.Some? <==> AllLend(offers)
      ensures |taken| <= |ps| && AllLent(ps, taken, offers)
      ensures |taken| < |ps| ==> !offers[|taken|].lends
      ensures NewOnes(taken, offers)
      ensures r.None? ==> AllBack(ps, taken, offers)
      ensures r.Some? ==> r.value == taken && |taken| == |ps| && Holds(ps, taken, offers)
    {
      r, taken := TakeAll(ps, dials, offers);
      ValidByVisits(ps);
    }
  }

  /** Different keys have different addresses, so there are as many of the one as of the other. */
  lemma {:induction false} AddressCount(addrs: map<string, Endpoint>, keys: set<string>)
    requires keys <= addrs.Keys && forall k, l :: k in addrs && l in addrs && addrs[k] == addrs[l] ==> k == l
    ensures |set k | k in keys :: addrs[k]| == |keys|
    decreases |keys|
  {
    if keys != {} {
      var k :| k in keys;
      var rest := keys - {k};
      AddressCount(addrs, rest);
      assert (set l | l in keys :: addrs[l]) == (set l | l in rest :: addrs[l]) + {addrs[k]};
    }
  }

  /** Every idle connection of the pools. */
  ghost function AllIdle(ps: seq<Pool>): set<TaskSocket>
    reads ps
  {
    set i: nat, j: nat | i < |ps| && j < |ps[i].idle| :: ps[i].idle[j]
  }

  ghost predicate AllValid(ps: seq<Pool>)
    reads ps, AllIdle(ps)
  {
    forall i :: 0 <= i < |ps| ==> ps[i].Valid()
  }

  /** This pool, which offered so, has lent the oldest of its queue, if it had any, or used up a token. */
  ghost predicate Out(p: Pool, s: TaskSocket, offer: Offer)
    reads p, s
  {
    p.Borrowed(s) && p.idle == Tail(offer.queue) && p.Total() == offer.Total() - 1
  }

  /** The first `|socks|` pools have lent these connections, one each. */
  ghost predicate Holds(ps: seq<Pool>, socks: seq<TaskSocket>, offers: seq<Offer>)
    requires |offers| == |ps|
    reads ps, socks
  {
    |socks| <= |ps| && forall i :: 0 <= i < |socks| ==> Out(ps[i], socks[i], offers[i])
  }

  /** This pool has got back what it lent. */
  ghost predicate Back(p: Pool, s: Socket?<Pool>, offer: Offer)
    reads p, s
  {
    GivenBack(offer.queue, s, p.idle) && p.Total() == offer.Total()
  }

  /** The pools from `from` on are as they offered. */
  ghost predicate Unused(ps: seq<Pool>, from: nat, offers: seq<Offer>)
    requires |offers| == |ps|
    reads ps
  {
    forall i :: from <= i < |ps| ==> ps[i].idle == offers[i].queue && ps[i].Total() == offers[i].Total()
  }

  /** The first `|used|` pools have got back what they lent, the others are as they were. */
  ghost predicate AllBack(ps: seq<Pool>, used: seq<Socket?<Pool>>, offers: seq<Offer>)
    requires |used| <= |ps| == |offers|
    reads ps, used
  {
    && (forall i :: 0 <= i < |used| ==> Back(ps[i], used[i], offers[i]))
    && Unused(ps, |used|, offers)
  }

  /** The connections from `i` on are still held, those before are back in their queues. */
  ghost predicate Returning(ps: seq<Pool>, socks: seq<TaskSocket>, i: nat, offers: seq<Offer>)
    requires |socks| <= |ps| == |offers|
    reads ps, socks
  {
    && (forall j :: 0 <= j < i && j < |socks| ==> Back(ps[j], socks[j], offers[j]))
    && (forall j :: i <= j < |socks| ==> Out(ps[j], socks[j], offers[j]))
    && Unused(ps, |socks|, offers)
  }

  /** The pools not visited are as they offered, and all have been visited exactly when all lend. */
  lemma AcquiredOrUnused(ps: seq<Pool>, socks: seq<TaskSocket>, dials: nat -> Dial, offers: seq<Offer>)
    requires |socks| <= |ps| == |offers| && AllLent(ps, socks, offers) && Offering(ps, |socks|, dials, offers)
    requires |socks| < |ps| ==> !offers[|socks|].lends
    ensures Unused(ps, |socks|, offers)
    ensures |socks| == |ps| <==> AllLend(offers)
  {
    forall i | |socks| <= i < |ps| ensures ps[i].idle == offers[i].queue && ps[i].Total() == offers[i].Total() {
      assert ps[i].Offers(dials(i)) == offers[i];
    }
    forall i | 0 <= i < |socks| ensures offers[i].lends {
      assert Lent(ps[i], socks[i], offers[i]);
    }
  }

  method ReleaseNext(ps: seq<Pool>, socks: seq<TaskSocket>, i: nat, ghost offers: seq<Offer>)
    requires AllValid(ps) && NoDup(ps) && i < |socks| <= |ps| == |offers| && Returning(ps, socks, i, offers)
    modifies {ps[i]}`idle, {ps[i]}`size
    ensures AllValid(ps) && Returning(ps, socks, i + 1, offers)
  {
    var p := socks[i].tag;
    assert p == ps[i] && Out(p, socks[i], offers[i]);
    assert forall j :: 0 <= j < |ps| && j != i ==> ps[j] != p;
    p.Release(socks[i]);
    assert Back(p, socks[i], offers[i]);
    assert p.Valid();
  }

  /** Gives every connection back to its pool: it is at the end of the pool's queue if it is connected,
      otherwise its token is back. */
  method ReleaseAll(ps: seq<Pool>, socks: seq<TaskSocket>, ghost offers: seq<Offer>)
    requires AllValid(ps) && NoDup(ps) && |offers| == |ps|
    requires Holds(ps, socks, offers) && Unused(ps, |socks|, offers)
    modifies ps`idle, ps`size
    ensures AllValid(ps) && AllBack(ps, socks, offers)
    ensures unchanged(socks)
  {
    var i := 0;
    while i < |socks|
      invariant i <= |socks| && AllValid(ps) && Returning(ps, socks, i, offers)
      invariant unchanged(socks)
    {
      ReleaseNext(ps, socks, i, offers);
      i := i + 1;
    }
  }

  /** The other pools are other pools. */
  ghost predicate Apart(ps: seq<Pool>, i: nat) {
    i < |ps| && forall j :: 0 <= j < |ps| && j != i ==> ps[j] != ps[i]
  }

  /** Where a loop over pools is: the pools from `i` on offer `offers`. */
  datatype Turn = Turn(ps: seq<Pool>, i: nat, dials: nat -> Dial, offers: seq<Offer>)

  /** A turn that touches one pool and the connection it lends keeps the other pools and what they offer. */
  twostate lemma OthersKept(t: Turn)
    requires t.i < |t.ps| == |t.offers| && old(AllValid(t.ps) && Offering(t.ps, t.i, t.dials, t.offers))
    requires forall j :: 0 <= j < |t.ps| && j != t.i ==> unchanged(t.ps[j]) && unchanged(t.ps[j].idle)
    ensures forall j :: 0 <= j < |t.ps| && j != t.i ==> t.ps[j].Valid()
    ensures Offering(t.ps, t.i + 1, t.dials, t.offers)
  {
    forall j | 0 <= j < |t.ps| && j != t.i
      ensures t.ps[j].Valid() && (j > t.i ==> t.ps[j].Offers(t.dials(j)) == t.offers[j])
    {
      assert old(t.ps[j].Valid());
    }
  }

  /** One turn of the acquiring loop: the connections already held stay held. */
  method AcquireNext(ps: seq<Pool>, ghost socks: seq<TaskSocket>, i: nat, dials: nat -> Dial, ghost offers: seq<Offer>)
    returns (s: Socket?<Pool>)
    requires AllValid(ps) && Apart(ps, i) && i == |socks| && |ps| == |offers|
    requires Holds(ps, socks, offers) && Offering(ps, i, dials, offers)
    modifies {ps[i]}`idle, {ps[i]}`size
    ensures AllValid(ps) && Holds(ps, socks, offers) && unchanged(socks)
    ensures s != null <==> offers[i].lends
    ensures Offering(ps, if s == null then i else i + 1, dials, offers)
    ensures s != null ==> Lent(ps[i], s, offers[i]) && Holds(ps, socks + [s], offers)
    ensures s != null && offers[i].queue == [] ==> fresh(s)
  {
    s := ps[i].Get(dials(i));
    OthersKept(Turn(ps, i, dials, offers));
  }

  lemma OneMoreLent(ps: seq<Pool>, socks: seq<TaskSocket>, s: TaskSocket, offers: seq<Offer>)
    requires |socks| < |ps| == |offers| && AllLent(ps, socks, offers) && Lent(ps[|socks|], s, offers[|socks|])
    ensures AllLent(ps, socks + [s], offers)
  {
  }

  /** Takes a connection from pool after pool until one has none to give. */
  method Acquire(ps: seq<Pool>, dials: nat -> Dial, ghost offers: seq<Offer>) returns (socks: seq<TaskSocket>)
    requires AllValid(ps) && NoDup(ps) && |offers| == |ps| && Offering(ps, 0, dials, offers)
    modifies ps`idle, ps`size
    ensures AllValid(ps) && Holds(ps, socks, offers) && Offering(ps, |socks|, dials, offers)
    ensures AllLent(ps, socks, offers)
    ensures |socks| < |ps| ==> !offers[|socks|].lends
    ensures NewOnes(socks, offers)
  {
    socks := [];
    while |socks| < |ps|
      invariant AllValid(ps) && Holds(ps, socks, offers) && Offering(ps, |socks|, dials, offers)
      invariant AllLent(ps, socks, offers)
      invariant NewOnes(socks, offers)
    {
      var s := AcquireNext(ps, socks, |socks|, dials, offers);
      if s == null {
        return;
      }
      OneMoreLent(ps, socks, s, offers);
      socks := socks + [s];
    }
  }

  /** One connection from every pool or none. */
  method TakeAll(ps: seq<Pool>, dials: nat -> Dial, ghost offers: seq<Offer>)
    returns (r: Option<seq<TaskSocket>>, ghost taken: seq<TaskSocket>)
    requires AllValid(ps) && NoDup(ps) && |offers| == |ps| && Offering(ps, 0, dials, offers)
    modifies ps`idle, ps`size
    ensures AllValid(ps)
    ensures r.Some? <==> AllLend(offers)
    ensures |taken| <= |ps| && AllLent(ps, taken, offers)
    ensures |taken| < |ps| ==> !offers[|taken|].lends
    ensures NewOnes(taken, offers)
    ensures r.None? ==> AllBack(ps, taken, offers)
    ensures r.Some? ==> r.value == taken && |taken| == |ps| && Holds(ps, taken, offers)
  {
    var socks := Acquire(ps, dials, offers);
    taken := socks;
    AcquiredOrUnused(ps, socks, dials, offers);
    if |socks| < |ps| {
      ReleaseAll(ps, socks, offers);
      return None, taken;
    }
    return Some(socks), taken;
  }
}
