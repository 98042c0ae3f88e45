/**
 What every step of the pool keeps, whatever the network and the scheduler do: tokens and connections
 are conserved, and every open connection has exactly one owner.
 */
module TaskPoolOwnership {
  import opened Framing
  import opened Transfer
  import opened TaskPool

  // ---------------------------------------------------------------- the invariant

  /** 1 for a thread that has a token or a connection in hand. */
  function Hand(p: PC): nat {
    if p.Dialing? || p.PutToken? || Sock(p) >= 0 then 1 else 0
  }

  function Hands(threads: seq<PC>): nat {
    if threads == [] then 0 else Hands(threads[..|threads| - 1]) + Hand(threads[|threads| - 1])
  }

  ghost predicate Conserved(cfg: Config, s: State) {
    s.tokens + |s.idle| + Hands(s.threads) == cfg.cap
  }

  ghost predicate HeldBy(threads: seq<PC>, i: nat, c: nat) {
    i < |threads| && Sock(threads[i]) == c
  }

  /** Idle connections are distinct, held ones are neither idle nor held twice. */
  ghost predicate Exclusive(threads: seq<PC>, idle: seq<nat>) {
    && (forall i, j :: 0 <= i < j < |idle| ==> idle[i] != idle[j])
    && (forall i: nat, c: nat :: HeldBy(threads, i, c) ==> c !in idle)
    && (forall i: nat, j: nat, c: nat :: HeldBy(threads, i, c) && HeldBy(threads, j, c) ==> i == j)
  }

  /** Every owned connection exists, idle ones are up, and no connection that is up has no owner. */
  ghost predicate Located(threads: seq<PC>, idle: seq<nat>, conns: seq<Conn>) {
    && (forall i :: 0 <= i < |idle| ==> idle[i] < |conns| && conns[idle[i]].up)
    && (forall i: nat, c: nat :: HeldBy(threads, i, c) ==> c < |conns|)
    && (forall c :: 0 <= c < |conns| && conns[c].up ==> c in idle || exists i: nat :: HeldBy(threads, i, c))
  }

  /** A thread about to put a connection back has seen its flag up; one that is part way through a
      frame or has just been answered has not closed its connection. */
  predicate Upright(p: PC, conns: seq<Conn>) {
    Sock(p) >= |conns| ||
    (match p
     case PutIdle(c, _) => conns[c].up
     case BeatHolds(c, _) => conns[c].up
     case Answered(c, _, _) => conns[c].up
     case Sending(c, msg, done, job) =>
       && done < |Frame(msg)|
       && (done > 0 || job.Heartbeat? ==> conns[c].up)
     case Receiving(c, _, got) => !StartsWhole(got) && |got| <= Need(got) && (got != [] ==> conns[c].up)
     case _ => true)
  }

  ghost predicate AllUpright(s: State) {
    forall i :: 0 <= i < |s.threads| ==> Upright(s.threads[i], s.conns)
  }

  ghost predicate Owned(cfg: Config, s: State) {
    && Conserved(cfg, s)
    && Exclusive(s.threads, s.idle)
    && Located(s.threads, s.idle, s.conns)
    && AllUpright(s)
  }

  // ---------------------------------------------------------------- sums

  lemma {:induction false} HandsUpdate(ts: seq<PC>, t: nat, p: PC)
    requires t < |ts|
    ensures Hands(ts[t := p]) == Hands(ts) - Hand(ts[t]) + Hand(p)
    ensures Hands(ts) >= Hand(ts[t])
    decreases |ts|
  {
    var front, last := ts[..|ts| - 1], |ts| - 1;
    if t == last {
      assert ts[t := p][..last] == front;
    } else {
      HandsUpdate(front, t, p);
      assert ts[t := p][..last] == front[t := p];
    }
  }

  lemma HandsSpawn(ts: seq<PC>)
    ensures Hands(ts + [Idle]) == Hands(ts)
  {
    assert (ts + [Idle])[..|ts|] == ts;
  }

  lemma {:induction false} SomeHand(ts: seq<PC>)
    requires Hands(ts) > 0
    ensures exists i :: 0 <= i < |ts| && Hand(ts[i]) == 1
    decreases |ts|
  {
    var last := |ts| - 1;
    if Hand(ts[last]) == 0 {
      SomeHand(ts[..last]);
      var i :| 0 <= i < last && Hand(ts[..last][i]) == 1;
      assert Hand(ts[i]) == 1;
    }
  }

  lemma {:induction false} NoHands(ts: seq<PC>)
    requires forall i :: 0 <= i < |ts| ==> Hand(ts[i]) == 0
    ensures Hands(ts) == 0
    decreases |ts|
  {
    if ts != [] {
      NoHands(ts[..|ts| - 1]);
    }
  }

  // ------------------------------------------------ the ways a connection changes hands

  ghost predicate Placed(threads: seq<PC>, idle: seq<nat>, conns: seq<Conn>) {
    Exclusive(threads, idle) && Located(threads, idle, conns)
  }

  lemma HeldElsewhere(ts: seq<PC>, t: nat, p: PC, ts': seq<PC>)
    requires t < |ts| && ts' == ts[t := p]
    ensures forall i: nat, c: nat :: HeldBy(ts', i, c) <==> if i == t then Sock(p) == c else HeldBy(ts, i, c)
  {
  }

  /** The thread keeps what it holds; the held connection may change. */
  lemma Keep(ts: seq<PC>, idle: seq<nat>, conns: seq<Conn>, t: nat, p: PC, ts': seq<PC>, conns': seq<Conn>)
    requires Placed(ts, idle, conns) && t < |ts| && ts' == ts[t := p] && Sock(p) == Sock(ts[t]) && |conns'| == |conns|
    requires forall c :: 0 <= c < |conns| && c != Sock(p) ==> conns'[c] == conns[c]
    ensures Placed(ts', idle, conns')
  {
    HeldElsewhere(ts, t, p, ts');
    forall c | 0 <= c < |conns| && conns'[c].up && c !in idle
      ensures exists i: nat :: HeldBy(ts', i, c)
    {
      if c == Sock(p) {
        assert HeldBy(ts', t, c);
      } else {
        var i: nat :| HeldBy(ts, i, c);
        assert HeldBy(ts', i, c);
      }
    }
    assert forall c :: c in idle ==> c != Sock(p) by {
      if Sock(ts[t]) >= 0 {
        assert HeldBy(ts, t, Sock(ts[t]));
      }
    }
  }

  /** The thread lets go of a connection that is down. */
  lemma DropDown(ts: seq<PC>, idle: seq<nat>, conns: seq<Conn>, t: nat, p: PC, ts': seq<PC>, k: Conn)
    requires Placed(ts, idle, conns) && t < |ts| && ts' == ts[t := p]
    requires 0 <= Sock(ts[t]) < |conns| && Sock(p) == -1 && !k.up
    ensures Placed(ts', idle, conns[Sock(ts[t]) := k])
  {
    HeldElsewhere(ts, t, p, ts');
    var d := Sock(ts[t]);
    assert HeldBy(ts, t, d);
    forall c | 0 <= c < |conns| && c != d && conns[c].up && c !in idle
      ensures exists i: nat :: HeldBy(ts', i, c)
    {
      var i: nat :| HeldBy(ts, i, c);
      assert HeldBy(ts', i, c);
    }
  }

  /** The thread receives the oldest idle connection. */
  lemma TakeHead(ts: seq<PC>, idle: seq<nat>, conns: seq<Conn>, t: nat, p: PC, ts': seq<PC>)
    requires Placed(ts, idle, conns) && t < |ts| && ts' == ts[t := p]
    requires |idle| > 0 && Sock(ts[t]) == -1 && Sock(p) == idle[0]
    ensures Placed(ts', idle[1..], conns)
  {
    HeldElsewhere(ts, t, p, ts');
    forall c | 0 <= c < |conns| && conns[c].up && c !in idle[1..]
      ensures exists i: nat :: HeldBy(ts', i, c)
    {
      if c in idle {
        assert HeldBy(ts', t, c);
      } else {
        var i: nat :| HeldBy(ts, i, c);
        assert HeldBy(ts', i, c);
      }
    }
  }

  /** The thread sends a live connection to the queue. */
  lemma PutTail(ts: seq<PC>, idle: seq<nat>, conns: seq<Conn>, t: nat, p: PC, ts': seq<PC>, d: nat)
    requires Placed(ts, idle, conns) && HeldBy(ts, t, d) && ts' == ts[t := p]
    requires d < |conns| && conns[d].up && Sock(p) == -1
    ensures Placed(ts', idle + [d], conns)
  {
    HeldElsewhere(ts, t, p, ts');
    forall c | 0 <= c < |conns| && conns[c].up && c !in idle + [d]
      ensures exists i: nat :: HeldBy(ts', i, c)
    {
      var i: nat :| HeldBy(ts, i, c);
      assert HeldBy(ts', i, c);
    }
  }

  /** The thread gets a connection it has just dialled. */
  lemma Fresh(ts: seq<PC>, idle: seq<nat>, conns: seq<Conn>, t: nat, p: PC, ts': seq<PC>, k: Conn)
    requires Placed(ts, idle, conns) && t < |ts| && ts' == ts[t := p] && Sock(ts[t]) == -1 && Sock(p) == |conns|
    ensures Placed(ts', idle, conns + [k])
  {
    HeldElsewhere(ts, t, p, ts');
    forall c | 0 <= c < |conns + [k]| && (conns + [k])[c].up && c !in idle
      ensures exists i: nat :: HeldBy(ts', i, c)
    {
      if c == |conns| {
        assert HeldBy(ts', t, c);
      } else {
        var i: nat :| HeldBy(ts, i, c);
        assert HeldBy(ts', i, c);
      }
    }
  }

  lemma Spawned(ts: seq<PC>, idle: seq<nat>, conns: seq<Conn>)
    requires Placed(ts, idle, conns)
    ensures Placed(ts + [Idle], idle, conns)
  {
    assert forall i: nat, c: nat :: HeldBy(ts + [Idle], i, c) <==> HeldBy(ts, i, c);
  }

  // ------------------------------------------------ every step makes one such move

  /** What a step of thread `t` can do to tokens and connections. */
  ghost predicate Move(s: State, s': State, t: nat) {
    && t < |s.threads| && t < |s'.threads|
    && var p, p' := s.threads[t], s'.threads[t];
    && s'.threads == s.threads[t := p']
    && (Keeps(s, s', p, p') || Drops(s, s', p, p') || Takes(s, s', p, p') || Puts(s, s', p, p') || Dials(s, s', p, p'))
  }

  ghost predicate Keeps(s: State, s': State, p: PC, p': PC) {
    && Sock(p') == Sock(p) && s'.idle == s.idle && |s'.conns| == |s.conns|
    && (forall c :: 0 <= c < |s.conns| && c != Sock(p) ==> s'.conns[c] == s.conns[c])
    && s'.tokens + Hand(p') == s.tokens + Hand(p)
  }

  ghost predicate Drops(s: State, s': State, p: PC, p': PC) {
    && 0 <= Sock(p) < |s.conns| && Sock(p') == -1 && Hand(p') == 1
    && s'.idle == s.idle && s'.tokens == s.tokens && |s'.conns| == |s.conns|
    && !s'.conns[Sock(p)].up && s'.conns == s.conns[Sock(p) := s'.conns[Sock(p)]]
  }

  ghost predicate Takes(s: State, s': State, p: PC, p': PC) {
    && |s.idle| > 0 && Hand(p) == 0 && Sock(p') == s.idle[0]
    && s'.idle == s.idle[1..] && s'.tokens == s.tokens && s'.conns == s.conns
  }

  ghost predicate Puts(s: State, s': State, p: PC, p': PC) {
    && p.PutIdle? && 0 <= Sock(p) < |s.conns| && s.conns[Sock(p)].up && Hand(p') == 0
    && s'.idle == s.idle + [Sock(p)] && s'.tokens == s.tokens && s'.conns == s.conns
  }

  ghost predicate Dials(s: State, s': State, p: PC, p': PC) {
    && p.Dialing? && Sock(p') == |s.conns|
    && s'.idle == s.idle && s'.tokens == s.tokens && s'.conns == s.conns + [FRESH]
  }

  predicate CallerStep(step: Step) {
    step.GetTest? || step.GetSelect? || step.DialResult? || step.TakeIdle? || step.WaitExpires? || step.Begin?
  }

  predicate TransferStep(step: Step) {
    step.WriteOnce? || step.ReadOnce?
  }

  predicate BeatStep(step: Step) {
    step.BeatStart? || step.BeatTurn? || step.BeatTest?
  }

  predicate CloseStep(step: Step) {
    step.CloseTest? || step.CloseMark? || step.SweepTurn?
  }

  predicate GiveStep(step: Step) {
    step.Digest? || step.Release? || step.SendIdle? || step.SendToken? || step.Shut?
  }

  lemma CallerMove(cfg: Config, s: State, step: Step)
    requires AllUpright(s) && Enabled(cfg, s, step) && CallerStep(step)
    ensures Move(s, Do(cfg, s, step), step.t) && Upright(Do(cfg, s, step).threads[step.t], Do(cfg, s, step).conns)
  {
  }

  lemma BeatMove(cfg: Config, s: State, step: Step)
    requires AllUpright(s) && Located(s.threads, s.idle, s.conns) && Enabled(cfg, s, step) && BeatStep(step)
    ensures Move(s, Do(cfg, s, step), step.t) && Upright(Do(cfg, s, step).threads[step.t], Do(cfg, s, step).conns)
  {
    assert Upright(s.threads[step.t], s.conns);
  }

  lemma CloseMove(cfg: Config, s: State, step: Step)
    requires AllUpright(s) && Located(s.threads, s.idle, s.conns) && Enabled(cfg, s, step) && CloseStep(step)
    ensures Move(s, Do(cfg, s, step), step.t) && Upright(Do(cfg, s, step).threads[step.t], Do(cfg, s, step).conns)
  {
  }

  lemma GiveMove(cfg: Config, s: State, step: Step)
    requires AllUpright(s) && Enabled(cfg, s, step) && GiveStep(step)
    ensures Move(s, Do(cfg, s, step), step.t) && Upright(Do(cfg, s, step).threads[step.t], Do(cfg, s, step).conns)
  {
    assert Upright(s.threads[step.t], s.conns);
  }

  lemma WriteMove(cfg: Config, s: State, step: Step)
    requires AllUpright(s) && Enabled(cfg, s, step) && step.WriteOnce?
    ensures Move(s, Do(cfg, s, step), step.t) && Upright(Do(cfg, s, step).threads[step.t], Do(cfg, s, step).conns)
  {
    assert Upright(s.threads[step.t], s.conns);
  }

  lemma ReadMove(cfg: Config, s: State, step: Step)
    requires AllUpright(s) && Enabled(cfg, s, step) && step.ReadOnce?
    ensures Move(s, Do(cfg, s, step), step.t) && Upright(Do(cfg, s, step).threads[step.t], Do(cfg, s, step).conns)
  {
    assert Upright(s.threads[step.t], s.conns);
    if step.rev.Arrived? {
      var Receiving(c, msg, got) := s.threads[step.t];
      TakeFits(got, Unread(s.conns[c]), step.rev.n);
    }
  }

  lemma TakeFits(got: seq<byte>, unread: seq<byte>, n: nat)
    requires |got| <= Need(got)
    ensures var got' := got + unread[..Take(got, |unread|, n)];
            |got'| <= Need(got')
  {
    var got' := got + unread[..Take(got, |unread|, n)];
    if |got| >= 4 {
      assert got'[..4] == got[..4];
    }
  }

  lemma EveryMove(cfg: Config, s: State, step: Step)
    requires Owned(cfg, s) && Enabled(cfg, s, step) && !step.Spawn? && !step.Reply?
    ensures Move(s, Do(cfg, s, step), step.t) && Upright(Do(cfg, s, step).threads[step.t], Do(cfg, s, step).conns)
  {
    if CallerStep(step) {
      CallerMove(cfg, s, step);
    } else if BeatStep(step) {
      BeatMove(cfg, s, step);
    } else if CloseStep(step) {
      CloseMove(cfg, s, step);
    } else if GiveStep(step) {
      GiveMove(cfg, s, step);
    } else if step.WriteOnce? {
      WriteMove(cfg, s, step);
    } else {
      ReadMove(cfg, s, step);
    }
  }

  lemma MovePlaced(s: State, s': State, t: nat)
    requires Move(s, s', t) && Placed(s.threads, s.idle, s.conns)
    ensures Placed(s'.threads, s'.idle, s'.conns)
  {
    var p, p' := s.threads[t], s'.threads[t];
    if Keeps(s, s', p, p') {
      Keep(s.threads, s.idle, s.conns, t, p', s'.threads, s'.conns);
    } else if Drops(s, s', p, p') {
      DropDown(s.threads, s.idle, s.conns, t, p', s'.threads, s'.conns[Sock(p)]);
    } else if Takes(s, s', p, p') {
      TakeHead(s.threads, s.idle, s.conns, t, p', s'.threads);
    } else if Puts(s, s', p, p') {
      PutTail(s.threads, s.idle, s.conns, t, p', s'.threads, Sock(p));
    } else {
      Fresh(s.threads, s.idle, s.conns, t, p', s'.threads, FRESH);
    }
  }

  /** A connection another thread holds is not touched. */
  lemma MoveOthers(s: State, s': State, t: nat, i: nat)
    requires Move(s, s', t) && Placed(s.threads, s.idle, s.conns) && i < |s.threads| && i != t
    ensures s'.threads[i] == s.threads[i]
    ensures Sock(s.threads[i]) >= 0 ==> Sock(s.threads[i]) < |s.conns| && Sock(s.threads[i]) < |s'.conns|
    ensures Sock(s.threads[i]) >= 0 ==> s'.conns[Sock(s.threads[i])] == s.conns[Sock(s.threads[i])]
  {
    if Sock(s.threads[i]) >= 0 {
      assert HeldBy(s.threads, i, Sock(s.threads[i]));
      if Sock(s.threads[t]) >= 0 {
        assert HeldBy(s.threads, t, Sock(s.threads[t]));
      }
    }
  }

  lemma MoveUpright(s: State, s': State, t: nat)
    requires Move(s, s', t) && Placed(s.threads, s.idle, s.conns) && AllUpright(s)
    requires Upright(s'.threads[t], s'.conns)
    ensures AllUpright(s')
  {
    forall i | 0 <= i < |s'.threads| ensures Upright(s'.threads[i], s'.conns) {
      if i != t {
        MoveOthers(s, s', t, i);
        assert Upright(s.threads[i], s.conns);
      }
    }
  }

  lemma ReplyOwned(cfg: Config, s: State, c: nat, body: Message)
    requires Owned(cfg, s) && Enabled(cfg, s, Reply(c, body))
    ensures Owned(cfg, Do(cfg, s, Reply(c, body)))
  {
    var s' := Do(cfg, s, Reply(c, body));
    forall i | 0 <= i < |s'.threads| ensures Upright(s'.threads[i], s'.conns) {
      assert Upright(s.threads[i], s.conns);
    }
  }

  /** One step from an owned state reaches an owned state. */
  lemma OwnedStep(cfg: Config, s: State, step: Step)
    requires Owned(cfg, s) && Enabled(cfg, s, step)
    ensures Owned(cfg, Do(cfg, s, step))
  {
    if step.Spawn? {
      HandsSpawn(s.threads);
      Spawned(s.threads, s.idle, s.conns);
    } else if step.Reply? {
      ReplyOwned(cfg, s, step.c, step.body);
    } else {
      EveryMove(cfg, s, step);
      MoveOwned(cfg, s, Do(cfg, s, step), step.t);
    }
  }

  lemma MoveOwned(cfg: Config, s: State, s': State, t: nat)
    requires Owned(cfg, s) && Move(s, s', t) && Upright(s'.threads[t], s'.conns)
    ensures Owned(cfg, s')
  {
    HandsUpdate(s.threads, t, s'.threads[t]);
    MovePlaced(s, s', t);
    MoveUpright(s, s', t);
  }

  /** Every run, whatever the network and the interleaving, keeps tokens and connections. */
  lemma {:induction false} OwnedRun(cfg: Config, s: State, steps: seq<Step>)
    requires Owned(cfg, s) && Legal(cfg, s, steps)
    ensures Owned(cfg, Run(cfg, s, steps))
    decreases |steps|
  {
    if steps != [] {
      OwnedStep(cfg, s, steps[0]);
      OwnedRun(cfg, Do(cfg, s, steps[0]), steps[1..]);
    }
  }

  /** A connection that is down stays down and is never idle again. */
  lemma {:induction false} DownForever(cfg: Config, s: State, steps: seq<Step>, c: nat)
    requires Owned(cfg, s) && Legal(cfg, s, steps) && c < |s.conns| && !s.conns[c].up
    ensures var s' := Run(cfg, s, steps); c < |s'.conns| && !s'.conns[c].up && c !in s'.idle
    decreases |steps|
  {
    if steps != [] {
      OwnedStep(cfg, s, steps[0]);
      DownStep(cfg, s, steps[0], c);
      DownForever(cfg, Do(cfg, s, steps[0]), steps[1..], c);
    }
  }

  lemma DownStep(cfg: Config, s: State, step: Step, c: nat)
    requires Enabled(cfg, s, step) && c < |s.conns| && !s.conns[c].up
    ensures var s' := Do(cfg, s, step); c < |s'.conns| && !s'.conns[c].up
  {
  }

  lemma NewPoolOwned(cfg: Config)
    ensures Owned(cfg, NewPool(cfg))
  {
  }

  // ---------------------------------------------------------------- what follows for every run

  /** In every reachable state tokens, idle connections and hands add up to the configured size. */
  lemma PoolConservation(cfg: Config, steps: seq<Step>)
    requires Legal(cfg, NewPool(cfg), steps)
    ensures var s := Run(cfg, NewPool(cfg), steps); s.tokens + |s.idle| + Hands(s.threads) == cfg.cap
  {
    NewPoolOwned(cfg);
    OwnedRun(cfg, NewPool(cfg), steps);
  }

  /** No thread that is about to send on `pool` or on `size` ever has to wait for room. */
  lemma SendsNeverBlock(cfg: Config, steps: seq<Step>, t: nat)
    requires Legal(cfg, NewPool(cfg), steps)
    ensures var s := Run(cfg, NewPool(cfg), steps);
            t < |s.threads| ==>
              && (s.threads[t].PutIdle? ==> Enabled(cfg, s, SendIdle(t)))
              && (s.threads[t].PutToken? ==> Enabled(cfg, s, SendToken(t)))
  {
    NewPoolOwned(cfg);
    OwnedRun(cfg, NewPool(cfg), steps);
    var s := Run(cfg, NewPool(cfg), steps);
    if t < |s.threads| {
      HandsUpdate(s.threads, t, Idle);
      if s.threads[t].PutIdle? {
        assert HeldBy(s.threads, t, s.threads[t].c);
      }
    }
  }

  /** A connection that is up has exactly one owner: it is idle once or held by one thread. Idle ones are up. */
  lemma ExclusiveOwnership(cfg: Config, steps: seq<Step>)
    requires Legal(cfg, NewPool(cfg), steps)
    ensures var s := Run(cfg, NewPool(cfg), steps);
            && Exclusive(s.threads, s.idle)
            && Located(s.threads, s.idle, s.conns)
  {
    NewPoolOwned(cfg);
    OwnedRun(cfg, NewPool(cfg), steps);
  }

  /** `Get` never hands out a connection whose flag is down, nor one that anybody else can reach. */
  lemma GetIsFreshAndUp(cfg: Config, steps: seq<Step>, step: Step)
    requires Legal(cfg, NewPool(cfg), steps)
    requires Enabled(cfg, Run(cfg, NewPool(cfg), steps), step)
    requires step.TakeIdle? || (step.DialResult? && step.ok)
    ensures var s' := Do(cfg, Run(cfg, NewPool(cfg), steps), step);
            && s'.threads[step.t].Holding?
            && var c := s'.threads[step.t].c;
            && c < |s'.conns| && s'.conns[c].up && c !in s'.idle
            && forall i: nat :: HeldBy(s'.threads, i, c) ==> i == step.t
  {
    NewPoolOwned(cfg);
    var s := Run(cfg, NewPool(cfg), steps);
    OwnedRun(cfg, NewPool(cfg), steps);
    OwnedStep(cfg, s, step);
    var s' := Do(cfg, s, step);
    assert HeldBy(s'.threads, step.t, s'.threads[step.t].c);
  }

  // ---------------------------------------------------------------- open connections

  function HeldSet(threads: seq<PC>): set<int> {
    if threads == [] then {}
    else HeldSet(threads[..|threads| - 1])
         + if Sock(threads[|threads| - 1]) >= 0 then {Sock(threads[|threads| - 1])} else {}
  }

  lemma {:induction false} HeldSetSize(threads: seq<PC>)
    ensures |HeldSet(threads)| <= Hands(threads)
    ensures forall i: nat, c: nat :: HeldBy(threads, i, c) ==> c in HeldSet(threads)
    decreases |threads|
  {
    if threads != [] {
      var last := |threads| - 1;
      var front := threads[..last];
      HeldSetSize(front);
      forall i: nat, c: nat | HeldBy(threads, i, c) ensures c in HeldSet(threads) {
        if i < last {
          assert HeldBy(front, i, c);
        }
      }
    }
  }

  lemma {:induction false} SetOfSeq(q: seq<nat>)
    ensures |set i | 0 <= i < |q| :: q[i]| <= |q|
    decreases |q|
  {
    if q != [] {
      var last := |q| - 1;
      SetOfSeq(q[..last]);
      var front := set i | 0 <= i < last :: q[..last][i];
      assert (set i | 0 <= i < |q| :: q[i]) == front + {q[last]};
    }
  }

  /** At no time are more connections open than the pool's size. */
  lemma OpenWithinSize(cfg: Config, steps: seq<Step>)
    requires Legal(cfg, NewPool(cfg), steps)
    ensures var s := Run(cfg, NewPool(cfg), steps);
            |set c: int | 0 <= c < |s.conns| && s.conns[c].up| <= cfg.cap
  {
    NewPoolOwned(cfg);
    OwnedRun(cfg, NewPool(cfg), steps);
    var s := Run(cfg, NewPool(cfg), steps);
    var open := set c: int | 0 <= c < |s.conns| && s.conns[c].up;
    var queued: set<int> := set i | 0 <= i < |s.idle| :: s.idle[i];
    SetOfSeq(s.idle);
    HeldSetSize(s.threads);
    forall c | c in open ensures c in queued + HeldSet(s.threads) {
      if c in s.idle {
        assert c in queued;
      } else {
        var i: nat :| HeldBy(s.threads, i, c);
      }
    }
    Included(open, queued + HeldSet(s.threads));
    assert |queued + HeldSet(s.threads)| <= |queued| + |HeldSet(s.threads)|;
  }

  lemma Included(a: set<int>, b: set<int>)
    requires a <= b
    ensures |a| <= |b|
  {
    assert b == a + (b - a);
  }
}
