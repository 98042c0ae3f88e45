/**
 One thread that moves while all others stand still, from any reachable state of the pool: each operation then
 does in the step machine what the object's method does in TaskSockets.
 */
module TaskPoolSolo {
  import opened Framing
  import opened Transfer
  import opened Collections
  import opened TaskPool
  import opened TaskPoolOwnership
  import opened TaskPoolScenarios
  import TaskSockets

  /** Only thread `t` moves. */
  predicate OnlyBy(steps: seq<Step>, t: nat) {
    forall i :: 0 <= i < |steps| ==> !steps[i].Spawn? && !steps[i].Reply? && steps[i].t == t
  }

  /** Moving alone, thread `t` can get from `s` to `s'`. */
  ghost predicate Alone(cfg: Config, s: State, t: nat, s': State) {
    exists steps :: OnlyBy(steps, t) && Leads(cfg, s, steps, s')
  }

  lemma Stay(cfg: Config, s: State, t: nat)
    ensures Alone(cfg, s, t, s)
  {
    assert OnlyBy([], t) && Leads(cfg, s, [], s);
  }

  lemma StepThen(cfg: Config, s: State, t: nat, step: Step, s': State)
    requires Enabled(cfg, s, step) && !step.Spawn? && !step.Reply? && step.t == t
    requires Alone(cfg, Do(cfg, s, step), t, s')
    ensures Alone(cfg, s, t, s')
  {
    var rest :| OnlyBy(rest, t) && Leads(cfg, Do(cfg, s, step), rest, s');
    First(cfg, s, step, Do(cfg, s, step), rest, s');
    assert OnlyBy([step] + rest, t);
  }

  // ---------------------------------------------------------------- Get and Release

  /** What Pool.Get does with the pool and returns: the oldest idle connection, else a new one for a token if the
      dial succeeds; with the queue empty and no token left, or when the dial fails, nothing. */
  function Got(s: State, t: nat, dialled: bool): State
    requires t < |s.threads|
  {
    if s.idle != [] then Goto(s, t, Holding(s.idle[0])).(idle := s.idle[1..])
    else if s.tokens > 0 && dialled then
      Goto(s, t, Holding(|s.conns|)).(tokens := s.tokens - 1, conns := s.conns + [FRESH])
    else s
  }

  lemma GetAlone(cfg: Config, s: State, t: nat, dialled: bool)
    requires Owned(cfg, s) && InRange(s, t) && s.threads[t].Idle?
    requires s.idle == [] && s.tokens == 0 ==> cfg.timed
    ensures Alone(cfg, s, t, Got(s, t, dialled))
  {
    var s' := Got(s, t, dialled);
    Stay(cfg, s', t);
    var s1 := Do(cfg, s, GetTest(t));
    if s.idle != [] {
      assert Do(cfg, s1, TakeIdle(t)) == s';
      StepThen(cfg, s1, t, TakeIdle(t), s');
    } else {
      var s2 := Do(cfg, s1, GetSelect(t));
      if s.tokens > 0 {
        DialAlone(cfg, s, s2, t, dialled);
      } else {
        assert Do(cfg, s2, WaitExpires(t)) == s';
        StepThen(cfg, s2, t, WaitExpires(t), s');
      }
      StepThen(cfg, s1, t, GetSelect(t), s');
    }
    StepThen(cfg, s, t, GetTest(t), s');
  }

  lemma DialAlone(cfg: Config, s: State, s2: State, t: nat, dialled: bool)
    requires InRange(s, t) && s.threads[t].Idle? && s.idle == [] && 0 < s.tokens <= cfg.cap
    requires s2 == Goto(s, t, Dialing).(tokens := s.tokens - 1)
    ensures Alone(cfg, s2, t, Got(s, t, dialled))
  {
    var s' := Got(s, t, dialled);
    Stay(cfg, s', t);
    var s3 := Do(cfg, s2, DialResult(t, dialled));
    if dialled {
      assert s3 == s';
    } else {
      assert Do(cfg, s3, SendToken(t)) == s';
      StepThen(cfg, s3, t, SendToken(t), s');
    }
    StepThen(cfg, s2, t, DialResult(t, dialled), s');
  }

  /** A connected one goes to the end of the queue, otherwise a token comes back. */
  lemma ReleaseAlone(cfg: Config, s: State, t: nat)
    requires Owned(cfg, s) && InRange(s, t) && s.threads[t].Holding?
    ensures var c := s.threads[t].c;
            Alone(cfg, s, t, if s.conns[c].up then Goto(s, t, Idle).(idle := s.idle + [c])
                             else Goto(s, t, Idle).(tokens := s.tokens + 1))
  {
    var c := s.threads[t].c;
    HandsUpdate(s.threads, t, Idle);
    var s1 := Do(cfg, s, Release(t));
    var step := if s.conns[c].up then SendIdle(t) else SendToken(t);
    var s' := Do(cfg, s1, step);
    Stay(cfg, s', t);
    StepThen(cfg, s1, t, step, s');
    StepThen(cfg, s, t, Release(t), s');
    assert s'.threads == Goto(s, t, Idle).threads;
  }

  // ---------------------------------------------------------------- Send

  /** The state once the write loop has ended with `r`, the thread having been at byte `done`. */
  function AfterWrites(s: State, t: nat, r: SendState): State
    requires InRange(s, t) && s.threads[t].Sending? && s.threads[t].done <= r.done <= |Frame(s.threads[t].msg)|
  {
    var Sending(c, msg, done, job) := s.threads[t];
    var k := s.conns[c];
    var k' := k.(out := k.out + Frame(msg)[done..r.done], up := r.verdict != Failed(true));
    Goto(SetConn(s, c, k'), t, AfterSend(c, msg, job, r.verdict.Sent?))
  }

  /** The write steps of a thread are the run of Send, for every series of events. */
  lemma {:induction false} SendAlone(cfg: Config, s: State, t: nat, env: WriteEnv, i: nat)
    requires InRange(s, t) && s.threads[t].Sending? && s.threads[t].done < |Frame(s.threads[t].msg)| && Progress(env)
    requires s.conns[s.threads[t].c].up
    ensures Alone(cfg, s, t, AfterWrites(s, t, SendRun(Frame(s.threads[t].msg), s.threads[t].done, env, i)))
    decreases |Frame(s.threads[t].msg)| - s.threads[t].done
  {
    var Sending(c, msg, done, job) := s.threads[t];
    var f := Frame(msg);
    var r := SendRun(f, done, env, i);
    var s1 := Do(cfg, s, WriteOnce(t, env(i)));
    var turn := WriteTurn(f, done, env(i), 0);
    if turn.verdict.Continue? {
      SendAlone(cfg, s1, t, env, i + 1);
      WritesJoin(s, t, turn.done, r);
    } else {
      assert s1 == AfterWrites(s, t, r);
      Stay(cfg, s1, t);
    }
    StepThen(cfg, s, t, WriteOnce(t, env(i)), AfterWrites(s, t, r));
  }

  lemma WritesJoin(s: State, t: nat, mid: nat, r: SendState)
    requires InRange(s, t) && s.threads[t].Sending? && s.conns[s.threads[t].c].up
    requires s.threads[t].done <= mid <= r.done <= |Frame(s.threads[t].msg)|
    ensures var Sending(c, msg, done, job) := s.threads[t];
            var k := s.conns[c];
            var s1 := Goto(SetConn(s, c, k.(out := k.out + Frame(msg)[done..mid])), t, Sending(c, msg, mid, job));
            AfterWrites(s1, t, r) == AfterWrites(s, t, r)
  {
    var Sending(c, msg, done, job) := s.threads[t];
    var k := s.conns[c];
    var s1 := Goto(SetConn(s, c, k.(out := k.out + Frame(msg)[done..mid])), t, Sending(c, msg, mid, job));
    assert (k.out + Frame(msg)[done..mid]) + Frame(msg)[mid..r.done] == k.out + Frame(msg)[done..r.done];
    assert AfterWrites(s1, t, r).threads == AfterWrites(s, t, r).threads;
    assert AfterWrites(s1, t, r).conns == AfterWrites(s, t, r).conns;
  }

  // ---------------------------------------------------------------- the heartbeat

  lemma AloneThen(cfg: Config, s: State, t: nat, mid: State, s': State)
    requires Alone(cfg, s, t, mid) && Alone(cfg, mid, t, s')
    ensures Alone(cfg, s, t, s')
  {
    var a :| OnlyBy(a, t) && Leads(cfg, s, a, mid);
    AloneAfter(cfg, s, t, a, mid, s');
  }

  lemma {:induction false} AloneAfter(cfg: Config, s: State, t: nat, a: seq<Step>, mid: State, s': State)
    requires OnlyBy(a, t) && Leads(cfg, s, a, mid) && Alone(cfg, mid, t, s')
    ensures Alone(cfg, s, t, s')
    decreases |a|
  {
    if a != [] {
      AloneAfter(cfg, Do(cfg, s, a[0]), t, a[1..], mid, s');
      StepThen(cfg, s, t, a[0], s');
    }
  }

  /** What one heartbeat makes of a connection: it is up afterwards if and only if the message has gone out. */
  ghost function Beat(cfg: Config, k: Conn, env: WriteEnv): Conn
    requires Progress(env)
  {
    k.(out := k.out + Frame(cfg.beat)[..SendRun(Frame(cfg.beat), 0, env, 0).done],
       up := TaskSockets.Beats(cfg.beat, env))
  }

  /** One turn of the heartbeat loop: the oldest idle connection is tested and goes to the end of the queue, or is
      closed and its token comes back. */
  ghost function Tested(cfg: Config, s: State, t: nat, env: WriteEnv): State
    requires t < |s.threads| && s.threads[t].BeatLoop? && s.threads[t].left > 0 && Progress(env)
    requires s.idle != [] && s.idle[0] < |s.conns|
  {
    var c := s.idle[0];
    var ok := TaskSockets.Beats(cfg.beat, env);
    State(s.threads[t := BeatLoop(s.threads[t].left - 1)],
          s.tokens + (if ok then 0 else 1),
          s.idle[1..] + (if ok then [c] else []),
          s.conns[c := Beat(cfg, s.conns[c], env)],
          s.closed)
  }

  /** The oldest idle connection taken and about to get the message. */
  function Taken(cfg: Config, s: State, t: nat): State
    requires t < |s.threads| && s.threads[t].BeatLoop? && s.threads[t].left > 0 && s.idle != []
  {
    Goto(s, t, Sending(s.idle[0], cfg.beat, 0, Heartbeat(s.threads[t].left - 1))).(idle := s.idle[1..])
  }

  lemma TakeAlone(cfg: Config, s: State, t: nat, s': State)
    requires InRange(s, t) && s.threads[t].BeatLoop? && s.threads[t].left > 0
    requires s.idle != [] && s.idle[0] < |s.conns| && s.conns[s.idle[0]].up
    requires Alone(cfg, Taken(cfg, s, t), t, s')
    ensures Alone(cfg, s, t, s')
  {
    var s1 := Do(cfg, s, BeatTurn(t, false));
    assert Do(cfg, s1, BeatTest(t)) == Taken(cfg, s, t);
    StepThen(cfg, s1, t, BeatTest(t), s');
    StepThen(cfg, s, t, BeatTurn(t, false), s');
  }

  lemma KeepAlone(cfg: Config, s: State, t: nat, c: nat, left: nat)
    requires t < |s.threads| && s.threads[t] == PutIdle(c, ToBeat(left)) && c < |s.conns| && |s.idle| < cfg.cap
    ensures Alone(cfg, s, t, Goto(s, t, BeatLoop(left)).(idle := s.idle + [c]))
  {
    var s' := Do(cfg, s, SendIdle(t));
    Stay(cfg, s', t);
    StepThen(cfg, s, t, SendIdle(t), s');
  }

  /** The connection closed and its token back. */
  function Dropped(s: State, t: nat, c: nat): State
    requires t < |s.threads| && s.threads[t].Shutting? && c < |s.conns|
  {
    SetConn(Goto(s, t, Back(s.threads[t].next)).(tokens := s.tokens + 1), c, s.conns[c].(up := false))
  }

  lemma DropAlone(cfg: Config, s: State, t: nat, c: nat, next: Resume)
    requires t < |s.threads| && s.threads[t] == Shutting(c, next) && c < |s.conns| && s.tokens < cfg.cap
    ensures Alone(cfg, s, t, Dropped(s, t, c))
  {
    var s1 := Do(cfg, s, Shut(t));
    var s' := Do(cfg, s1, SendToken(t));
    assert s'.threads == s.threads[t := Back(next)];
    Stay(cfg, s', t);
    StepThen(cfg, s1, t, SendToken(t), s');
    StepThen(cfg, s, t, Shut(t), s');
  }

  lemma TestedIs(cfg: Config, s: State, t: nat, env: WriteEnv)
    requires InRange(s, t) && s.threads[t].BeatLoop? && s.threads[t].left > 0 && Progress(env)
    requires s.idle != [] && s.idle[0] < |s.conns| && s.conns[s.idle[0]].up
    ensures var c, left, r := s.idle[0], s.threads[t].left - 1, SendRun(Frame(cfg.beat), 0, env, 0);
            var s3 := AfterWrites(Taken(cfg, s, t), t, r);
            && s3.threads[t] == (if r.verdict.Sent? then PutIdle(c, ToBeat(left)) else Shutting(c, ToBeat(left)))
            && |s3.conns| == |s.conns| && s3.idle == s.idle[1..] && s3.tokens == s.tokens
            && Tested(cfg, s, t, env) == if r.verdict.Sent? then Goto(s3, t, BeatLoop(left)).(idle := s3.idle + [c])
                                         else Dropped(s3, t, c)
  {
  }

  lemma TestAlone(cfg: Config, s: State, t: nat, env: WriteEnv)
    requires InRange(s, t) && s.threads[t].BeatLoop? && s.threads[t].left > 0 && Progress(env)
    requires s.idle != [] && s.idle[0] < |s.conns| && s.conns[s.idle[0]].up && s.tokens + |s.idle| <= cfg.cap
    ensures Alone(cfg, s, t, Tested(cfg, s, t, env))
  {
    var c, s' := s.idle[0], Tested(cfg, s, t, env);
    var s2 := Taken(cfg, s, t);
    var r := SendRun(Frame(cfg.beat), 0, env, 0);
    SendAlone(cfg, s2, t, env, 0);
    var s3 := AfterWrites(s2, t, r);
    TestedIs(cfg, s, t, env);
    if r.verdict.Sent? {
      KeepAlone(cfg, s3, t, c, s.threads[t].left - 1);
    } else {
      DropAlone(cfg, s3, t, c, ToBeat(s.threads[t].left - 1));
    }
    AloneThen(cfg, s2, t, s3, s');
    TakeAlone(cfg, s, t, s');
  }

  /** The idle connections are distinct and up, and there is room for them and the tokens. */
  ghost predicate Sound(cfg: Config, s: State) {
    && NoDup(s.idle) && s.tokens + |s.idle| <= cfg.cap
    && forall i :: 0 <= i < |s.idle| ==> s.idle[i] < |s.conns| && s.conns[s.idle[i]].up
  }

  /** Of the connections `before`, the first `n` of the queue have become what `f` makes of them, the others have
      stayed as they are. */
  ghost predicate Changed(q: seq<nat>, n: nat, before: seq<Conn>, after: seq<Conn>, f: (nat, Conn) -> Conn) {
    && n <= |q| && |after| == |before|
    && (forall i :: 0 <= i < n ==> q[i] < |after| && after[q[i]] == f(i, before[q[i]]))
    && (forall c :: 0 <= c < |after| && c !in q[..n] ==> after[c] == before[c])
  }

  lemma ChangedNext(q: seq<nat>, n: nat, before: seq<Conn>, after: seq<Conn>, f: (nat, Conn) -> Conn)
    requires Changed(q, n, before, after, f) && NoDup(q) && n < |q| && q[n] < |before|
    ensures after[q[n]] == before[q[n]]
    ensures Changed(q, n + 1, before, after[q[n] := f(n, before[q[n]])], f)
  {
    assert q[n] !in q[..n] && q[..n + 1] == q[..n] + [q[n]];
  }

  ghost function AfterBeat(cfg: Config, envs: nat -> WriteEnv): (nat, Conn) -> Conn
    requires TaskSockets.AllProgress(envs)
  {
    (i: nat, k: Conn) => Beat(cfg, k, envs(i))
  }

  /** The heartbeat that began in `s0` has tested the first `n` connections of the queue, once each; the survivors
      have gone to its end in their order. */
  ghost predicate Beating(cfg: Config, s0: State, s: State, envs: nat -> WriteEnv, n: nat)
    requires TaskSockets.AllProgress(envs)
  {
    && n <= |s0.idle| && s.closed == s0.closed
    && s.idle == s0.idle[n..] + TaskSockets.Survivors(s0.idle, TaskSockets.Beating(cfg.beat, envs), n)
    && s.tokens + |TaskSockets.Survivors(s0.idle, TaskSockets.Beating(cfg.beat, envs), n)| == s0.tokens + n
    && Changed(s0.idle, n, s0.conns, s.conns, AfterBeat(cfg, envs))
  }

  lemma BeatingNext(cfg: Config, s0: State, s: State, t: nat, envs: nat -> WriteEnv, n: nat)
    requires TaskSockets.AllProgress(envs) && Sound(cfg, s0) && n < |s0.idle| && Beating(cfg, s0, s, envs, n)
    requires t < |s.threads| && s.threads[t] == BeatLoop(|s0.idle| - n)
    ensures s.idle != [] && s.idle[0] == s0.idle[n] && s.conns[s0.idle[n]] == s0.conns[s0.idle[n]]
    ensures Beating(cfg, s0, Tested(cfg, s, t, envs(n)), envs, n + 1)
  {
    TaskSockets.NextSurvivor(s0.idle, TaskSockets.Beating(cfg.beat, envs), n);
    ChangedNext(s0.idle, n, s0.conns, s.conns, AfterBeat(cfg, envs));
  }

  lemma BeatOne(cfg: Config, s0: State, s: State, t: nat, envs: nat -> WriteEnv, n: nat) returns (s': State)
    requires TaskSockets.AllProgress(envs) && Sound(cfg, s0) && n < |s0.idle|
    requires Beating(cfg, s0, s, envs, n) && t < |s0.threads|
    requires s.threads == s0.threads[t := BeatLoop(|s0.idle| - n)]
    ensures Alone(cfg, s, t, s') && Beating(cfg, s0, s', envs, n + 1)
    ensures s'.threads == s0.threads[t := BeatLoop(|s0.idle| - (n + 1))]
  {
    BeatingNext(cfg, s0, s, t, envs, n);
    s' := Tested(cfg, s, t, envs(n));
    assert s'.threads == s0.threads[t := BeatLoop(|s0.idle| - (n + 1))];
    TestAlone(cfg, s, t, envs(n));
  }

  lemma BeatEnd(cfg: Config, s0: State, s: State, t: nat, envs: nat -> WriteEnv) returns (s': State)
    requires TaskSockets.AllProgress(envs) && Beating(cfg, s0, s, envs, |s0.idle|)
    requires t < |s0.threads| && s0.threads[t].Idle? && s.threads == s0.threads[t := BeatLoop(0)]
    ensures Alone(cfg, s, t, s') && Beating(cfg, s0, s', envs, |s0.idle|) && s'.threads == s0.threads
  {
    s' := Do(cfg, s, BeatTurn(t, false));
    assert s'.threads == s0.threads;
    Stay(cfg, s', t);
    StepThen(cfg, s, t, BeatTurn(t, false), s');
  }

  lemma {:induction false} BeatFrom(cfg: Config, s0: State, s: State, t: nat, envs: nat -> WriteEnv, n: nat)
    returns (s': State)
    requires TaskSockets.AllProgress(envs) && Sound(cfg, s0) && n <= |s0.idle| && Beating(cfg, s0, s, envs, n)
    requires t < |s0.threads| && s0.threads[t].Idle? && s.threads == s0.threads[t := BeatLoop(|s0.idle| - n)]
    ensures Alone(cfg, s, t, s') && Beating(cfg, s0, s', envs, |s0.idle|) && s'.threads == s0.threads
    decreases |s0.idle| - n
  {
    if n == |s0.idle| {
      s' := BeatEnd(cfg, s0, s, t, envs);
    } else {
      var s1 := BeatOne(cfg, s0, s, t, envs, n);
      s' := BeatFrom(cfg, s0, s1, t, envs, n + 1);
      AloneThen(cfg, s, t, s1, s');
    }
  }

  /** The heartbeat on its own, on an open pool: every idle connection is tested once, exactly those whose message
      has gone out stay, in their order, and the others are closed and their tokens are back. */
  lemma BeatAlone(cfg: Config, s: State, t: nat, envs: nat -> WriteEnv) returns (s': State)
    requires Owned(cfg, s) && t < |s.threads| && s.threads[t].Idle? && !s.closed && TaskSockets.AllProgress(envs)
    ensures Alone(cfg, s, t, s') && s'.threads == s.threads && !s'.closed
    ensures s'.idle == TaskSockets.Survivors(s.idle, TaskSockets.Beating(cfg.beat, envs), |s.idle|)
    ensures s'.tokens + |s'.idle| == s.tokens + |s.idle|
    ensures Changed(s.idle, |s.idle|, s.conns, s'.conns, AfterBeat(cfg, envs))
  {
    var s1 := Do(cfg, s, BeatStart(t));
    assert s.idle[0..] == s.idle && Beating(cfg, s, s1, envs, 0);
    s' := BeatFrom(cfg, s, s1, t, envs, 0);
    StepThen(cfg, s, t, BeatStart(t), s');
  }

  // ---------------------------------------------------------------- Close

  function Down(i: nat, k: Conn): Conn {
    k.(up := false)
  }

  /** The Close that began in `s0` has closed the first `n` connections of the queue. */
  ghost predicate Sweeping(s0: State, s: State, n: nat) {
    && n <= |s0.idle| && s.closed && s.idle == s0.idle[n..] && s.tokens == s0.tokens + n
    && Changed(s0.idle, n, s0.conns, s.conns, Down)
  }

  lemma SweepOne(cfg: Config, s0: State, s: State, t: nat, turn: nat) returns (s': State)
    requires Sound(cfg, s0) && turn < |s0.idle|
    requires Sweeping(s0, s, turn) && t < |s0.threads| && s.threads == s0.threads[t := SweepLoop(turn)]
    ensures Alone(cfg, s, t, s') && Sweeping(s0, s', turn + 1) && s'.threads == s0.threads[t := SweepLoop(turn + 1)]
  {
    var c := s0.idle[turn];
    ChangedNext(s0.idle, turn, s0.conns, s.conns, Down);
    var s1 := Do(cfg, s, SweepTurn(t));
    s' := Dropped(s1, t, c);
    DropAlone(cfg, s1, t, c, ToSweep(turn + 1));
    StepThen(cfg, s, t, SweepTurn(t), s');
    assert s'.threads == s0.threads[t := SweepLoop(turn + 1)];
  }

  lemma {:induction false} SweepFrom(cfg: Config, s0: State, s: State, t: nat, turn: nat) returns (s': State)
    requires Sound(cfg, s0) && turn <= cfg.cap
    requires Sweeping(s0, s, Min(turn, |s0.idle|)) && t < |s0.threads| && s0.threads[t].Idle?
    requires s.threads == s0.threads[t := SweepLoop(turn)]
    ensures Alone(cfg, s, t, s') && Sweeping(s0, s', |s0.idle|) && s'.threads == s0.threads
    decreases cfg.cap - turn
  {
    if turn < |s0.idle| {
      var s1 := SweepOne(cfg, s0, s, t, turn);
      s' := SweepFrom(cfg, s0, s1, t, turn + 1);
      AloneThen(cfg, s, t, s1, s');
    } else {
      var s1 := Do(cfg, s, SweepTurn(t));
      if turn < cfg.cap {
        assert s1.threads == s0.threads[t := SweepLoop(turn + 1)];
        s' := SweepFrom(cfg, s0, s1, t, turn + 1);
      } else {
        s' := s1;
        assert s'.threads == s0.threads;
        Stay(cfg, s', t);
      }
      StepThen(cfg, s, t, SweepTurn(t), s');
    }
  }

  /** Close on its own: the queue is emptied, every idle connection is closed and their tokens are back; on a
      closed pool nothing happens. */
  lemma CloseAlone(cfg: Config, s: State, t: nat) returns (s': State)
    requires Owned(cfg, s) && t < |s.threads| && s.threads[t].Idle?
    ensures Alone(cfg, s, t, s') && s'.closed && s'.threads == s.threads
    ensures s.closed ==> s' == s
    ensures !s.closed ==> s'.idle == [] && s'.tokens == s.tokens + |s.idle|
    ensures !s.closed ==> Changed(s.idle, |s.idle|, s.conns, s'.conns, Down)
  {
    var s1 := Do(cfg, s, CloseTest(t));
    if s.closed {
      s' := s;
      assert s1.threads == s.threads;
      Stay(cfg, s', t);
    } else {
      var s2 := Do(cfg, s1, CloseMark(t));
      assert s2.threads == s.threads[t := SweepLoop(0)];
      assert s.idle[0..] == s.idle && Sweeping(s, s2, 0);
      s' := SweepFrom(cfg, s, s2, t, 0);
      StepThen(cfg, s1, t, CloseMark(t), s');
    }
    StepThen(cfg, s, t, CloseTest(t), s');
  }
}
