/**
 Who wakes a caller that waits for an idle connection.
 */
module TaskPoolWakeup {
  import opened TaskPool
  import opened TaskPoolOwnership

  /** No dial fails, no write or read reports an error, and the pool is not closed. */
  predicate FaultFree(step: Step) {
    match step
    case DialResult(_, ok) => ok
    case WriteOnce(_, ev) => ev.Wrote?
    case ReadOnce(_, ev) => ev.Arrived?
    case CloseTest(_) => false
    case _ => true
  }

  predicate AllFaultFree(steps: seq<Step>) {
    forall i :: 0 <= i < |steps| ==> FaultFree(steps[i])
  }

  /** A thread on the path of a failure or of Close. */
  predicate Troubled(p: PC) {
    || p.PutToken? || p.Shutting? || p.CloseSeen? || p.SweepLoop? || p.Crashed?
    || (p.PutIdle? && p.next.ToSweep?)
  }

  ghost predicate Healthy(cfg: Config, s: State) {
    && !s.closed
    && (forall c :: 0 <= c < |s.conns| ==> s.conns[c].up)
    && (forall i :: 0 <= i < |s.threads| ==> !Troubled(s.threads[i]))
    && (forall i :: 0 <= i < |s.threads| && s.threads[i].Waiting? ==> s.tokens < cfg.cap)
  }

  /** What `Healthy` needs of a step of thread `t`. */
  ghost predicate StaysHealthy(cfg: Config, s: State, s': State, t: nat) {
    && !s'.closed && s'.tokens <= s.tokens
    && (forall c :: 0 <= c < |s'.conns| ==> s'.conns[c].up)
    && t < |s'.threads| && !Troubled(s'.threads[t])
    && (s'.threads[t].Waiting? ==> s'.tokens < cfg.cap)
  }

  lemma StillHealthy(cfg: Config, s: State, s': State, t: nat)
    requires Healthy(cfg, s) && StaysHealthy(cfg, s, s', t)
    requires t < |s.threads| && s'.threads == s.threads[t := s'.threads[t]]
    ensures Healthy(cfg, s')
  {
  }

  lemma HealthyTransfer(cfg: Config, s: State, step: Step)
    requires AllUpright(s) && Healthy(cfg, s) && Enabled(cfg, s, step) && FaultFree(step) && TransferStep(step)
    ensures StaysHealthy(cfg, s, Do(cfg, s, step), step.t)
  {
    assert !Troubled(s.threads[step.t]) && Upright(s.threads[step.t], s.conns);
  }

  lemma HealthyMove(cfg: Config, s: State, step: Step)
    requires cfg.cap >= 1 && Owned(cfg, s) && Healthy(cfg, s) && Enabled(cfg, s, step) && FaultFree(step)
    requires !step.Spawn? && !step.Reply? && !TransferStep(step)
    ensures StaysHealthy(cfg, s, Do(cfg, s, step), step.t)
  {
    assert !Troubled(s.threads[step.t]) && Upright(s.threads[step.t], s.conns);
  }

  lemma HealthyStep(cfg: Config, s: State, step: Step)
    requires cfg.cap >= 1 && Owned(cfg, s) && Healthy(cfg, s) && Enabled(cfg, s, step) && FaultFree(step)
    ensures Healthy(cfg, Do(cfg, s, step))
  {
    if !step.Spawn? && !step.Reply? {
      if TransferStep(step) {
        HealthyTransfer(cfg, s, step);
      } else {
        HealthyMove(cfg, s, step);
      }
      EveryMove(cfg, s, step);
      StillHealthy(cfg, s, Do(cfg, s, step), step.t);
    }
  }

  lemma {:induction false} HealthyRun(cfg: Config, s: State, steps: seq<Step>)
    requires cfg.cap >= 1 && Owned(cfg, s) && Healthy(cfg, s) && Legal(cfg, s, steps) && AllFaultFree(steps)
    ensures Healthy(cfg, Run(cfg, s, steps)) && Owned(cfg, Run(cfg, s, steps))
    decreases |steps|
  {
    if steps != [] {
      assert FaultFree(steps[0]);
      HealthyStep(cfg, s, steps[0]);
      OwnedStep(cfg, s, steps[0]);
      HealthyRun(cfg, Do(cfg, s, steps[0]), steps[1..]);
    }
  }

  /** In a fault-free run of a pool of size at least one, whenever a caller waits on the queue, the queue
      is not empty or another thread has a connection in hand or is dialling one. A thread that only has a token
      to put back would not do: that wakes nobody. */
  lemma NoLostWakeup(cfg: Config, steps: seq<Step>, t: nat)
    requires cfg.cap >= 1 && Legal(cfg, NewPool(cfg), steps) && AllFaultFree(steps)
    ensures var s := Run(cfg, NewPool(cfg), steps);
            t < |s.threads| && s.threads[t].Waiting? ==>
              || |s.idle| > 0
              || exists i :: 0 <= i < |s.threads| && i != t && (s.threads[i].Dialing? || Sock(s.threads[i]) >= 0)
  {
    NewPoolOwned(cfg);
    HealthyRun(cfg, NewPool(cfg), steps);
    var s := Run(cfg, NewPool(cfg), steps);
    if t < |s.threads| && s.threads[t].Waiting? && |s.idle| == 0 {
      assert s.tokens < cfg.cap;
      SomeHand(s.threads);
    }
  }

  /** No thread has a connection or a token in hand. */
  ghost predicate EmptyHanded(s: State) {
    forall i :: 0 <= i < |s.threads| ==> Hand(s.threads[i]) == 0
  }

  /** Once all borrowers of such a run have returned, a waiting caller can go on. */
  lemma WaiterIsServed(cfg: Config, steps: seq<Step>, t: nat)
    requires cfg.cap >= 1 && Legal(cfg, NewPool(cfg), steps) && AllFaultFree(steps)
    ensures var s := Run(cfg, NewPool(cfg), steps);
            t < |s.threads| && s.threads[t].Waiting? && EmptyHanded(s) ==> Enabled(cfg, s, TakeIdle(t))
  {
    NoLostWakeup(cfg, steps, t);
  }

  // ---------------------------------------------------------------- why a caller waits

  /** The state after the first `i` steps of a run. */
  function StateAt(cfg: Config, s: State, steps: seq<Step>, i: nat): State
    requires Legal(cfg, s, steps) && i <= |steps|
    decreases i
  {
    if i == 0 then s else StateAt(cfg, Do(cfg, s, steps[0]), steps[1..], i - 1)
  }

  predicate Waits(s: State, t: nat) {
    t < |s.threads| && s.threads[t].Waiting?
  }

  /** The `len` test sees a connection, or the select finds no token. */
  predicate MustWait(s: State, step: Step, t: nat) {
    (step == GetTest(t) && s.idle != []) || (step == GetSelect(t) && s.tokens == 0)
  }

  /** A caller starts to wait with these steps and no others: while a token is left, one that found the queue empty
      takes it and dials. */
  lemma WaitStarts(cfg: Config, s: State, step: Step, t: nat)
    requires Enabled(cfg, s, step)
    ensures !Waits(s, t) && Waits(Do(cfg, s, step), t) <==> MustWait(s, step, t)
    ensures step == GetSelect(t) && s.tokens > 0 ==> Do(cfg, s, step).threads[t].Dialing?
  {
  }

  /** Either the caller has waited all along, or it started to with step `i`, for one of the two reasons, and has
      waited since. */
  lemma {:induction false} WaitHistory(cfg: Config, s: State, steps: seq<Step>, t: nat) returns (i: int)
    requires Legal(cfg, s, steps) && Waits(Run(cfg, s, steps), t)
    ensures -1 <= i < |steps|
    ensures i == -1 ==> Waits(s, t)
    ensures i >= 0 ==> MustWait(StateAt(cfg, s, steps, i), steps[i], t)
    ensures forall j :: i < j <= |steps| ==> Waits(StateAt(cfg, s, steps, j), t)
    decreases |steps|
  {
    if steps == [] {
      i := -1;
    } else {
      var s1, rest := Do(cfg, s, steps[0]), steps[1..];
      var i' := WaitHistory(cfg, s1, rest, t);
      forall j | i' + 1 < j <= |steps| ensures Waits(StateAt(cfg, s, steps, j), t) {
        assert StateAt(cfg, s, steps, j) == StateAt(cfg, s1, rest, j - 1);
      }
      if i' >= 0 {
        i := i' + 1;
        assert StateAt(cfg, s, steps, i) == StateAt(cfg, s1, rest, i');
      } else {
        WaitStarts(cfg, s, steps[0], t);
        i := if Waits(s, t) then -1 else 0;
      }
    }
  }

  /** In every run from a new pool, a caller that waits began to with a step at which the queue was not empty, or
      no token was left, and has waited ever since. */
  lemma WaitsForAReason(cfg: Config, steps: seq<Step>, t: nat) returns (i: nat)
    requires Legal(cfg, NewPool(cfg), steps) && Waits(Run(cfg, NewPool(cfg), steps), t)
    ensures i < |steps|
    ensures MustWait(StateAt(cfg, NewPool(cfg), steps, i), steps[i], t)
    ensures forall j :: i < j <= |steps| ==> Waits(StateAt(cfg, NewPool(cfg), steps, j), t)
  {
    i := WaitHistory(cfg, NewPool(cfg), steps, t);
  }

  /** Thread `t` has no step to take. */
  ghost predicate Stuck(cfg: Config, s: State, t: nat) {
    forall step: Step :: !step.Spawn? && !step.Reply? && step.t == t ==> !Enabled(cfg, s, step)
  }

  lemma WaiterStuck(cfg: Config, s: State, t: nat)
    requires InRange(s, t) && s.threads[t].Waiting?
    ensures Stuck(cfg, s, t) <==> !cfg.timed && s.idle == []
  {
    assert !cfg.timed && s.idle == [] ==> Stuck(cfg, s, t);
    assert Enabled(cfg, s, WaitExpires(t)) <==> cfg.timed;
    assert Enabled(cfg, s, TakeIdle(t)) <==> s.idle != [];
  }

  /** With failures allowed, a waiting caller can be left alone, and exactly when: once nobody else has
      anything in hand, it can take a connection if and only if some connection ever dialled is still up, and
      it has no step to take at all if and only if, besides, the wait has no timeout. A token that came back
      to `size` wakes nobody. */
  lemma StrandedExactly(cfg: Config, steps: seq<Step>, t: nat)
    requires Legal(cfg, NewPool(cfg), steps)
    ensures var s := Run(cfg, NewPool(cfg), steps);
            t < |s.threads| && s.threads[t].Waiting? && EmptyHanded(s) ==>
              && (Enabled(cfg, s, TakeIdle(t)) <==> exists c :: 0 <= c < |s.conns| && s.conns[c].up)
              && (Enabled(cfg, s, TakeIdle(t)) <==> s.tokens < cfg.cap)
              && (Stuck(cfg, s, t) <==> !cfg.timed && forall c :: 0 <= c < |s.conns| ==> !s.conns[c].up)
  {
    NewPoolOwned(cfg);
    OwnedRun(cfg, NewPool(cfg), steps);
    var s := Run(cfg, NewPool(cfg), steps);
    if t < |s.threads| && s.threads[t].Waiting? && EmptyHanded(s) {
      NoHands(s.threads);
      WaiterStuck(cfg, s, t);
      IdleIsUp(s);
    }
  }

  lemma IdleIsUp(s: State)
    requires Located(s.threads, s.idle, s.conns) && EmptyHanded(s)
    ensures s.idle != [] <==> exists c :: 0 <= c < |s.conns| && s.conns[c].up
  {
    if s.idle != [] {
      assert s.conns[s.idle[0]].up;
    }
    if c :| 0 <= c < |s.conns| && s.conns[c].up && c !in s.idle {
      var i: nat :| HeldBy(s.threads, i, c);
      assert Hand(s.threads[i]) == 1;
    }
  }

  /** With a timeout no waiter is ever stuck, in any state of any run. */
  lemma TimeoutFrees(cfg: Config, steps: seq<Step>, t: nat)
    requires Legal(cfg, NewPool(cfg), steps) && cfg.timed
    ensures var s := Run(cfg, NewPool(cfg), steps);
            t < |s.threads| && s.threads[t].Waiting? ==> !Stuck(cfg, s, t) && Enabled(cfg, s, WaitExpires(t))
  {
    var s := Run(cfg, NewPool(cfg), steps);
    if t < |s.threads| && s.threads[t].Waiting? {
      WaiterStuck(cfg, s, t);
    }
  }
}
