/**
 The two counted loops of the pool under any interference: how many turns the heartbeat and Close take.
 */
module TaskPoolLoops {
  import opened TaskPool
  import opened Transfer
  import opened TaskPoolOwnership
  import opened TaskPoolSolo

  /** The turns a heartbeat has still to take, or -1 for a thread that is not in one. */
  function BeatsLeft(p: PC): int {
    match p
    case BeatLoop(left) => left
    case BeatHolds(_, left) => left
    case Sending(_, _, _, job) => if job.Heartbeat? then job.left else -1
    case PutIdle(_, next) => if next.ToBeat? then next.left else -1
    case PutToken(next) => if next.ToBeat? then next.left else -1
    case Shutting(_, next) => if next.ToBeat? then next.left else -1
    case _ => -1
  }

  /** The turns the loop of Close has taken, or -1 for a thread that is not in it. */
  function Swept(p: PC): int {
    match p
    case SweepLoop(turn) => turn
    case PutToken(next) => if next.ToSweep? then next.turn else -1
    case Shutting(_, next) => if next.ToSweep? then next.turn else -1
    case _ => -1
  }

  function BeatTurns(steps: seq<Step>, t: nat): nat {
    if steps == [] then 0 else (if steps[0].BeatTurn? && steps[0].t == t then 1 else 0) + BeatTurns(steps[1..], t)
  }

  function SweepTurns(steps: seq<Step>, t: nat): nat {
    if steps == [] then 0 else (if steps[0] == SweepTurn(t) then 1 else 0) + SweepTurns(steps[1..], t)
  }

  lemma OthersStay(cfg: Config, s: State, step: Step, t: nat)
    requires Enabled(cfg, s, step) && t < |s.threads| && (step.Spawn? || step.Reply? || step.t != t)
    ensures t < |Do(cfg, s, step).threads| && Do(cfg, s, step).threads[t] == s.threads[t]
  {
  }

  lemma BeatStep(cfg: Config, s: State, step: Step, t: nat)
    requires Enabled(cfg, s, step) && t < |s.threads| && BeatsLeft(s.threads[t]) >= 0
    ensures var s' := Do(cfg, s, step);
            && t < |s'.threads|
            && (if step.BeatTurn? && step.t == t
                then if BeatsLeft(s.threads[t]) == 0 || step.quit then s'.threads[t].Idle?
                     else BeatsLeft(s'.threads[t]) == BeatsLeft(s.threads[t]) - 1
                else BeatsLeft(s'.threads[t]) == BeatsLeft(s.threads[t]))
  {
    if step.Spawn? || step.Reply? || step.t != t {
      OthersStay(cfg, s, step, t);
    }
  }

  lemma SweepStep(cfg: Config, s: State, step: Step, t: nat)
    requires Enabled(cfg, s, step) && t < |s.threads| && Swept(s.threads[t]) >= 0
    ensures var s' := Do(cfg, s, step);
            && t < |s'.threads|
            && (if step == SweepTurn(t)
                then if Swept(s.threads[t]) >= cfg.cap then s'.threads[t].Idle?
                     else Swept(s'.threads[t]) == Swept(s.threads[t]) + 1
                else Swept(s'.threads[t]) == Swept(s.threads[t]))
  {
    if step.Spawn? || step.Reply? || step.t != t {
      OthersStay(cfg, s, step, t);
    }
  }

  lemma {:induction false} BeatCountdown(cfg: Config, s: State, steps: seq<Step>, t: nat)
    requires Legal(cfg, s, steps) && t < |s.threads| && BeatsLeft(s.threads[t]) >= BeatTurns(steps, t)
    requires BeatTurn(t, true) !in steps
    ensures var s' := Run(cfg, s, steps);
            t < |s'.threads| && BeatsLeft(s'.threads[t]) == BeatsLeft(s.threads[t]) - BeatTurns(steps, t)
    decreases |steps|
  {
    if steps != [] {
      BeatStep(cfg, s, steps[0], t);
      BeatCountdown(cfg, Do(cfg, s, steps[0]), steps[1..], t);
    }
  }

  lemma {:induction false} SweepCount(cfg: Config, s: State, steps: seq<Step>, t: nat)
    requires Legal(cfg, s, steps) && t < |s.threads| && Swept(s.threads[t]) >= 0
    requires Swept(s.threads[t]) + SweepTurns(steps, t) <= cfg.cap
    ensures var s' := Run(cfg, s, steps);
            t < |s'.threads| && Swept(s'.threads[t]) == Swept(s.threads[t]) + SweepTurns(steps, t)
    decreases |steps|
  {
    if steps != [] {
      SweepStep(cfg, s, steps[0], t);
      SweepCount(cfg, Do(cfg, s, steps[0]), steps[1..], t);
    }
  }

  /** Whatever the other threads do meanwhile, a heartbeat that does not see the pool closed takes one turn for
      each connection that was idle when it began, and ends with the next one. */
  lemma HeartbeatTurns(cfg: Config, s: State, t: nat, steps: seq<Step>)
    requires Enabled(cfg, s, BeatStart(t)) && Legal(cfg, Do(cfg, s, BeatStart(t)), steps)
    requires BeatTurn(t, true) !in steps && BeatTurns(steps, t) <= |s.idle|
    ensures var s' := Run(cfg, Do(cfg, s, BeatStart(t)), steps);
            && t < |s'.threads| && BeatsLeft(s'.threads[t]) == |s.idle| - BeatTurns(steps, t)
            && (BeatTurns(steps, t) == |s.idle| && Enabled(cfg, s', BeatTurn(t, false)) ==>
                  Do(cfg, s', BeatTurn(t, false)).threads[t].Idle?)
  {
    BeatCountdown(cfg, Do(cfg, s, BeatStart(t)), steps, t);
  }

  lemma Room(cfg: Config, s: State, t: nat)
    requires Owned(cfg, s) && t < |s.threads| && Hand(s.threads[t]) == 1
    ensures s.tokens < cfg.cap && |s.idle| < cfg.cap
  {
    HandsUpdate(s.threads, t, Idle);
  }

  /** How far a heartbeat is from the head of its loop. */
  function Steps(p: PC): nat {
    match p
    case BeatHolds(_, _) => 4
    case Sending(_, _, _, _) => 3
    case Shutting(_, _) => 2
    case PutIdle(_, _) => 1
    case PutToken(_) => 1
    case _ => 0
  }

  /** The next step of a heartbeat that wants to end: its deadline fails, if it is writing. */
  function NextStep(p: PC, t: nat): Step {
    match p
    case BeatHolds(_, _) => BeatTest(t)
    case Sending(_, _, _, _) => WriteOnce(t, DeadlineError)
    case Shutting(_, _) => Shut(t)
    case PutIdle(_, _) => SendIdle(t)
    case PutToken(_) => SendToken(t)
    case _ => BeatTurn(t, true)
  }

  lemma NextStepEnabled(cfg: Config, s: State, t: nat)
    requires Owned(cfg, s) && s.closed && t < |s.threads| && BeatsLeft(s.threads[t]) >= 0
    ensures var step := NextStep(s.threads[t], t);
            && Enabled(cfg, s, step) && Do(cfg, s, step).closed && t < |Do(cfg, s, step).threads|
            && var p := Do(cfg, s, step).threads[t];
               p.Idle? || (BeatsLeft(p) >= 0 && Steps(p) < Steps(s.threads[t]))
  {
    if Sock(s.threads[t]) >= 0 {
      assert HeldBy(s.threads, t, Sock(s.threads[t]));
    }
    if s.threads[t].Sending? {
      assert Upright(s.threads[t], s.conns);
    }
    if Hand(s.threads[t]) == 1 {
      Room(cfg, s, t);
    }
  }

  /** Once the pool is closed every heartbeat can end by its own steps, wherever it is. */
  lemma {:induction false} HeartbeatCanEnd(cfg: Config, s: State, t: nat) returns (s': State)
    requires Owned(cfg, s) && s.closed && t < |s.threads| && BeatsLeft(s.threads[t]) >= 0
    ensures Alone(cfg, s, t, s') && t < |s'.threads| && s'.threads[t].Idle?
    decreases Steps(s.threads[t])
  {
    NextStepEnabled(cfg, s, t);
    var step := NextStep(s.threads[t], t);
    var s1 := Do(cfg, s, step);
    OwnedStep(cfg, s, step);
    if s1.threads[t].Idle? {
      s' := s1;
      Stay(cfg, s', t);
    } else {
      s' := HeartbeatCanEnd(cfg, s1, t);
    }
    StepThen(cfg, s, t, step, s');
  }

  /** Whatever the other threads do meanwhile, the loop of Close takes one turn for each unit of capacity, and ends
      with the next one. */
  lemma CloseTurns(cfg: Config, s: State, t: nat, steps: seq<Step>)
    requires Enabled(cfg, s, CloseMark(t)) && !s.closed && Legal(cfg, Do(cfg, s, CloseMark(t)), steps)
    requires SweepTurns(steps, t) <= cfg.cap
    ensures var s' := Run(cfg, Do(cfg, s, CloseMark(t)), steps);
            && t < |s'.threads| && Swept(s'.threads[t]) == SweepTurns(steps, t)
            && (SweepTurns(steps, t) == cfg.cap && Enabled(cfg, s', SweepTurn(t)) ==>
                  Do(cfg, s', SweepTurn(t)).threads[t].Idle?)
  {
    SweepCount(cfg, Do(cfg, s, CloseMark(t)), steps, t);
  }
}
