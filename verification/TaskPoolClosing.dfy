/**
 Closing a pool: a second Close is harmless once the first has marked the pool, and panics when both have
 tested the mark before either has set it.
 */
module TaskPoolClosing {
  import opened TaskPool
  import opened TaskPoolScenarios

  /** How many goroutines have closed closedCh a second time. */
  function Crashes(threads: seq<PC>): nat {
    if threads == [] then 0 else Crashes(threads[..|threads| - 1]) + Crash(threads[|threads| - 1])
  }

  function Crash(p: PC): nat {
    if p.Crashed? then 1 else 0
  }

  lemma {:induction false} CrashesUpdate(ts: seq<PC>, t: nat, p: PC)
    requires t < |ts|
    ensures Crashes(ts[t := p]) == Crashes(ts) - Crash(ts[t]) + Crash(p)
    ensures Crashes(ts) >= Crash(ts[t])
    decreases |ts|
  {
    var front, last := ts[..|ts| - 1], |ts| - 1;
    if t == last {
      assert ts[t := p][..last] == front;
    } else {
      CrashesUpdate(front, t, p);
      assert ts[t := p][..last] == front[t := p];
    }
  }

  lemma {:induction false} SomeCrash(ts: seq<PC>)
    ensures Crashes(ts) > 0 <==> exists i :: 0 <= i < |ts| && ts[i].Crashed?
    decreases |ts|
  {
    if ts != [] {
      var front, last := ts[..|ts| - 1], |ts| - 1;
      SomeCrash(front);
      assert forall i :: 0 <= i < last ==> front[i] == ts[i];
    }
  }

  /** How often the pool has been marked as closed. */
  function Marks(steps: seq<Step>): nat {
    if steps == [] then 0 else (if steps[0].CloseMark? then 1 else 0) + Marks(steps[1..])
  }

  /** Every other step leaves the mark and the crashes alone. */
  lemma OtherStep(cfg: Config, s: State, step: Step)
    requires Enabled(cfg, s, step) && !step.CloseMark?
    ensures Do(cfg, s, step).closed == s.closed
    ensures Crashes(Do(cfg, s, step).threads) == Crashes(s.threads)
  {
    if step.Spawn? {
      assert (s.threads + [Idle])[..|s.threads|] == s.threads;
    } else if !step.Reply? {
      OneThread(cfg, s, step);
      CrashesUpdate(s.threads, step.t, Do(cfg, s, step).threads[step.t]);
    }
  }

  lemma OneThread(cfg: Config, s: State, step: Step)
    requires Enabled(cfg, s, step) && !step.CloseMark? && !step.Spawn? && !step.Reply?
    ensures var s' := Do(cfg, s, step);
            && step.t < |s.threads| && |s'.threads| == |s.threads|
            && s'.threads == s.threads[step.t := s'.threads[step.t]]
            && !s.threads[step.t].Crashed? && !s'.threads[step.t].Crashed? && s'.closed == s.closed
  {
  }

  lemma {:induction false} MarksRun(cfg: Config, s: State, steps: seq<Step>)
    requires Legal(cfg, s, steps)
    ensures var s' := Run(cfg, s, steps);
            && (s'.closed <==> s.closed || Marks(steps) > 0)
            && Crashes(s'.threads)
               == Crashes(s.threads) + if s.closed || Marks(steps) == 0 then Marks(steps) else Marks(steps) - 1
    decreases |steps|
  {
    if steps != [] {
      var step := steps[0];
      if step.CloseMark? {
        CrashesUpdate(s.threads, step.t, Do(cfg, s, step).threads[step.t]);
      } else {
        OtherStep(cfg, s, step);
      }
      MarksRun(cfg, Do(cfg, s, step), steps[1..]);
    }
  }

  /** In every run from a new pool some goroutine has panicked if and only if the pool has been marked as
      closed more than once; each mark after the first costs one goroutine. */
  lemma CrashedExactly(cfg: Config, steps: seq<Step>)
    requires Legal(cfg, NewPool(cfg), steps)
    ensures var s := Run(cfg, NewPool(cfg), steps);
            && ((exists i :: 0 <= i < |s.threads| && s.threads[i].Crashed?) <==> Marks(steps) > 1)
            && Crashes(s.threads) == if Marks(steps) == 0 then 0 else Marks(steps) - 1
  {
    MarksRun(cfg, NewPool(cfg), steps);
    SomeCrash(Run(cfg, NewPool(cfg), steps).threads);
  }

  // ---------------------------------------------------------------- the callers' side

  /** Nobody has tested the mark without having set it yet. */
  predicate NobodyClosing(s: State) {
    forall i :: 0 <= i < |s.threads| ==> !s.threads[i].CloseSeen?
  }

  /** Close is called only while no other call of it is between its test and its mark. */
  predicate OneAtATime(cfg: Config, s: State, steps: seq<Step>)
    requires Legal(cfg, s, steps)
    decreases |steps|
  {
    steps == [] ||
    ((steps[0].CloseTest? ==> NobodyClosing(s)) && OneAtATime(cfg, Do(cfg, s, steps[0]), steps[1..]))
  }

  /** At most one goroutine is about to set the mark, and none once it is set. */
  ghost predicate Orderly(s: State) {
    && (s.closed ==> NobodyClosing(s))
    && (forall i, j :: 0 <= i < j < |s.threads| ==> !(s.threads[i].CloseSeen? && s.threads[j].CloseSeen?))
    && (forall i :: 0 <= i < |s.threads| ==> !s.threads[i].Crashed?)
  }

  lemma OrderlyStep(cfg: Config, s: State, step: Step)
    requires Orderly(s) && Enabled(cfg, s, step) && (step.CloseTest? ==> NobodyClosing(s))
    ensures Orderly(Do(cfg, s, step))
  {
    if !step.CloseMark? && !step.CloseTest? && !step.Spawn? && !step.Reply? {
      OneThread(cfg, s, step);
      NotClosing(cfg, s, step);
    }
  }

  lemma NotClosing(cfg: Config, s: State, step: Step)
    requires Enabled(cfg, s, step) && !step.CloseMark? && !step.CloseTest? && !step.Spawn? && !step.Reply?
    ensures !s.threads[step.t].CloseSeen? && !Do(cfg, s, step).threads[step.t].CloseSeen?
  {
  }

  /** Callers that take turns can close a pool as often as they like: nobody panics. */
  lemma TurnsNeverCrash(cfg: Config, steps: seq<Step>, i: nat)
    requires Legal(cfg, NewPool(cfg), steps) && OneAtATime(cfg, NewPool(cfg), steps)
    ensures var s := Run(cfg, NewPool(cfg), steps); i < |s.threads| ==> !s.threads[i].Crashed?
    ensures Marks(steps) <= 1
  {
    OrderExactly(cfg, NewPool(cfg), steps);
    CrashedExactly(cfg, steps);
  }

  /** Callers that do not can panic: in any state in which two goroutines are between test and mark, both
      marks can be set and the second panics. */
  lemma OverlapCrashes(cfg: Config, s: State, t: nat, u: nat)
    requires InRange(s, t) && InRange(s, u) && t != u && s.threads[t].CloseSeen? && s.threads[u].CloseSeen?
    ensures Legal(cfg, s, [CloseMark(t), CloseMark(u)])
    ensures var s' := Run(cfg, s, [CloseMark(t), CloseMark(u)]); u < |s'.threads| && s'.threads[u].Crashed?
  {
    var s1 := Do(cfg, s, CloseMark(t));
    var s2 := Do(cfg, s1, CloseMark(u));
    assert Leads(cfg, s2, [], s2);
    First(cfg, s1, CloseMark(u), s2, [], s2);
    First(cfg, s, CloseMark(t), s1, [CloseMark(u)] + [], s2);
    assert [CloseMark(t)] + ([CloseMark(u)] + []) == [CloseMark(t), CloseMark(u)];
  }

  /** Some goroutine has closed closedCh a second time. */
  predicate Panicked(s: State) {
    exists i :: 0 <= i < |s.threads| && s.threads[i].Crashed?
  }

  predicate OnlyMarks(steps: seq<Step>) {
    forall i :: 0 <= i < |steps| ==> steps[i].CloseMark?
  }

  /** Letting the pending calls of Close set their marks, and nothing else, can make one of them panic. */
  ghost predicate MayPanic(cfg: Config, s: State) {
    exists marks: seq<Step> :: OnlyMarks(marks) && Legal(cfg, s, marks) && Panicked(Run(cfg, s, marks))
  }

  /** A goroutine about to set the mark stays so until it does, and one that has panicked is gone for good. */
  lemma CloserStays(cfg: Config, s: State, step: Step, i: nat)
    requires Enabled(cfg, s, step) && i < |s.threads| && (s.threads[i].Crashed? || s.threads[i].CloseSeen?)
    ensures var s' := Do(cfg, s, step);
            && i < |s'.threads| && (s.closed ==> s'.closed) && (step.CloseMark? ==> s'.closed)
            && s'.threads[i] == if step != CloseMark(i) || s.threads[i].Crashed? then s.threads[i]
                                else if s.closed then Crashed else SweepLoop(0)
  {
    if !step.CloseMark? && !step.Spawn? && !step.Reply? {
      OneThread(cfg, s, step);
      if !step.CloseTest? {
        NotClosing(cfg, s, step);
      }
    }
  }

  /** What is not in order never gets in order again. */
  lemma DisorderStays(cfg: Config, s: State, step: Step)
    requires !Orderly(s) && Enabled(cfg, s, step)
    ensures !Orderly(Do(cfg, s, step))
  {
    if i :| 0 <= i < |s.threads| && s.threads[i].Crashed? {
      CloserStays(cfg, s, step, i);
    } else if i :| 0 <= i < |s.threads| && s.closed && s.threads[i].CloseSeen? {
      CloserStays(cfg, s, step, i);
    } else {
      var i, j :| 0 <= i < j < |s.threads| && s.threads[i].CloseSeen? && s.threads[j].CloseSeen?;
      CloserStays(cfg, s, step, i);
      CloserStays(cfg, s, step, j);
    }
  }

  /** A run in order stays in order exactly when Close is called one at a time. */
  lemma {:induction false} OrderExactly(cfg: Config, s: State, steps: seq<Step>)
    requires Legal(cfg, s, steps)
    ensures Orderly(Run(cfg, s, steps)) <==> Orderly(s) && OneAtATime(cfg, s, steps)
    decreases |steps|
  {
    if steps != [] {
      var step := steps[0];
      if !Orderly(s) {
        DisorderStays(cfg, s, step);
      } else if step.CloseTest? && !NobodyClosing(s) {
        var u :| 0 <= u < |s.threads| && s.threads[u].CloseSeen?;
        assert Do(cfg, s, step).threads[u].CloseSeen? && Do(cfg, s, step).threads[step.t].CloseSeen?;
      } else {
        OrderlyStep(cfg, s, step);
      }
      OrderExactly(cfg, Do(cfg, s, step), steps[1..]);
    }
  }

  lemma {:induction false} MarksInTurn(cfg: Config, s: State, marks: seq<Step>)
    requires OnlyMarks(marks) && Legal(cfg, s, marks)
    ensures OneAtATime(cfg, s, marks)
    decreases |marks|
  {
    if marks != [] {
      MarksInTurn(cfg, Do(cfg, s, marks[0]), marks[1..]);
    }
  }

  lemma DisorderMayPanic(cfg: Config, s: State)
    requires !Orderly(s)
    ensures MayPanic(cfg, s)
  {
    if i :| 0 <= i < |s.threads| && s.threads[i].Crashed? {
      assert Panicked(Run(cfg, s, []));
    } else if i :| 0 <= i < |s.threads| && s.closed && s.threads[i].CloseSeen? {
      var s' := Do(cfg, s, CloseMark(i));
      assert Leads(cfg, s', [], s');
      First(cfg, s, CloseMark(i), s', [], s');
      assert s'.threads[i].Crashed?;
      assert OnlyMarks([CloseMark(i)] + []);
    } else {
      var i, j :| 0 <= i < j < |s.threads| && s.threads[i].CloseSeen? && s.threads[j].CloseSeen?;
      OverlapCrashes(cfg, s, i, j);
      assert OnlyMarks([CloseMark(i), CloseMark(j)]);
    }
  }

  /** Closing is safe exactly when it is done one call at a time: in every run from a new pool, no call of Close
      had begun while another was between its test and its mark if and only if nobody has panicked and the
      calls still pending can set their marks without a panic. */
  lemma ClosingExactly(cfg: Config, steps: seq<Step>)
    requires Legal(cfg, NewPool(cfg), steps)
    ensures OneAtATime(cfg, NewPool(cfg), steps) <==> !MayPanic(cfg, Run(cfg, NewPool(cfg), steps))
  {
    var s := Run(cfg, NewPool(cfg), steps);
    OrderExactly(cfg, NewPool(cfg), steps);
    if !Orderly(s) {
      DisorderMayPanic(cfg, s);
    } else if marks: seq<Step> :| OnlyMarks(marks) && Legal(cfg, s, marks) && Panicked(Run(cfg, s, marks)) {
      MarksInTurn(cfg, s, marks);
      OrderExactly(cfg, s, marks);
    }
  }

  function BothTest(): seq<Step> {
    [Spawn, Spawn, CloseTest(0), CloseTest(1)]
  }

  function BothMark(): seq<Step> {
    [CloseMark(0), CloseMark(1)]
  }

  /** Two goroutines close a new pool at the same time and the second panics. */
  lemma DoubleClose(cfg: Config)
    ensures Legal(cfg, NewPool(cfg), BothTest() + BothMark())
    ensures var s := Run(cfg, NewPool(cfg), BothTest() + BothMark()); 1 < |s.threads| && s.threads[1].Crashed?
    ensures !OneAtATime(cfg, NewPool(cfg), BothTest() + BothMark())
  {
    var tested := State([CloseSeen, CloseSeen], cfg.cap, [], [], false);
    OverlapCrashes(cfg, tested, 0, 1);
    var s' := Run(cfg, tested, BothMark());
    FourThen(cfg, NewPool(cfg),
             Spawn, State([Idle], cfg.cap, [], [], false),
             Spawn, State([Idle, Idle], cfg.cap, [], [], false),
             CloseTest(0), State([CloseSeen, Idle], cfg.cap, [], [], false),
             CloseTest(1), tested, BothMark(), s');
    if OneAtATime(cfg, NewPool(cfg), BothTest() + BothMark()) {
      TurnsNeverCrash(cfg, BothTest() + BothMark(), 1);
    }
  }
}
