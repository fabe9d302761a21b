/** Every deployment run comes to an end: no run blocks before its end and no run goes on for ever. */
module Progress {
  import opened Docker
  import opened Planes

  /** An upper bound on the calls a task still makes: at most twelve an operation. */
  function Weight(t: Task): nat {
    match t
    case Finished(_) => 0
    case Running(ops, pc) => Rank(pc) + if ops == [] then 0 else 13 * (|ops| - 1)
  }

  lemma {:induction false} BeginWeight(ops: seq<Op>)
    ensures Weight(Begin(ops)) <= 13 * |ops|
    decreases |ops|, 1
  {
    if ops != [] { AdvanceWeight(ops, ops[0].start); }
  }

  lemma {:induction false} AdvanceWeight(ops: seq<Op>, pc: Pc)
    requires ops != []
    ensures Weight(Advance(ops, pc)) <= Rank(pc) + 13 * (|ops| - 1)
    decreases |ops|, 0
  {
    if pc.Done? && pc.ok { BeginWeight(ops[1..]); }
  }

  lemma StepWeighsLess(t: Task, d: Daemon)
    requires t.Valid() && t.Running?
    ensures Weight(TaskStep(t, d).0) < Weight(t)
  {
    StepProgress(t.ops[0], t.pc, d);
    AdvanceWeight(t.ops, Step(t.ops[0], t.pc, d).0);
  }

  // ---------------------------------------------------------------- a phase

  function WeightAt(tasks: map<string, Task>, h: string): nat { if h in tasks then Weight(tasks[h]) else 0 }

  function Load(p: Phase, tasks: map<string, Task>): nat {
    if p == [] then 0 else WeightAt(tasks, p[0].host) + Load(p[1..], tasks)
  }

  /** The weight of a phase before it starts. */
  function PhaseLoad(p: Phase): nat {
    if p == [] then 0 else 13 * |p[0].ops| + PhaseLoad(p[1..])
  }

  /** Making one host's task lighter makes the phase lighter by as much. */
  lemma {:induction false} LoadUpdate(p: Phase, tasks: map<string, Task>, h: string, t: Task)
    requires DistinctHosts(p) && h in tasks
    ensures Load(p, tasks[h := t]) == Load(p, tasks) + if h in HostsOf(p) then Weight(t) - Weight(tasks[h]) else 0
  {
    if p != [] {
      LoadUpdate(p[1..], tasks, h, t);
      assert p[0] in p && HostsOf(p) == {p[0].host} + HostsOf(p[1..]);
      if p[0].host == h {
        assert forall i :: 1 <= i < |p| ==> p[i].host != h;
        assert h !in HostsOf(p[1..]);
      }
    }
  }

  lemma {:induction false} StartLoad(p: Phase, tasks: map<string, Task>)
    requires DistinctHosts(p)
    requires forall i :: 0 <= i < |p| ==> p[i].host in tasks && tasks[p[i].host] == Begin(p[i].ops)
    ensures Load(p, tasks) <= PhaseLoad(p)
  {
    if p != [] {
      BeginWeight(p[0].ops);
      StartLoad(p[1..], tasks);
    }
  }

  lemma {:induction false} OpsOfJob(p: Phase, i: nat)
    requires DistinctHosts(p) && i < |p|
    ensures OpsOf(p, p[i].host) == p[i].ops
  {
    if i > 0 { OpsOfJob(p[1..], i - 1); }
  }

  lemma TasksLoad(p: Phase)
    requires DistinctHosts(p)
    ensures Load(p, TasksOf(p)) <= PhaseLoad(p)
  {
    forall i | 0 <= i < |p| ensures p[i].host in TasksOf(p) && TasksOf(p)[p[i].host] == Begin(p[i].ops) {
      assert p[i] in p;
      OpsOfJob(p, i);
    }
    StartLoad(p, TasksOf(p));
  }

  // ---------------------------------------------------------------- a run

  /** The phases from `k` on, and the barrier before each. */
  function PlanLoad(plan: Plan, k: nat): nat
    requires k <= |plan|
    decreases |plan| - k
  {
    if k == |plan| then 0 else 1 + PhaseLoad(plan[k]) + PlanLoad(plan, k + 1)
  }

  function Left(plan: Plan, w: World): nat
    requires w.phase < |plan|
  {
    Load(plan[w.phase], w.tasks) + PlanLoad(plan, w.phase + 1)
  }

  lemma StepLeavesLess(plan: Plan, w: World, h: string, w': World)
    requires w.phase < |plan| && DistinctHosts(plan[w.phase]) && w.tasks.Keys == HostsOf(plan[w.phase]) &&
             StepBy(w, h, w')
    ensures w'.phase == w.phase && Left(plan, w') < Left(plan, w)
  {
    var t := TaskStep(w.tasks[h], w.daemons[h]).0;
    assert Weight(t) < Weight(w.tasks[h]) by { StepWeighsLess(w.tasks[h], w.daemons[h]); }
    LoadUpdate(plan[w.phase], w.tasks, h, t);
  }

  lemma BarrierLeavesLess(plan: Plan, w: World, w': World)
    requires w.phase + 1 < |plan| && DistinctHosts(plan[w.phase + 1]) && Barrier(plan, w, w')
    ensures Left(plan, w') < Left(plan, w)
  {
    TasksLoad(plan[w.phase + 1]);
  }

  /** Every step of every run brings the end nearer. */
  lemma NextLeavesLess(plan: Plan, ds: map<string, Daemon>, w: World, w': World)
    requires OnCourse(plan, ds, w) && Next(plan, w, w')
    ensures w'.phase < |plan| && Left(plan, w') < Left(plan, w)
  {
    if Barrier(plan, w, w') {
      BarrierLeavesLess(plan, w, w');
    } else {
      var h :| StepBy(w, h, w');
      StepLeavesLess(plan, w, h, w');
    }
  }

  lemma {:induction false} LeftAfter(plan: Plan, ds: map<string, Daemon>, ws: seq<World>, i: nat)
    requires IsRun(plan, ds, ws) && i < |ws|
    ensures ws[i].phase < |plan| && i + Left(plan, ws[i]) <= PlanLoad(plan, 0)
  {
    EveryRunStaysOnCourse(plan, ds, ws, i);
    if i == 0 {
      TasksLoad(plan[0]);
    } else {
      LeftAfter(plan, ds, ws, i - 1);
      EveryRunStaysOnCourse(plan, ds, ws, i - 1);
      assert Next(plan, ws[i - 1], ws[i - 1 + 1]);
      NextLeavesLess(plan, ds, ws[i - 1], ws[i]);
    }
  }

  /** No run is longer than the plan's load, whatever fails and however the goroutines interleave. */
  lemma RunsAreBounded(plan: Plan, ds: map<string, Daemon>, ws: seq<World>)
    requires IsRun(plan, ds, ws)
    ensures |ws| <= PlanLoad(plan, 0) + 1
  {
    LeftAfter(plan, ds, ws, |ws| - 1);
  }

  /** A run that has not ended can go on. */
  lemma RunsNeverBlock(plan: Plan, ds: map<string, Daemon>, ws: seq<World>)
    requires IsRun(plan, ds, ws)
    ensures Ended(plan, ws[|ws| - 1]) || exists w :: IsRun(plan, ds, ws + [w])
  {
    var w := ws[|ws| - 1];
    EveryRunStaysOnCourse(plan, ds, ws, |ws| - 1);
    if !Ended(plan, w) {
      CanGoOn(plan, ds, w);
      var w' :| Next(plan, w, w');
      RunExtends(plan, ds, ws, w');
    }
  }

  lemma CanGoOn(plan: Plan, ds: map<string, Daemon>, w: World)
    requires OnCourse(plan, ds, w) && !Ended(plan, w)
    ensures exists w' :: Next(plan, w, w')
  {
    if Settled(w) {
      var w' := World(w.daemons, w.phase + 1, TasksOf(plan[w.phase + 1]));
      assert Barrier(plan, w, w');
      assert Next(plan, w, w');
    } else {
      var h :| h in w.tasks && !w.tasks[h].Finished?;
      var w' := After(w, h);
      assert StepBy(w, h, w');
      assert Next(plan, w, w');
    }
  }

  function After(w: World, h: string): World
    requires h in w.tasks && h in w.daemons && w.tasks[h].Valid() && w.tasks[h].Running?
  {
    var (t, d) := TaskStep(w.tasks[h], w.daemons[h]);
    World(w.daemons[h := d], w.phase, w.tasks[h := t])
  }

  lemma RunExtends(plan: Plan, ds: map<string, Daemon>, ws: seq<World>, w: World)
    requires IsRun(plan, ds, ws) && Next(plan, ws[|ws| - 1], w)
    ensures IsRun(plan, ds, ws + [w])
  {
    var all := ws + [w];
    forall i | 0 <= i < |all| - 1 ensures Next(plan, all[i], all[i + 1]) {
      if i < |ws| - 1 { assert Next(plan, ws[i], ws[i + 1]); }
    }
  }
}
