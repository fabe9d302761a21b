/** What the container operations do when no call fails, in closed form: the containers they leave, how many
    calls they make and when they report success (docker/docker.go:32-104, services/services.go:64-81). */
module Quiet {
  import opened Docker
  import opened Planes
  import opened Services

  /** Only this makes a failure-free run fail: the name that the old container is renamed to is taken. */
  predicate Blocked(cs: Containers, name: string, cfg: Config) {
    name in cs && cs[name].running && !Matches(cs[name], cfg) && OldName(name) in cs
  }

  /** What a failure-free run that begins at call `calls` leaves. */
  function RunLeaves(cs: Containers, calls: nat, name: string, cfg: Config): Containers {
    if name !in cs then cs[name := Container(calls + 2, cfg.image, cfg.cmd, true)]
    else if !cs[name].running then cs[name := cs[name].(running := true)]
    else if Matches(cs[name], cfg) then cs
    else if OldName(name) in cs then cs[name := cs[name].(running := false)]
    else cs[name := Container(calls + 7, cfg.image, cfg.cmd, true)]
  }

  function RunCalls(cs: Containers, name: string, cfg: Config): nat {
    if name !in cs then 4
    else if !cs[name].running || Matches(cs[name], cfg) then 2
    else if OldName(name) in cs then 7
    else 10
  }

  // ---------------------------------------------------------------- the replacement

  lemma SwapLeaves(cs: Containers, name: string, old1: string, halted: Container, fresh1: Container, started: Container)
    requires name in cs && old1 !in cs && old1 != name
    ensures (cs[name := halted] - {name})[old1 := halted][name := fresh1][name := started] - {old1}
            == cs[name := started]
  {
  }

  lemma QuietStart(op: Op, d: Daemon)
    requires d.Quiet() && op.name in d.containers && OldName(op.name) in d.containers
    requires !d.containers[OldName(op.name)].running
    ensures var started := d.containers[op.name := d.containers[op.name].(running := true)] - {OldName(op.name)};
            Exec(op, StartReplacement, d) == WellEnded(op, Daemon(started, d.calls + 2, d.faults))
  {
    var d1 := Start(d, op.name).0;
    var d2 := Delete(d1, OldName(op.name)).0;
    ExecStep(op, StartReplacement, d);
    ExecStep(op, RemoveOld, d1);
    FinishSteps(op, d2);
  }

  /** docker.go:95-103 once the old container is out of the way. */
  lemma QuietCreate(op: Op, d: Daemon)
    requires d.Quiet() && op.name !in d.containers && OldName(op.name) in d.containers
    requires !d.containers[OldName(op.name)].running
    ensures var c := Container(d.calls, op.cfg.image, op.cfg.cmd, true);
            var cs := d.containers[op.name := c.(running := false)][op.name := c] - {OldName(op.name)};
            Exec(op, CreateReplacement, d) == WellEnded(op, Daemon(cs, d.calls + 3, d.faults))
  {
    var d1 := Create(d, op.name, op.cfg).0;
    ExecStep(op, CreateReplacement, d);
    QuietStart(op, d1);
  }

  /** docker.go:87-103: stop, wait, rename, create, start, remove. */
  lemma QuietSwap(op: Op, d: Daemon)
    requires d.Quiet() && op.name in d.containers && OldName(op.name) !in d.containers
    ensures Exec(op, StopOld, d) == WellEnded(op, Replaced(op, d, 3, 6))
  {
    var halted := d.containers[op.name].(running := false);
    var (e, ok) := StopRename(d, op.name, OldName(op.name));
    StopRenameIsSteps(op, d);
    QuietStopRename(d, op.name);
    QuietCreate(op, e);
    var c := Container(d.calls + 3, op.cfg.image, op.cfg.cmd, true);
    SwapLeaves(d.containers, op.name, OldName(op.name), halted, c.(running := false), c);
  }

  lemma QuietStopRename(d: Daemon, name: string)
    requires d.Quiet() && name in d.containers
    ensures var halted := d.containers[name].(running := false);
            var stopped := d.containers[name := halted];
            StopRename(d, name, OldName(name)) ==
              if OldName(name) in d.containers then (Daemon(stopped, d.calls + 3, d.faults), false)
              else (Daemon((stopped - {name})[OldName(name) := halted], d.calls + 3, d.faults), true)
  {
    var halted := d.containers[name].(running := false);
    assert d.containers[name := halted][name := halted] == d.containers[name := halted];
  }

  /** The daemon `n` calls on, with the container stopped. */
  function Paused(op: Op, d: Daemon, n: nat): Daemon
    requires op.name in d.containers
  {
    Daemon(d.containers[op.name := d.containers[op.name].(running := false)], d.calls + n, d.faults)
  }

  lemma LaterPaused(op: Op, d: Daemon, d1: Daemon, n: nat)
    requires op.name in d.containers && d1 == d.After(d.containers)
    ensures Paused(op, d1, n) == Paused(op, d, n + 1)
  {
  }

  lemma QuietBlockedStop(op: Op, d: Daemon)
    requires d.Quiet() && op.name in d.containers && OldName(op.name) in d.containers
    ensures Exec(op, StopOld, d) == (Paused(op, d, 3), false)
  {
    StopRenameIsSteps(op, d);
    QuietStopRename(d, op.name);
  }

  lemma QuietUpgradeBlocked(op: Op, d: Daemon)
    requires d.Quiet() && op.name in d.containers && OldName(op.name) in d.containers
    ensures Exec(op, PullUpgrade, d) == (Paused(op, d, 4), false)
  {
    var d1 := d.After(d.containers);
    ExecStep(op, PullUpgrade, d);
    QuietBlockedStop(op, d1);
    LaterPaused(op, d, d1, 3);
  }

  /** The update of a running container from its pull on. */
  lemma QuietUpgrade(op: Op, d: Daemon)
    requires d.Quiet() && op.name in d.containers && OldName(op.name) !in d.containers
    ensures Exec(op, PullUpgrade, d) == WellEnded(op, Replaced(op, d, 4, 7))
  {
    var d1 := d.After(d.containers);
    ExecStep(op, PullUpgrade, d);
    QuietSwap(op, d1);
    LaterReplaced(op, d, d1, 3, 6);
  }

  /** The daemon `n` calls on, with the container that call `created` made in the place of the old one. */
  function Replaced(op: Op, d: Daemon, created: nat, n: nat): Daemon {
    Daemon(d.containers[op.name := Container(d.calls + created, op.cfg.image, op.cfg.cmd, true)], d.calls + n, d.faults)
  }

  lemma LaterReplaced(op: Op, d: Daemon, d1: Daemon, created: nat, n: nat)
    requires d1 == d.After(d.containers)
    ensures Replaced(op, d1, created, n) == Replaced(op, d, created + 1, n + 1)
  {
  }

  // ---------------------------------------------------------------- runs

  lemma QuietRunNew(op: Op, d: Daemon)
    requires d.Quiet() && op.name !in d.containers
    ensures var c := Container(d.calls + 1, op.cfg.image, op.cfg.cmd, true);
            Exec(op, PullNew, d) == WellEnded(op, Daemon(d.containers[op.name := c], d.calls + 3, d.faults))
  {
    var c := Container(d.calls + 1, op.cfg.image, op.cfg.cmd, false);
    var d1 := d.After(d.containers);
    var d2 := d1.After(d.containers[op.name := c]);
    var d3 := d2.After(d.containers[op.name := c.(running := true)]);
    assert d2.containers[op.name := c.(running := true)] == d3.containers;
    ExecStep(op, PullNew, d);
    ExecStep(op, CreateNew, d1);
    ExecStep(op, StartNew, d2);
    FinishSteps(op, d3);
  }

  lemma QuietListRunning(op: Op, d: Daemon)
    requires d.Quiet()
    ensures var d1 := d.After(d.containers);
            Exec(op, ListRunning, d) ==
              if op.name in d.containers && d.containers[op.name].running then Exec(op, PullUpgrade, d1)
              else WellEnded(op, d1)
  {
    var (pc, d1) := Step(op, ListRunning, d);
    ExecStep(op, ListRunning, d);
    FinishSteps(op, d1);
  }

  lemma QuietStartStopped(op: Op, d: Daemon)
    requires d.Quiet() && op.name in d.containers
    ensures var started := d.containers[op.name := d.containers[op.name].(running := true)];
            Exec(op, StartStopped, d) == WellEnded(op, d.After(started))
  {
    ExecStep(op, StartStopped, d);
    FinishSteps(op, Start(d, op.name).0);
  }

  lemma QuietInspectUpgrade(op: Op, d: Daemon)
    requires d.Quiet() && op.name in d.containers && d.containers[op.name].running
    ensures var d1 := d.After(d.containers);
            Exec(op, InspectUpgrade, d) ==
              if Matches(d.containers[op.name], op.cfg) then WellEnded(op, d1)
              else Exec(op, PullUpgrade, d1.After(d1.containers))
  {
    var d1 := d.After(d.containers);
    if Matches(d.containers[op.name], op.cfg) {
      ExecStep(op, InspectUpgrade, d);
      FinishSteps(op, d1);
    } else {
      ExecStep(op, InspectUpgrade, d);
      QuietListRunning(op, d1);
    }
  }

  /** What a failure-free run leaves of the whole daemon, before its health check. */
  function Left(op: Op, d: Daemon): Daemon {
    Daemon(RunLeaves(d.containers, d.calls, op.name, op.cfg), d.calls + RunCalls(d.containers, op.name, op.cfg),
           d.faults)
  }

  lemma QuietReplace(op: Op, d: Daemon)
    requires d.Quiet() && op.name in d.containers
    ensures Exec(op, PullUpgrade, d) ==
              if OldName(op.name) in d.containers then (Paused(op, d, 4), false)
              else WellEnded(op, Replaced(op, d, 4, 7))
  {
    if OldName(op.name) in d.containers { QuietUpgradeBlocked(op, d); } else { QuietUpgrade(op, d); }
  }

  /** Three calls into a run that finds the container running with another configuration. */
  lemma LeftWhenDiffers(op: Op, d: Daemon, d3: Daemon)
    requires op.name in d.containers && d.containers[op.name].running && !Matches(d.containers[op.name], op.cfg)
    requires d3 == Daemon(d.containers, d.calls + 3, d.faults)
    ensures OldName(op.name) !in d.containers ==> Replaced(op, d3, 4, 7) == Left(op, d)
    ensures OldName(op.name) in d.containers ==> Paused(op, d3, 4) == Left(op, d)
  {
  }

  lemma QuietDiffers(op: Op, d: Daemon)
    requires d.Quiet() && op.name in d.containers && d.containers[op.name].running
    requires !Matches(d.containers[op.name], op.cfg)
    ensures Exec(op, InspectUpgrade, d.After(d.containers)) ==
              if Blocked(d.containers, op.name, op.cfg) then (Left(op, d), false) else WellEnded(op, Left(op, d))
  {
    var d3 := Daemon(d.containers, d.calls + 3, d.faults);
    LeftWhenDiffers(op, d, d3);
    ToUpgrade(op, d, d3);
    QuietReplace(op, d3);
  }

  lemma ToUpgrade(op: Op, d: Daemon, d3: Daemon)
    requires d.Quiet() && op.name in d.containers && d.containers[op.name].running
    requires !Matches(d.containers[op.name], op.cfg) && d3 == Daemon(d.containers, d.calls + 3, d.faults)
    ensures Exec(op, InspectUpgrade, d.After(d.containers)) == Exec(op, PullUpgrade, d3)
  {
    QuietInspectUpgrade(op, d.After(d.containers));
  }

  /** The run of any operation that begins with the inspection, up to its health check. */
  lemma QuietRunTo(op: Op, d: Daemon, pc: Pc)
    requires d.Quiet() && pc == Inspect
    ensures Exec(op, pc, d) ==
              if Blocked(d.containers, op.name, op.cfg) then (Left(op, d), false) else WellEnded(op, Left(op, d))
  {
    var (pc1, d1) := Step(op, pc, d);
    ExecStep(op, pc, d);
    if op.name !in d.containers {
      QuietRunNew(op, d1);
    } else if !d.containers[op.name].running {
      QuietStartStopped(op, d1);
    } else if Matches(d.containers[op.name], op.cfg) {
      QuietInspectUpgrade(op, d1);
    } else {
      QuietDiffers(op, d);
    }
  }

  /** docker.go:32-71 without failures: exactly what is left, in exactly so many calls; the run succeeds
      unless it is blocked.  A service's run ends with one call more, its health check. */
  lemma QuietRun(d: Daemon, name: string, cfg: Config, probe: bool)
    requires d.Quiet()
    ensures var (e, ok) := Exec(RunOp(name, cfg, probe), Inspect, d);
            var cs := d.containers;
            (ok <==> !Blocked(cs, name, cfg)) && e.faults == d.faults &&
            e.containers == RunLeaves(cs, d.calls, name, cfg) &&
            e.calls == d.calls + RunCalls(cs, name, cfg) + if probe && ok then 1 else 0
  {
    QuietRunTo(RunOp(name, cfg, probe), d, Inspect);
  }

  /** docker.go:73-104 without failures, as part of a run or called directly: nothing to do for a container
      that does not run; otherwise the replacement runs under the name, unless the `old-` name was taken. */
  lemma QuietRoll(op: Op, d: Daemon)
    requires d.Quiet()
    ensures Exec(op, ListRunning, d) ==
              if !(op.name in d.containers && d.containers[op.name].running) then WellEnded(op, d.After(d.containers))
              else if OldName(op.name) in d.containers then (Paused(op, d, 5), false)
              else WellEnded(op, Replaced(op, d, 5, 8))
  {
    var d1 := d.After(d.containers);
    QuietListRunning(op, d);
    if op.name in d.containers && d.containers[op.name].running {
      QuietReplace(op, d1);
      LaterPaused(op, d, d1, 4);
      LaterReplaced(op, d, d1, 4, 7);
    }
  }

  lemma QuietSidekickCreate(op: Op, d: Daemon)
    requires d.Quiet() && op.name !in d.containers
    ensures Exec(op, PullSidekick, d) ==
              (Daemon(d.containers[op.name := Container(d.calls + 1, op.cfg.image, op.cfg.cmd, false)], d.calls + 2,
                      d.faults),
               true)
  {
    var d1 := d.After(d.containers);
    ExecStep(op, PullSidekick, d);
    ExecStep(op, CreateSidekick, d1);
  }

  lemma QuietSidekickTo(op: Op, d: Daemon, pc: Pc)
    requires d.Quiet() && pc == ListAll
    ensures Exec(op, pc, d) ==
              if op.name in d.containers then (d.After(d.containers), true)
              else (Daemon(d.containers[op.name := Container(d.calls + 2, op.cfg.image, op.cfg.cmd, false)],
                           d.calls + 3,
                           d.faults), true)
  {
    var (pc1, d1) := Step(op, pc, d);
    ExecStep(op, pc, d);
    if op.name !in d.containers { QuietSidekickCreate(op, d1); }
  }

  /** services.go:64-81 without failures. */
  lemma QuietSidekick(d: Daemon, name: string, image: string)
    requires d.Quiet()
    ensures var (e, ok) := Exec(SidekickOp(name, image), ListAll, d);
            ok && e.faults == d.faults && e.calls == d.calls + (if name in d.containers then 1 else 3) &&
            e.containers ==
              if name in d.containers then d.containers
              else d.containers[name := Container(d.calls + 2, image, [], false)]
  {
    QuietSidekickTo(SidekickOp(name, image), d, ListAll);
  }

  /** Without failures a name that is not `old-` anything being used stays unblocked: no run leaves an
      `old-` container behind that was not there. */
  lemma RunLeavesNoOld(cs: Containers, calls: nat, name: string, cfg: Config, s: string)
    requires OldName(s) !in cs && OldName(s) != name
    ensures OldName(s) !in RunLeaves(cs, calls, name, cfg)
  {
  }
}
