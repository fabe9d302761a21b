/** docker/docker.go: one host's Docker daemon and the container operations RKE builds on it.

    Every remote call may fail.  A daemon carries the outcome of each of its future calls, so a
    claim about every `Daemon` is a claim about every pattern of failures.  A failed call has no
    effect.  `Step` advances an operation by exactly one remote call; the methods of `Client`,
    written as the source writes them, are proved to be complete runs of that step system. */
module Docker {

  /** `id` is the number of the call that created the container, so a container that was
      replaced has another `id` even when its configuration is the same. */
  datatype Container = Container(id: nat, image: string, cmd: seq<string>, running: bool)

  datatype Config = Config(image: string, cmd: seq<string>)

  type Containers = map<string, Container>

  datatype Daemon = Daemon(containers: Containers, calls: nat, faults: nat -> bool) {
    predicate Fails() { faults(calls) }

    function After(cs: Containers): Daemon { Daemon(cs, calls + 1, faults) }

    /** No call from now on fails. */
    ghost predicate Quiet() { forall n :: calls <= n ==> !faults(n) }

    ghost predicate Valid() { forall n :: n in containers ==> containers[n].id < calls }
  }

  function OldName(name: string): (r: string)
    ensures r != name
  {
    assert |"old-" + name| == 4 + |name|;
    "old-" + name
  }

  predicate Matches(c: Container, cfg: Config) { c.image == cfg.image && c.cmd == cfg.cmd }

  /** The container `name` runs with the requested image and command. */
  predicate Up(cs: Containers, name: string, cfg: Config) {
    name in cs && cs[name].running && Matches(cs[name], cfg)
  }

  // ---------------------------------------------------------------- remote calls

  function Query(d: Daemon): (Daemon, bool)
  {
    (d.After(d.containers), !d.Fails())
  }

  function Create(d: Daemon, name: string, cfg: Config): (Daemon, bool)
  {
    if d.Fails() || name in d.containers then (d.After(d.containers), false)
    else (d.After(d.containers[name := Container(d.calls, cfg.image, cfg.cmd, false)]), true)
  }

  function Start(d: Daemon, name: string): (Daemon, bool)
  {
    if d.Fails() || name !in d.containers then (d.After(d.containers), false)
    else (d.After(d.containers[name := d.containers[name].(running := true)]), true)
  }

  /** Both `ContainerStop` and a successful wait for `not-running` leave the container stopped. */
  function Stop(d: Daemon, name: string): (Daemon, bool)
  {
    if d.Fails() || name !in d.containers then (d.After(d.containers), false)
    else (d.After(d.containers[name := d.containers[name].(running := false)]), true)
  }

  function Rename(d: Daemon, name: string, to: string): (Daemon, bool)
  {
    if d.Fails() || name !in d.containers || to in d.containers then (d.After(d.containers), false)
    else (d.After((d.containers - {name})[to := d.containers[name]]), true)
  }

  /** Removal without force: a running container is refused. */
  function Delete(d: Daemon, name: string): (Daemon, bool)
  {
    if d.Fails() || name !in d.containers || d.containers[name].running then (d.After(d.containers), false)
    else (d.After(d.containers - {name}), true)
  }

  // ---------------------------------------------------------------- the step system

  /** Program points; each names the remote call that comes next. */
  datatype Pc =
    | Inspect | PullNew | CreateNew | StartNew | StartStopped
    | InspectUpgrade | ListRunning | PullUpgrade | StopOld | WaitOld | RenameOld
    | CreateReplacement | StartReplacement | RemoveOld
    | Probe
    | InspectRemove | StopRemove | DeleteStopped
    | ListAll | PullSidekick | CreateSidekick
    | AwaitExit | Discard
    | Done(ok: bool)

  datatype Op = Op(start: Pc, name: string, cfg: Config, probe: bool)

  function Rank(pc: Pc): nat {
    match pc
    case Inspect => 12 case InspectUpgrade => 11 case ListRunning => 10 case PullUpgrade => 9
    case StopOld => 8 case WaitOld => 7 case RenameOld => 6 case CreateReplacement => 5
    case StartReplacement => 4 case RemoveOld => 3
    case PullNew => 4 case CreateNew => 3 case StartNew => 2 case StartStopped => 2
    case Probe => 1
    case InspectRemove => 3 case StopRemove => 2 case DeleteStopped => 1
    case ListAll => 3 case PullSidekick => 2 case CreateSidekick => 1
    case AwaitExit => 1 case Discard => 1
    case Done(_) => 0
  }

  /** What follows a `DoRunContainer` that returned nil: the service's health check, if it has one. */
  function Finish(op: Op): Pc { if op.probe then Probe else Done(true) }

  function Goto(r: (Daemon, bool), good: Pc, bad: Pc): (Pc, Daemon) {
    (if r.1 then good else bad, r.0)
  }

  /** One remote call of `op`. */
  function Step(op: Op, pc: Pc, d: Daemon): (Pc, Daemon)
    requires !pc.Done?
  {
    var fail := Done(false);
    var here := op.name in d.containers;
    match pc
    case Inspect =>
      Goto(Query(d), if !here then PullNew
                     else if d.containers[op.name].running then InspectUpgrade else StartStopped, fail)
    case PullNew => Goto(Query(d), CreateNew, fail)
    case CreateNew => Goto(Create(d, op.name, op.cfg), StartNew, fail)
    case StartNew => Goto(Start(d, op.name), Finish(op), fail)
    case StartStopped => Goto(Start(d, op.name), Finish(op), fail)
    case InspectUpgrade =>
      Goto(Query(d), if !here then fail
                     else if Matches(d.containers[op.name], op.cfg) then Finish(op) else ListRunning, fail)
    case ListRunning =>
      Goto(Query(d), if here && d.containers[op.name].running then PullUpgrade else Finish(op), fail)
    case PullUpgrade => Goto(Query(d), StopOld, fail)
    case StopOld => Goto(Stop(d, op.name), WaitOld, fail)
    case WaitOld => Goto(Stop(d, op.name), RenameOld, CreateReplacement)  // the wait error is swallowed
    case RenameOld => Goto(Rename(d, op.name, OldName(op.name)), CreateReplacement, fail)
    case CreateReplacement => Goto(Create(d, op.name, op.cfg), StartReplacement, fail)
    case StartReplacement => Goto(Start(d, op.name), RemoveOld, fail)
    case RemoveOld => Goto(Delete(d, OldName(op.name)), Finish(op), fail)
    case Probe => Goto(Query(d), Done(true), fail)
    case InspectRemove => Goto(Query(d), if here then StopRemove else Done(true), fail)
    case StopRemove => Goto(Stop(d, op.name), DeleteStopped, fail)
    case DeleteStopped => Goto(Delete(d, op.name), Done(true), fail)
    case ListAll => Goto(Query(d), if here then Done(true) else PullSidekick, fail)
    case PullSidekick => Goto(Query(d), CreateSidekick, fail)
    case CreateSidekick => Goto(Create(d, op.name, op.cfg), Done(true), fail)
    case AwaitExit => Goto(Stop(d, op.name), Done(true), fail)
    case Discard => Goto(Delete(d, op.name), Done(true), fail)
  }

  /** A step makes one call and comes nearer to the end. */
  lemma StepProgress(op: Op, pc: Pc, d: Daemon)
    requires !pc.Done?
    ensures Rank(Step(op, pc, d).0) < Rank(pc)
    ensures Step(op, pc, d).1.calls == d.calls + 1 && Step(op, pc, d).1.faults == d.faults
  {
  }

  /** Run `op` from `pc` to its end. */
  function Exec(op: Op, pc: Pc, d: Daemon): (r: (Daemon, bool))
    ensures r.0.faults == d.faults && r.0.calls >= d.calls
    decreases Rank(pc), d
  {
    if pc.Done? then (d, pc.ok)
    else
      StepProgress(op, pc, d);
      var (pc', d') := Step(op, pc, d);
      Exec(op, pc', d')
  }

  /** The first call of what is left to do, then the rest. */
  lemma ExecStep(op: Op, pc: Pc, d: Daemon)
    requires !pc.Done?
    ensures var (pc', d') := Step(op, pc, d);
            Exec(op, pc, d) == if pc'.Done? then (d', pc'.ok) else Exec(op, pc', d')
  {
  }

  /** `op` after at most `n` remote calls. */
  function StateAfter(op: Op, d: Daemon, n: nat): (Pc, Daemon) {
    if n == 0 then (op.start, d)
    else
      var (pc, e) := StateAfter(op, d, n - 1);
      if pc.Done? then (pc, e) else Step(op, pc, e)
  }

  function RunOp(name: string, cfg: Config, probe: bool): Op { Op(Inspect, name, cfg, probe) }
  function RollOp(name: string, cfg: Config): Op { Op(ListRunning, name, cfg, false) }
  function RemoveOp(name: string): Op { Op(InspectRemove, name, Config("", []), false) }
  function SidekickOp(name: string, image: string): Op { Op(ListAll, name, Config(image, []), false) }
  function AwaitOp(name: string): Op { Op(AwaitExit, name, Config("", []), false) }
  function DiscardOp(name: string): Op { Op(Discard, name, Config("", []), false) }

  function RunContainer(d: Daemon, name: string, cfg: Config): (Daemon, bool) {
    Exec(RunOp(name, cfg, false), Inspect, d)
  }

  // ---------------------------------------------------------------- DoRunContainer, at every step

  /** The container that a run started from, stopped. */
  function Halted(op: Op, d0: Daemon): Container
    requires op.name in d0.containers
  {
    d0.containers[op.name].(running := false)
  }

  function StoppedSet(op: Op, d0: Daemon): Containers
    requires op.name in d0.containers
  {
    d0.containers[op.name := Halted(op, d0)]
  }

  function RenamedSet(op: Op, d0: Daemon): Containers
    requires op.name in d0.containers
  {
    (d0.containers - {op.name})[OldName(op.name) := Halted(op, d0)]
  }

  predicate Fresh(op: Op, d0: Daemon, c: Container) { d0.calls <= c.id && Matches(c, op.cfg) }

  /** The whole effect of a run, or of a rolling update called directly, that reports success. */
  predicate Ran(op: Op, d0: Daemon, cs: Containers) {
    if op.start == ListRunning && !(op.name in d0.containers && d0.containers[op.name].running) then
      cs == d0.containers
    else if op.name !in d0.containers then
      op.name in cs && Fresh(op, d0, cs[op.name]) && cs[op.name].running &&
      cs == d0.containers[op.name := cs[op.name]]
    else if !d0.containers[op.name].running then
      cs == d0.containers[op.name := d0.containers[op.name].(running := true)]
    else if op.start == Inspect && Matches(d0.containers[op.name], op.cfg) then
      cs == d0.containers
    else
      OldName(op.name) !in d0.containers &&
      op.name in cs && Fresh(op, d0, cs[op.name]) && cs[op.name].running &&
      cs == d0.containers[op.name := cs[op.name]]
  }

  /** The running container is going to be replaced. */
  predicate Upgrading(op: Op, d0: Daemon) {
    op.name in d0.containers && d0.containers[op.name].running &&
    (op.start == ListRunning || (op.start == Inspect && !Matches(d0.containers[op.name], op.cfg)))
  }

  predicate Renamed(op: Op, d0: Daemon, cs: Containers) {
    Upgrading(op, d0) && OldName(op.name) !in d0.containers && cs == RenamedSet(op, d0)
  }

  /** The replacement exists next to the renamed original. */
  predicate Replacing(op: Op, d0: Daemon, cs: Containers, running: bool) {
    Upgrading(op, d0) && OldName(op.name) !in d0.containers &&
    op.name in cs && Fresh(op, d0, cs[op.name]) && cs[op.name].running == running &&
    cs == RenamedSet(op, d0)[op.name := cs[op.name]]
  }

  predicate Created(op: Op, d0: Daemon, cs: Containers) {
    op.start == Inspect && op.name !in d0.containers &&
    op.name in cs && Fresh(op, d0, cs[op.name]) && !cs[op.name].running &&
    cs == d0.containers[op.name := cs[op.name]]
  }

  /** Where a run that started in `d0` can be when its next call is `pc`. */
  predicate RunInv(op: Op, d0: Daemon, pc: Pc, d: Daemon) {
    var cs := d.containers;
    d0.calls <= d.calls && (op.start == Inspect || op.start == ListRunning) &&
    match pc
    case Inspect => cs == d0.containers && op.start == Inspect
    case PullNew => cs == d0.containers && op.name !in cs && op.start == Inspect
    case CreateNew => cs == d0.containers && op.name !in cs && op.start == Inspect
    case StartNew => Created(op, d0, cs)
    case StartStopped => cs == d0.containers && op.start == Inspect && op.name in cs && !cs[op.name].running
    case InspectUpgrade => cs == d0.containers && op.start == Inspect && op.name in cs && cs[op.name].running
    case ListRunning => cs == d0.containers && (op.start == Inspect ==> Upgrading(op, d0))
    case PullUpgrade => cs == d0.containers && Upgrading(op, d0)
    case StopOld => cs == d0.containers && Upgrading(op, d0)
    case WaitOld => Upgrading(op, d0) && cs == StoppedSet(op, d0)
    case RenameOld => Upgrading(op, d0) && cs == StoppedSet(op, d0)
    case CreateReplacement => Upgrading(op, d0) && (cs == StoppedSet(op, d0) || Renamed(op, d0, cs))
    case StartReplacement => Replacing(op, d0, cs, false)
    case RemoveOld => Replacing(op, d0, cs, true)
    case Probe => Ran(op, d0, cs)
    case Done(ok) =>
      Ran(op, d0, cs) ||
      (!ok && (cs == d0.containers || Created(op, d0, cs) ||
               (Upgrading(op, d0) && (cs == StoppedSet(op, d0) || Renamed(op, d0, cs))) ||
               Replacing(op, d0, cs, false) || Replacing(op, d0, cs, true)))
    case _ => false
  }

  lemma RunInvRename(op: Op, d0: Daemon, d: Daemon)
    requires RunInv(op, d0, RenameOld, d)
    ensures var (pc', d') := Step(op, RenameOld, d); RunInv(op, d0, pc', d')
  {
  }

  lemma RunInvCreate(op: Op, d0: Daemon, d: Daemon)
    requires RunInv(op, d0, CreateReplacement, d)
    ensures var (pc', d') := Step(op, CreateReplacement, d); RunInv(op, d0, pc', d')
  {
  }

  lemma RunInvSwap(op: Op, d0: Daemon, pc: Pc, d: Daemon)
    requires RunInv(op, d0, pc, d) && (pc.StartReplacement? || pc.RemoveOld?)
    ensures var (pc', d') := Step(op, pc, d); RunInv(op, d0, pc', d')
  {
  }

  lemma RunInvStep(op: Op, d0: Daemon, pc: Pc, d: Daemon)
    requires RunInv(op, d0, pc, d) && !pc.Done?
    ensures var (pc', d') := Step(op, pc, d); RunInv(op, d0, pc', d')
  {
    StepProgress(op, pc, d);
    if pc.RenameOld? {
      RunInvRename(op, d0, d);
    } else if pc.CreateReplacement? {
      RunInvCreate(op, d0, d);
    } else if pc.StartReplacement? || pc.RemoveOld? {
      RunInvSwap(op, d0, pc, d);
    }
  }

  lemma {:induction false} RunInvExec(op: Op, d0: Daemon, pc: Pc, d: Daemon)
    requires RunInv(op, d0, pc, d)
    ensures var (e, ok) := Exec(op, pc, d); RunInv(op, d0, Done(ok), e)
    decreases Rank(pc)
  {
    if !pc.Done? {
      RunInvStep(op, d0, pc, d);
      StepProgress(op, pc, d);
      var (pc', d') := Step(op, pc, d);
      RunInvExec(op, d0, pc', d');
    }
  }

  lemma {:induction false} RunInvAfter(op: Op, d: Daemon, n: nat)
    requires op.start == Inspect || op.start == ListRunning
    ensures var (pc, e) := StateAfter(op, d, n); RunInv(op, d, pc, e)
  {
    if n > 0 {
      RunInvAfter(op, d, n - 1);
      var (pc, e) := StateAfter(op, d, n - 1);
      if !pc.Done? { RunInvStep(op, d, pc, e); }
    }
  }

  /** Outside `name` and its `old-` twin no step of any operation changes anything. */
  ghost predicate Framed(op: Op, cs: Containers, cs': Containers) {
    forall n :: n != op.name && n != OldName(op.name) ==>
      (n in cs <==> n in cs') && (n in cs ==> cs[n] == cs'[n])
  }

  lemma StepFramed(op: Op, pc: Pc, d: Daemon)
    requires !pc.Done?
    ensures Framed(op, d.containers, Step(op, pc, d).1.containers)
  {
  }

  lemma {:induction false} FramedAfter(op: Op, d: Daemon, n: nat)
    ensures Framed(op, d.containers, StateAfter(op, d, n).1.containers)
  {
    if n > 0 {
      FramedAfter(op, d, n - 1);
      var (pc, e) := StateAfter(op, d, n - 1);
      if !pc.Done? { StepFramed(op, pc, e); }
    }
  }

  /** A call can only bring in the operation's own name and its `old-` twin; a removal none. */
  lemma StepNames(op: Op, pc: Pc, d: Daemon)
    requires !pc.Done?
    ensures var cs := Step(op, pc, d).1.containers;
            forall n :: n in cs && n != op.name && n != OldName(op.name) ==> n in d.containers
    ensures pc in {InspectRemove, StopRemove, DeleteStopped} ==>
            Step(op, pc, d).1.containers.Keys <= d.containers.Keys
  {
  }

  /** A run cut off after `n` calls and then resumed ends as the uninterrupted run does. */
  lemma {:induction false} StateAfterResumes(op: Op, d: Daemon, n: nat)
    ensures var (pc, e) := StateAfter(op, d, n); Exec(op, pc, e) == Exec(op, op.start, d)
  {
    if n > 0 {
      StateAfterResumes(op, d, n - 1);
    }
  }

  /** Some container in `cs` is the one that `name` denoted before the run: same identity, image
      and command, under its own name or under the `old-` name. */
  predicate Kept(name: string, c: Container, cs: Containers) {
    exists n :: n in {name, OldName(name)} && n in cs && cs[n].(running := c.running) == c
  }

  /** docker.go:73-104.  However the calls fail and wherever the run is cut off, the container it
      started from is still there, or a created and started replacement answers to its name. */
  lemma UpdateNeverLosesContainer(op: Op, d: Daemon, n: nat)
    requires op.start == Inspect || op.start == ListRunning
    requires op.name in d.containers
    ensures var cs := StateAfter(op, d, n).1.containers;
            Framed(op, d.containers, cs) &&
            (Kept(op.name, d.containers[op.name], cs) || Up(cs, op.name, op.cfg))
  {
    FramedAfter(op, d, n);
    RunInvAfter(op, d, n);
    var c, cs := d.containers[op.name], StateAfter(op, d, n).1.containers;
    if op.name in cs && cs[op.name].(running := c.running) == c {
    } else if OldName(op.name) in cs && cs[OldName(op.name)].(running := c.running) == c {
    } else {
      assert Up(cs, op.name, op.cfg);
    }
  }

  /** docker.go:32-71: what a successful `DoRunContainer` did, in every case. */
  lemma RunOutcome(d: Daemon, name: string, cfg: Config, probe: bool)
    ensures var op := RunOp(name, cfg, probe); var (e, ok) := Exec(op, Inspect, d);
            ok ==> Ran(op, d, e.containers)
  {
    RunInvExec(RunOp(name, cfg, probe), d, Inspect, d);
    assert Exec(RunOp(name, cfg, probe), Inspect, d).1 ==>
      RunInv(RunOp(name, cfg, probe), d, Done(true), Exec(RunOp(name, cfg, probe), Inspect, d).0);
  }

  /** One successful call is enough exactly when the container was not stopped with another
      configuration. */
  lemma OneRunSuffices(d: Daemon, name: string, cfg: Config)
    requires RunContainer(d, name, cfg).1
    ensures Up(RunContainer(d, name, cfg).0.containers, name, cfg) <==>
            !(name in d.containers && !d.containers[name].running && !Matches(d.containers[name], cfg))
  {
    RunOutcome(d, name, cfg, false);
  }

  /** Where nothing fails, a container that is stopped with another configuration is started as it is:
      the run succeeds and the container is not as requested. */
  lemma StoppedIsStartedAsItIs(d: Daemon, name: string, cfg: Config)
    requires d.Quiet() && name in d.containers && !d.containers[name].running && !Matches(d.containers[name], cfg)
    ensures var (e, ok) := RunContainer(d, name, cfg); ok && !Up(e.containers, name, cfg)
  {
    var op := RunOp(name, cfg, false);
    var (pc, d1) := Step(op, Inspect, d);
    assert pc == StartStopped && d1.containers == d.containers;
    var (pc', d2) := Step(op, StartStopped, d1);
    assert pc' == Done(true);
    assert Exec(op, StartStopped, d1) == (d2, true);
    assert Exec(op, Inspect, d) == (d2, true);
    OneRunSuffices(d, name, cfg);
  }

  lemma TwoRunsSuffice(d: Daemon, name: string, cfg: Config)
    requires RunContainer(d, name, cfg).1
    requires RunContainer(RunContainer(d, name, cfg).0, name, cfg).1
    ensures Up(RunContainer(RunContainer(d, name, cfg).0, name, cfg).0.containers, name, cfg)
  {
    RunOutcome(d, name, cfg, false);
    RunOutcome(RunContainer(d, name, cfg).0, name, cfg, false);
  }

  /** The end of an operation that went well: its health check, if it has one. */
  function WellEnded(op: Op, d: Daemon): (Daemon, bool) { if op.probe then Query(d) else (d, true) }

  lemma FinishSteps(op: Op, d: Daemon)
    ensures Exec(op, Finish(op), d) == WellEnded(op, d)
  {
    if op.probe { ExecStep(op, Probe, d); }
  }

  lemma CheckWhenUp(op: Op, d: Daemon)
    requires Up(d.containers, op.name, op.cfg)
    ensures var d1 := d.After(d.containers);
            Exec(op, InspectUpgrade, d) == if d.Fails() then (d1, false) else WellEnded(op, d1)
  {
    ExecStep(op, InspectUpgrade, d);
    FinishSteps(op, d.After(d.containers));
  }

  lemma InspectWhenUp(op: Op, d: Daemon)
    requires Up(d.containers, op.name, op.cfg)
    ensures var d1 := d.After(d.containers);
            var d2 := d1.After(d.containers);
            Exec(op, Inspect, d) ==
              if d.Fails() then (d1, false) else if d1.Fails() then (d2, false) else WellEnded(op, d2)
  {
    ExecStep(op, Inspect, d);
    CheckWhenUp(op, d.After(d.containers));
  }

  /** Once the container is up, no further run changes anything, whatever fails: it makes two calls, and
      a third for the health check of a service, and succeeds exactly when none of them fails. */
  lemma RunWhenUpChangesNothing(d: Daemon, name: string, cfg: Config, probe: bool)
    requires Up(d.containers, name, cfg)
    ensures var (e, ok) := Exec(RunOp(name, cfg, probe), Inspect, d);
            var healthy := !d.faults(d.calls) && !d.faults(d.calls + 1) && (probe ==> !d.faults(d.calls + 2));
            e.containers == d.containers && (ok <==> healthy) && (ok ==> e.calls == d.calls + if probe then 3 else 2)
  {
    InspectWhenUp(RunOp(name, cfg, probe), d);
  }

  /** docker.go:288-303: a successful run replaces a running container exactly when its image or
      its command differs from the requested one. */
  lemma ReplacedExactlyWhenDifferent(d: Daemon, name: string, cfg: Config)
    requires d.Valid() && name in d.containers && d.containers[name].running
    requires RunContainer(d, name, cfg).1
    ensures var cs := RunContainer(d, name, cfg).0.containers;
            name in cs && (cs[name].id != d.containers[name].id <==> !Matches(d.containers[name], cfg))
  {
    RunOutcome(d, name, cfg, false);
  }

  // ---------------------------------------------------------------- the other operations

  /** docker.go:106-130: a successful removal leaves exactly the other containers. */
  lemma RemoveOutcome(d: Daemon, name: string)
    ensures var (e, ok) := Exec(RemoveOp(name), InspectRemove, d);
            (ok ==> e.containers == d.containers - {name}) && (!ok ==> e.containers.Keys == d.containers.Keys) &&
            (d.Quiet() ==> ok && e.Quiet())
  {
    var op := RemoveOp(name);
    var (pc1, d1) := Step(op, InspectRemove, d);
    if pc1 == StopRemove {
      StopAndDelete(op, d1);
    } else {
      assert name !in d.containers ==> d.containers - {name} == d.containers;
    }
  }

  lemma StopAndDelete(op: Op, d: Daemon)
    requires op.name in d.containers
    ensures var (e, ok) := Exec(op, StopRemove, d);
            (ok ==> e.containers == d.containers - {op.name}) && (!ok ==> e.containers.Keys == d.containers.Keys) &&
            (d.Quiet() ==> ok && e.Quiet())
  {
    var (pc, d1) := Step(op, StopRemove, d);
    if pc == DeleteStopped {
      var (pc', d2) := Step(op, pc, d1);
      assert Exec(op, pc, d1) == Exec(op, pc', d2);
    }
    assert Exec(op, StopRemove, d) == Exec(op, pc, d1);
  }

  lemma SidekickCreated(op: Op, d: Daemon)
    requires op.name !in d.containers
    ensures var (e, ok) := Exec(op, PullSidekick, d);
            ok ==> e.containers == d.containers[op.name := Container(d.calls + 1, op.cfg.image, op.cfg.cmd, false)]
  {
    var (pc, d1) := Step(op, PullSidekick, d);
    assert Exec(op, PullSidekick, d) == Exec(op, pc, d1);
    if pc == CreateSidekick {
      var (pc', d2) := Step(op, pc, d1);
      assert Exec(op, pc, d1) == Exec(op, pc', d2);
    }
  }

  /** services.go:64-81: the sidekick is created once and never started. */
  lemma SidekickOutcome(d: Daemon, name: string, image: string)
    ensures var (e, ok) := Exec(SidekickOp(name, image), ListAll, d);
            ok ==> if name in d.containers then e.containers == d.containers
                   else name in e.containers && Matches(e.containers[name], Config(image, [])) &&
                        !e.containers[name].running && d.calls <= e.containers[name].id &&
                        e.containers == d.containers[name := e.containers[name]]
  {
    var op := SidekickOp(name, image);
    var (pc, d1) := Step(op, ListAll, d);
    assert Exec(op, ListAll, d) == Exec(op, pc, d1);
    if pc == PullSidekick { SidekickCreated(op, d1); }
  }

  /** How an operation was entered does not affect the rest of its run. */
  lemma {:induction false} StartIsIrrelevant(op: Op, op': Op, pc: Pc, d: Daemon)
    requires op' == op.(start := op'.start)
    ensures Exec(op, pc, d) == Exec(op', pc, d)
    decreases Rank(pc)
  {
    if !pc.Done? {
      assert Step(op, pc, d) == Step(op', pc, d);
      StepProgress(op, pc, d);
      var (pc', d') := Step(op, pc, d);
      StartIsIrrelevant(op, op', pc', d');
    }
  }

  /** docker.go:265-274: a failed wait is reported as success, without the rename. */
  function StopRename(d: Daemon, name: string, to: string): (Daemon, bool) {
    var (d1, stopped) := Stop(d, name);
    if !stopped then (d1, false) else
    var (d2, waited) := Stop(d1, name);
    if !waited then (d2, true) else Rename(d2, name, to)
  }

  lemma StopRenameIsSteps(op: Op, d: Daemon)
    ensures var (e, ok) := StopRename(d, op.name, OldName(op.name));
            Exec(op, StopOld, d) == if ok then Exec(op, CreateReplacement, e) else (e, false)
  {
    var (pc1, d1) := Step(op, StopOld, d);
    assert Exec(op, StopOld, d) == Exec(op, pc1, d1);
    if pc1 == WaitOld {
      var (pc2, d2) := Step(op, WaitOld, d1);
      assert Exec(op, WaitOld, d1) == Exec(op, pc2, d2);
      if pc2 == RenameOld {
        var (pc3, d3) := Step(op, RenameOld, d2);
        assert Exec(op, RenameOld, d2) == Exec(op, pc3, d3);
      }
    }
  }

  /** docker.go:265-274: nil means that the container was renamed exactly when the wait did not fail. */
  lemma NilMeansRenamed(d: Daemon, name: string)
    requires StopRename(d, name, OldName(name)).1
    ensures var cs := StopRename(d, name, OldName(name)).0.containers;
            (name !in cs && OldName(name) in cs) <==> !d.faults(d.calls + 1)
  {
    var d1 := Stop(d, name).0;
    assert d1.calls == d.calls + 1 && name in d1.containers;
  }

  /** docker.go:269-271: when the stop succeeds and the wait fails, nil is returned without a rename; the
      creation that follows then fails, and the original stays, stopped, under its own name. */
  lemma SwallowedWaitFailsLater(op: Op, d: Daemon)
    requires op.name in d.containers && !d.Fails() && d.faults(d.calls + 1)
    ensures var stopped := d.containers[op.name := d.containers[op.name].(running := false)];
            var (e, ok) := StopRename(d, op.name, OldName(op.name));
            var (e', ok') := Exec(op, StopOld, d);
            ok && e.containers == stopped && !ok' && e'.containers == stopped
  {
    StopRenameIsSteps(op, d);
    var e := StopRename(d, op.name, OldName(op.name)).0;
    var (pc, e') := Step(op, CreateReplacement, e);
    assert pc == Done(false) && Exec(op, CreateReplacement, e) == (e', false);
  }

  /** A service's run is the container's run followed by its health check. */
  lemma {:induction false} ProbeComesLast(name: string, cfg: Config, pc: Pc, d: Daemon)
    requires !pc.Done? && pc != Probe && Rank(pc) >= 2
    requires pc !in {InspectRemove, StopRemove, ListAll, PullSidekick}
    ensures var (e, ok) := Exec(RunOp(name, cfg, false), pc, d);
            Exec(RunOp(name, cfg, true), pc, d) == if ok then Query(e) else (e, false)
    decreases Rank(pc)
  {
    StepProgress(RunOp(name, cfg, false), pc, d);
    var (pc', d') := Step(RunOp(name, cfg, false), pc, d);
    var (pc'', d'') := Step(RunOp(name, cfg, true), pc, d);
    assert d' == d'';
    if pc' == Done(true) {
      assert pc'' == Probe;
      assert Exec(RunOp(name, cfg, true), Probe, d') == Query(d');
    } else if pc'.Done? {
    } else {
      ProbeComesLast(name, cfg, pc', d');
    }
  }

  // ---------------------------------------------------------------- the source's methods

  class Client {
    var containers: Containers
    var calls: nat
    const faults: nat -> bool

    constructor (faults: nat -> bool)
      ensures containers == map[] && calls == 0 && this.faults == faults
    {
      containers, calls, this.faults := map[], 0, faults;
    }

    function D(): Daemon
      reads this
    {
      Daemon(containers, calls, faults)
    }

    /** One remote call with the given answer. */
    method Call(r: (Daemon, bool)) returns (ok: bool)
      requires r.0.faults == faults
      modifies this
      ensures (D(), ok) == r
    {
      containers, calls, ok := r.0.containers, r.0.calls, r.1;
    }

    method DoRunContainer(name: string, cfg: Config) returns (ok: bool)
      modifies this
      ensures (D(), ok) == RunContainer(old(D()), name, cfg)
    {
      ghost var op, all := RunOp(name, cfg, false), RunContainer(D(), name, cfg);
      ExecStep(op, Inspect, D());
      ok := Call(Query(D()));
      if !ok { return; }
      if name !in containers {
        assert all == Exec(op, PullNew, D());
        ExecStep(op, PullNew, D());
        ok := Call(Query(D()));
        if !ok { return; }
        assert all == Exec(op, CreateNew, D());
        ExecStep(op, CreateNew, D());
        ok := Call(Create(D(), name, cfg));
        if !ok { return; }
        assert all == Exec(op, StartNew, D());
        ExecStep(op, StartNew, D());
        ok := Call(Start(D(), name));
        return;
      }
      if containers[name].running {
        assert all == Exec(op, InspectUpgrade, D());
        ExecStep(op, InspectUpgrade, D());
        var upgradable;
        ok, upgradable := IsContainerUpgradable(name, cfg);
        if !ok { return; }
        if upgradable {
          assert all == Exec(op, ListRunning, D());
          ExecStep(op, ListRunning, D());
          StartIsIrrelevant(op, RollOp(name, cfg), ListRunning, D());
          ok := DoRollingUpdateContainer(name, cfg);
        }
        return;
      }
      assert all == Exec(op, StartStopped, D());
      ExecStep(op, StartStopped, D());
      ok := Call(Start(D(), name));
    }

    method IsContainerUpgradable(name: string, cfg: Config) returns (ok: bool, upgradable: bool)
      modifies this
      ensures D() == old(D()).After(old(containers))
      ensures ok <==> !old(D().Fails()) && name in containers
      ensures ok ==> (upgradable <==> !Matches(containers[name], cfg))
    {
      ok := Call(Query(D()));
      if !ok || name !in containers { ok, upgradable := false, false; return; }
      upgradable := containers[name].image != cfg.image || containers[name].cmd != cfg.cmd;
    }

    method DoRollingUpdateContainer(name: string, cfg: Config) returns (ok: bool)
      modifies this
      ensures (D(), ok) == Exec(RollOp(name, cfg), ListRunning, old(D()))
    {
      ghost var op, all := RollOp(name, cfg), Exec(RollOp(name, cfg), ListRunning, D());
      ExecStep(op, ListRunning, D());
      ok := Call(Query(D()));
      if !ok { return; }
      if !(name in containers && containers[name].running) { return; }
      assert all == Exec(op, PullUpgrade, D());
      ExecStep(op, PullUpgrade, D());
      ok := Call(Query(D()));
      if !ok { return; }
      assert all == Exec(op, StopOld, D());
      ExecStep(op, StopOld, D());
      StopRenameIsSteps(op, D());
      ok := StopRenameContainer(name, OldName(name));
      if !ok { return; }
      assert all == Exec(op, CreateReplacement, D());
      ExecStep(op, CreateReplacement, D());
      ok := ReplaceRenamed(name, cfg);
    }

    /** docker.go:89-103 */
    method ReplaceRenamed(name: string, cfg: Config) returns (ok: bool)
      modifies this
      ensures (D(), ok) == Exec(RollOp(name, cfg), CreateReplacement, old(D()))
    {
      ghost var op, all := RollOp(name, cfg), Exec(RollOp(name, cfg), CreateReplacement, D());
      ExecStep(op, CreateReplacement, D());
      ok := Call(Create(D(), name, cfg));
      if !ok { return; }
      assert all == Exec(op, StartReplacement, D());
      ExecStep(op, StartReplacement, D());
      ok := Call(Start(D(), name));
      if !ok { return; }
      assert all == Exec(op, RemoveOld, D());
      ExecStep(op, RemoveOld, D());
      ok := Call(Delete(D(), OldName(name)));
    }

    method StopRenameContainer(name: string, to: string) returns (ok: bool)
      modifies this
      ensures (D(), ok) == StopRename(old(D()), name, to)
    {
      ok := Call(Stop(D(), name));
      if !ok { return; }
      var waited := Call(Stop(D(), name));
      if !waited { return; }
      ok := Call(Rename(D(), name, to));
    }

    method DoRemoveContainer(name: string) returns (ok: bool)
      modifies this
      ensures (D(), ok) == Exec(RemoveOp(name), InspectRemove, old(D()))
    {
      ghost var op, all := RemoveOp(name), Exec(RemoveOp(name), InspectRemove, D());
      ExecStep(op, InspectRemove, D());
      ok := Call(Query(D()));
      if !ok { return; }
      if name !in containers { return; }
      assert all == Exec(op, StopRemove, D());
      ExecStep(op, StopRemove, D());
      ok := Call(Stop(D(), name));
      if !ok { return; }
      assert all == Exec(op, DeleteStopped, D());
      ExecStep(op, DeleteStopped, D());
      ok := Call(Delete(D(), name));
    }

    /** docker.go:132-145 */
    method IsContainerRunning(name: string, all: bool) returns (ok: bool, listed: bool)
      modifies this
      ensures (D(), ok) == Query(old(D()))
      ensures ok ==> (listed <==> name in containers && (all || containers[name].running))
    {
      ok := Call(Query(D()));
      listed := ok && name in containers && (all || containers[name].running);
    }

    /** services.go:64-81 */
    method RunSidekick(name: string, image: string) returns (ok: bool)
      modifies this
      ensures (D(), ok) == Exec(SidekickOp(name, image), ListAll, old(D()))
    {
      ghost var op, whole := SidekickOp(name, image), Exec(SidekickOp(name, image), ListAll, D());
      ExecStep(op, ListAll, D());
      var listed;
      ok, listed := IsContainerRunning(name, true);
      if !ok || listed { return; }
      assert whole == Exec(op, PullSidekick, D());
      ExecStep(op, PullSidekick, D());
      ok := Call(Query(D()));
      if !ok { return; }
      assert whole == Exec(op, CreateSidekick, D());
      ExecStep(op, CreateSidekick, D());
      ok := Call(Create(D(), name, Config(image, [])));
    }

    /** docker.go:276-286 and docker.go:218-224 */
    method WaitForContainer(name: string) returns (ok: bool)
      modifies this
      ensures (D(), ok) == Exec(AwaitOp(name), AwaitExit, old(D()))
    {
      ExecStep(AwaitOp(name), AwaitExit, D());
      ok := Call(Stop(D(), name));
    }

    method RemoveContainer(name: string) returns (ok: bool)
      modifies this
      ensures (D(), ok) == Exec(DiscardOp(name), Discard, old(D()))
    {
      ExecStep(DiscardOp(name), Discard, D());
      ok := Call(Delete(D(), name));
    }

    /** A service with a health check: kubeapi.go:14-21 and its siblings. */
    method RunService(name: string, cfg: Config) returns (ok: bool)
      modifies this
      ensures (D(), ok) == Exec(RunOp(name, cfg, true), Inspect, old(D()))
    {
      ProbeComesLast(name, cfg, Inspect, D());
      ok := DoRunContainer(name, cfg);
      if !ok { return; }
      ok := Call(Query(D()));
    }
  }
}
