/** The plane deployers: one goroutine per host, errgroup barriers between phases
    (services/controlplane.go:15-26, services/workerplane.go:16-57).

    A world holds every host's daemon and the work each goroutine still has to run.  Any goroutine
    may make the next remote call.  The main results compare every such run with the sequential
    deployment that finishes one host before it touches the next. */
module Planes {
  import opened Docker

  // ---------------------------------------------------------------- one goroutine

  /** The operations of one host in order, stopping at the first error. */
  function ExecAll(ops: seq<Op>, d: Daemon): (r: (Daemon, bool))
    ensures r.0.faults == d.faults && r.0.calls >= d.calls
  {
    if ops == [] then (d, true)
    else
      var (e, ok) := Exec(ops[0], ops[0].start, d);
      if ok then ExecAll(ops[1..], e) else (e, false)
  }

  lemma {:induction false} ExecAllConcat(a: seq<Op>, b: seq<Op>, d: Daemon)
    ensures var (e, ok) := ExecAll(a, d);
            ExecAll(a + b, d) == if ok then ExecAll(b, e) else (e, false)
  {
    if a == [] {
      assert a + b == b;
    } else {
      assert (a + b)[1..] == a[1..] + b;
      ExecAllConcat(a[1..], b, Exec(a[0], a[0].start, d).0);
    }
  }

  datatype Task = Running(ops: seq<Op>, pc: Pc) | Finished(ok: bool) {
    predicate Valid() { Running? ==> ops != [] && !pc.Done? }
  }

  /** A task whose first operation has reached `pc`. */
  function Advance(ops: seq<Op>, pc: Pc): (t: Task)
    requires ops != []
    ensures t.Valid()
    decreases |ops|, 0
  {
    if !pc.Done? then Running(ops, pc)
    else if !pc.ok then Finished(false)
    else Begin(ops[1..])
  }

  function Begin(ops: seq<Op>): (t: Task)
    ensures t.Valid()
    decreases |ops|, 1
  {
    if ops == [] then Finished(true) else Advance(ops, ops[0].start)
  }

  /** One remote call of a goroutine. */
  function TaskStep(t: Task, d: Daemon): (Task, Daemon)
    requires t.Valid() && t.Running?
  {
    var (pc, e) := Step(t.ops[0], t.pc, d);
    (Advance(t.ops, pc), e)
  }

  /** What a task still has to do, done without interruption. */
  function Remaining(t: Task, d: Daemon): (Daemon, bool)
    requires t.Valid()
  {
    match t
    case Finished(ok) => (d, ok)
    case Running(ops, pc) =>
      var (e, ok) := Exec(ops[0], pc, d);
      if ok then ExecAll(ops[1..], e) else (e, false)
  }

  lemma {:induction false} BeginRemaining(ops: seq<Op>, d: Daemon)
    ensures Remaining(Begin(ops), d) == ExecAll(ops, d)
    decreases |ops|, 1
  {
    if ops != [] {
      AdvanceRemaining(ops, ops[0].start, d);
    }
  }

  lemma {:induction false} AdvanceRemaining(ops: seq<Op>, pc: Pc, d: Daemon)
    requires ops != []
    ensures var (e, ok) := Exec(ops[0], pc, d);
            Remaining(Advance(ops, pc), d) == if ok then ExecAll(ops[1..], e) else (e, false)
    decreases |ops|, 0
  {
    if pc.Done? && pc.ok {
      BeginRemaining(ops[1..], d);
    }
  }

  /** A remote call does not change where its goroutine is heading. */
  lemma StepKeepsRemaining(t: Task, d: Daemon)
    requires t.Valid() && t.Running?
    ensures var (t', d') := TaskStep(t, d); Remaining(t', d') == Remaining(t, d)
  {
    var (pc, e) := Step(t.ops[0], t.pc, d);
    AdvanceRemaining(t.ops, pc, e);
  }

  // ---------------------------------------------------------------- phases and runs

  datatype Job = Job(host: string, ops: seq<Op>)
  type Phase = seq<Job>
  type Plan = seq<Phase>

  ghost predicate DistinctHosts(p: Phase) {
    forall i, j :: 0 <= i < j < |p| ==> p[i].host != p[j].host
  }

  function HostsOf(p: Phase): set<string> { set job | job in p :: job.host }

  /** The operations phase `p` has for `host`: none when it has no job there. */
  function OpsOf(p: Phase, host: string): seq<Op> {
    if p == [] then [] else if p[0].host == host then p[0].ops else OpsOf(p[1..], host)
  }

  function TasksOf(p: Phase): map<string, Task> { map h | h in HostsOf(p) :: Begin(OpsOf(p, h)) }

  datatype World = World(daemons: map<string, Daemon>, phase: nat, tasks: map<string, Task>)

  ghost predicate StepBy(w: World, h: string, w': World) {
    h in w.tasks && h in w.daemons && w.tasks[h].Valid() && w.tasks[h].Running? &&
    var (t, d) := TaskStep(w.tasks[h], w.daemons[h]);
    w' == World(w.daemons[h := d], w.phase, w.tasks[h := t])
  }

  ghost predicate AllFinished(w: World, ok: bool) { forall h :: h in w.tasks ==> w.tasks[h] == Finished(ok) }

  ghost predicate Settled(w: World) { forall h :: h in w.tasks ==> w.tasks[h].Finished? }

  /** errgroup.Wait returned nil and the next phase starts its goroutines. */
  ghost predicate Barrier(plan: Plan, w: World, w': World) {
    AllFinished(w, true) && w.phase + 1 < |plan| &&
    w' == World(w.daemons, w.phase + 1, TasksOf(plan[w.phase + 1]))
  }

  ghost predicate Next(plan: Plan, w: World, w': World) {
    Barrier(plan, w, w') || exists h :: StepBy(w, h, w')
  }

  ghost predicate WellFormed(plan: Plan, ds: map<string, Daemon>) {
    plan != [] && forall k :: 0 <= k < |plan| ==> DistinctHosts(plan[k]) && HostsOf(plan[k]) <= ds.Keys
  }

  ghost predicate IsRun(plan: Plan, ds: map<string, Daemon>, ws: seq<World>) {
    WellFormed(plan, ds) && ws != [] && ws[0] == World(ds, 0, TasksOf(plan[0])) &&
    forall i :: 0 <= i < |ws| - 1 ==> Next(plan, ws[i], ws[i + 1])
  }

  /** Nothing more will happen: the last phase is over, or a phase is over and some host failed. */
  ghost predicate Ended(plan: Plan, w: World) {
    Settled(w) && (w.phase + 1 >= |plan| || !AllFinished(w, true))
  }

  // ---------------------------------------------------------------- one host after another

  function SequentialPhase(p: Phase, ds: map<string, Daemon>): (r: (map<string, Daemon>, bool))
    requires HostsOf(p) <= ds.Keys
    ensures r.0.Keys == ds.Keys
  {
    if p == [] then (ds, true)
    else
      assert p[0].host in HostsOf(p) && HostsOf(p[1..]) <= HostsOf(p);
      var (d, ok) := ExecAll(p[0].ops, ds[p[0].host]);
      var (r, rest) := SequentialPhase(p[1..], ds[p[0].host := d]);
      (r, ok && rest)
  }

  /** The first `k` phases; a failed phase is the last one. */
  function Sequential(plan: Plan, k: nat, ds: map<string, Daemon>): (r: (map<string, Daemon>, bool))
    requires k <= |plan| && forall i :: 0 <= i < |plan| ==> HostsOf(plan[i]) <= ds.Keys
    ensures r.0.Keys == ds.Keys
  {
    if k == 0 then (ds, true)
    else
      var (e, ok) := Sequential(plan, k - 1, ds);
      if ok then SequentialPhase(plan[k - 1], e) else (e, false)
  }

  lemma OpsOfAbsent(p: Phase, h: string)
    requires h !in HostsOf(p)
    ensures OpsOf(p, h) == []
  {
    if p != [] {
      assert p[0] in p;
      assert HostsOf(p[1..]) <= HostsOf(p);
    }
  }

  /** Per host, the sequential phase is that host's own operations and nothing else. */
  lemma {:induction false} SequentialPhaseAt(p: Phase, ds: map<string, Daemon>)
    requires HostsOf(p) <= ds.Keys && DistinctHosts(p)
    ensures var (r, ok) := SequentialPhase(p, ds);
            (forall h :: h in ds ==> r[h] == ExecAll(OpsOf(p, h), ds[h]).0) &&
            (ok <==> forall h :: h in HostsOf(p) ==> ExecAll(OpsOf(p, h), ds[h]).1)
  {
    if p != [] {
      var h0, rest := p[0].host, p[1..];
      assert p[0] in p && HostsOf(rest) <= HostsOf(p);
      assert HostsOf(p) == {h0} + HostsOf(rest);
      var (d, ok) := ExecAll(p[0].ops, ds[h0]);
      SequentialPhaseAt(rest, ds[h0 := d]);
      assert h0 !in HostsOf(rest);
      OpsOfAbsent(rest, h0);
      var (r, restOk) := SequentialPhase(rest, ds[h0 := d]);
      assert SequentialPhase(p, ds) == (r, ok && restOk);
      forall h | h in ds ensures r[h] == ExecAll(OpsOf(p, h), ds[h]).0 {
      }
      assert restOk <==> forall h :: h in HostsOf(rest) ==> ExecAll(OpsOf(rest, h), ds[h]).1;
    }
  }

  lemma {:induction false} SequentialStuck(plan: Plan, j: nat, k: nat, ds: map<string, Daemon>)
    requires j <= k <= |plan| && forall i :: 0 <= i < |plan| ==> HostsOf(plan[i]) <= ds.Keys
    requires !Sequential(plan, j, ds).1
    ensures Sequential(plan, k, ds) == Sequential(plan, j, ds)
    decreases k
  {
    if j < k {
      SequentialStuck(plan, j, k - 1, ds);
    }
  }

  // ---------------------------------------------------------------- every interleaving

  /** All earlier phases succeeded on every host, a host with no job in this phase is exactly as
      they left it, and a host with a job will end as if it were deployed alone. */
  ghost predicate OnCourse(plan: Plan, ds: map<string, Daemon>, w: World) {
    WellFormed(plan, ds) && w.phase < |plan| && w.daemons.Keys == ds.Keys &&
    var (base, ok) := Sequential(plan, w.phase, ds);
    var p := plan[w.phase];
    ok && w.tasks.Keys == HostsOf(p) &&
    (forall h :: h in w.tasks ==> w.tasks[h].Valid()) &&
    (forall h :: h in ds && h !in w.tasks ==> w.daemons[h] == base[h]) &&
    (forall h :: h in w.tasks ==> Remaining(w.tasks[h], w.daemons[h]) == ExecAll(OpsOf(p, h), base[h]))
  }

  lemma OnCourseStart(plan: Plan, ds: map<string, Daemon>, k: nat)
    requires WellFormed(plan, ds) && k < |plan| && Sequential(plan, k, ds).1
    ensures OnCourse(plan, ds, World(Sequential(plan, k, ds).0, k, TasksOf(plan[k])))
  {
    var base := Sequential(plan, k, ds).0;
    forall h | h in HostsOf(plan[k])
      ensures Remaining(Begin(OpsOf(plan[k], h)), base[h]) == ExecAll(OpsOf(plan[k], h), base[h])
    {
      BeginRemaining(OpsOf(plan[k], h), base[h]);
    }
  }

  /** A phase whose tasks have all ended has ended as the sequential phase does. */
  lemma PhaseEnd(plan: Plan, ds: map<string, Daemon>, w: World)
    requires OnCourse(plan, ds, w) && Settled(w)
    ensures Sequential(plan, w.phase + 1, ds) == (w.daemons, AllFinished(w, true))
  {
    var base, p := Sequential(plan, w.phase, ds).0, plan[w.phase];
    SequentialPhaseAt(p, base);
    var (r, ok) := SequentialPhase(p, base);
    forall h | h in ds ensures r[h] == w.daemons[h] {
      if h !in w.tasks { OpsOfAbsent(p, h); }
    }
    assert r == w.daemons;
  }

  lemma OnCourseStep(plan: Plan, ds: map<string, Daemon>, w: World, h: string, w': World)
    requires OnCourse(plan, ds, w) && StepBy(w, h, w')
    ensures OnCourse(plan, ds, w')
  {
    var base, p := Sequential(plan, w.phase, ds).0, plan[w.phase];
    StepKeepsRemaining(w.tasks[h], w.daemons[h]);
    assert w'.tasks.Keys == w.tasks.Keys && w'.daemons.Keys == w.daemons.Keys;
    forall g | g in w'.tasks
      ensures w'.tasks[g].Valid() &&
              Remaining(w'.tasks[g], w'.daemons[g]) == ExecAll(OpsOf(p, g), base[g])
    {
      if g != h { assert w'.tasks[g] == w.tasks[g] && w'.daemons[g] == w.daemons[g]; }
    }
  }

  lemma OnCourseBarrier(plan: Plan, ds: map<string, Daemon>, w: World, w': World)
    requires OnCourse(plan, ds, w) && Barrier(plan, w, w')
    ensures OnCourse(plan, ds, w')
  {
    PhaseEnd(plan, ds, w);
    OnCourseStart(plan, ds, w.phase + 1);
  }

  lemma OnCourseNext(plan: Plan, ds: map<string, Daemon>, w: World, w': World)
    requires OnCourse(plan, ds, w) && Next(plan, w, w')
    ensures OnCourse(plan, ds, w')
  {
    if Barrier(plan, w, w') {
      OnCourseBarrier(plan, ds, w, w');
    } else {
      var h :| StepBy(w, h, w');
      OnCourseStep(plan, ds, w, h, w');
    }
  }

  /** controlplane.go:15-23, workerplane.go:21-54: at every point of every run no later phase has
      begun before the earlier ones finished everywhere without an error. */
  lemma {:induction false} EveryRunStaysOnCourse(plan: Plan, ds: map<string, Daemon>, ws: seq<World>, i: nat)
    requires IsRun(plan, ds, ws) && i < |ws|
    ensures OnCourse(plan, ds, ws[i])
  {
    if i == 0 {
      OnCourseStart(plan, ds, 0);
    } else {
      EveryRunStaysOnCourse(plan, ds, ws, i - 1);
      assert Next(plan, ws[i - 1], ws[i - 1 + 1]);
      OnCourseNext(plan, ds, ws[i - 1], ws[i]);
    }
  }

  /** Every complete interleaving, with or without failing hosts, leaves every host as the
      sequential deployment does and reports the same verdict. */
  lemma InterleavingIsSequential(plan: Plan, ds: map<string, Daemon>, ws: seq<World>)
    requires IsRun(plan, ds, ws) && Ended(plan, ws[|ws| - 1])
    ensures var w := ws[|ws| - 1];
            Sequential(plan, |plan|, ds) == (w.daemons, AllFinished(w, true))
  {
    var w := ws[|ws| - 1];
    EveryRunStaysOnCourse(plan, ds, ws, |ws| - 1);
    PhaseEnd(plan, ds, w);
    if !AllFinished(w, true) {
      SequentialStuck(plan, w.phase + 1, |plan|, ds);
    }
  }

  // ---------------------------------------------------------------- sequential planes

  /** An operation of a loop over hosts.  When it fails the source returns the error, or, where
      `swallow` is set, returns nil. */
  datatype Guarded = Guarded(op: Op, swallow: bool)

  datatype Outcome = Completed | Failed | Quit

  function ExecGuarded(work: seq<Guarded>, d: Daemon): (r: (Daemon, Outcome))
    ensures r.0.faults == d.faults
  {
    if work == [] then (d, Completed)
    else
      var (e, ok) := Exec(work[0].op, work[0].op.start, d);
      if ok then ExecGuarded(work[1..], e)
      else (e, if work[0].swallow then Quit else Failed)
  }

  /** The loop body for one host; with `stop` the source returns nil as soon as it gets there. */
  datatype Visit = Visit(stop: bool, work: seq<Guarded>)

  function Sweep(visits: seq<Visit>, ds: seq<Daemon>): (r: (seq<Daemon>, Outcome))
    requires |visits| == |ds|
    ensures |r.0| == |ds|
  {
    if visits == [] then ([], Completed)
    else if visits[0].stop then (ds, Quit)
    else
      var (d, o) := ExecGuarded(visits[0].work, ds[0]);
      if o != Completed then ([d] + ds[1..], o)
      else
        var (rest, o') := Sweep(visits[1..], ds[1..]);
        ([d] + rest, o')
  }

  function Must(op: Op): Guarded { Guarded(op, false) }
  function Lenient(op: Op): Guarded { Guarded(op, true) }

  /** The names a list of removals takes away. */
  function Removed(work: seq<Guarded>): set<string> { set g | g in work :: g.op.name }

  predicate OnlyRemovals(work: seq<Guarded>) { forall g :: g in work ==> g.op == RemoveOp(g.op.name) }

  /** The position of the first removal that fails; the length of the list when none does. */
  function FirstFailing(work: seq<Guarded>, d: Daemon): (k: nat)
    ensures k <= |work|
  {
    if work == [] then 0
    else
      var (e, ok) := Exec(work[0].op, work[0].op.start, d);
      if ok then 1 + FirstFailing(work[1..], e) else 0
  }

  /** The first removal that fails is one whose error is turned into nil. */
  predicate Swallowed(work: seq<Guarded>, d: Daemon) {
    var k := FirstFailing(work, d);
    k < |work| && work[k].swallow
  }

  lemma RemovedCons(g: Guarded, rest: seq<Guarded>)
    ensures Removed([g] + rest) == {g.op.name} + Removed(rest)
  {
    var work := [g] + rest;
    assert work[0] == g && g in work;
    forall x | x in rest ensures x in work {
    }
  }

  lemma DropInTurn(cs: Containers, a: set<string>, b: set<string>)
    ensures cs - a - b == cs - (a + b)
  {
  }

  /** Whatever else failed: removals that completed took away exactly their names. */
  lemma {:induction false} CompletedRemovals(work: seq<Guarded>, d: Daemon)
    requires OnlyRemovals(work) && ExecGuarded(work, d).1 == Completed
    ensures ExecGuarded(work, d).0.containers == d.containers - Removed(work)
  {
    if work != [] {
      var g, rest := work[0], work[1..];
      assert g in work && work == [g] + rest;
      RemoveOutcome(d, g.op.name);
      CompletedRemovals(rest, Exec(g.op, g.op.start, d).0);
      RemovedCons(g, rest);
      DropInTurn(d.containers, {g.op.name}, Removed(rest));
    }
  }

  /** The outcome names the first failure: none, one that is reported or one that is swallowed. */
  lemma {:induction false} RemovalsOutcome(work: seq<Guarded>, d: Daemon)
    ensures var o, k := ExecGuarded(work, d).1, FirstFailing(work, d);
            (o == Completed <==> k == |work|) && (o == Quit <==> Swallowed(work, d))
  {
    if work != [] {
      RemovalsOutcome(work[1..], Exec(work[0].op, work[0].op.start, d).0);
    }
  }

  /** Exactly the containers named before the first failing removal are gone. */
  lemma {:induction false} RemovalsLeave(work: seq<Guarded>, d: Daemon)
    requires OnlyRemovals(work)
    ensures ExecGuarded(work, d).0.containers.Keys == d.containers.Keys - Removed(work[..FirstFailing(work, d)])
  {
    if work != [] {
      var g, rest := work[0], work[1..];
      var (e, ok) := Exec(g.op, g.op.start, d);
      assert g in work && work == [g] + rest;
      RemoveOutcome(d, g.op.name);
      if ok {
        RemovalsLeave(rest, e);
        var k := FirstFailing(rest, e);
        assert work[..k + 1] == [g] + rest[..k];
        RemovedCons(g, rest[..k]);
      }
    }
  }

  /** Without failures a list of removals completes. */
  lemma {:induction false} QuietRemovals(work: seq<Guarded>, d: Daemon)
    requires OnlyRemovals(work) && d.Quiet()
    ensures var (e, o) := ExecGuarded(work, d); o == Completed && e.Quiet()
  {
    if work != [] {
      assert work[0] in work;
      RemoveOutcome(d, work[0].op.name);
      QuietRemovals(work[1..], Exec(work[0].op, work[0].op.start, d).0);
    }
  }

  predicate AllRemovals(visits: seq<Visit>) { forall i :: 0 <= i < |visits| ==> OnlyRemovals(visits[i].work) }

  /** The first host whose visit ends the loop or does not complete. */
  function FirstUnfinished(visits: seq<Visit>, ds: seq<Daemon>): (k: nat)
    requires |visits| == |ds|
    ensures k <= |ds|
  {
    if visits == [] || visits[0].stop || ExecGuarded(visits[0].work, ds[0]).1 != Completed then 0
    else 1 + FirstUnfinished(visits[1..], ds[1..])
  }

  /** The first `k` hosts lost exactly the containers their visits name. */
  ghost predicate ClearedTo(visits: seq<Visit>, ds: seq<Daemon>, es: seq<Daemon>, k: nat) {
    |visits| == |ds| == |es| && k <= |ds| &&
    forall i :: 0 <= i < k ==> es[i].containers == ds[i].containers - Removed(visits[i].work)
  }

  lemma {:induction false} SweepCons(visits: seq<Visit>, ds: seq<Daemon>)
    requires |visits| == |ds| && visits != [] && !visits[0].stop
    requires ExecGuarded(visits[0].work, ds[0]).1 == Completed
    ensures var (es, o) := Sweep(visits, ds); var (rest, o') := Sweep(visits[1..], ds[1..]);
            o == o' && es == [ExecGuarded(visits[0].work, ds[0]).0] + rest
    ensures FirstUnfinished(visits, ds) == 1 + FirstUnfinished(visits[1..], ds[1..])
  {
  }

  /** Whatever fails, a sweep clears the hosts before the first unfinished one and leaves the hosts
      behind it alone. */
  lemma {:induction false} SweepClears(visits: seq<Visit>, ds: seq<Daemon>)
    requires |visits| == |ds| && AllRemovals(visits)
    ensures var es, k := Sweep(visits, ds).0, FirstUnfinished(visits, ds);
            ClearedTo(visits, ds, es, k) && forall i :: k < i < |ds| ==> es[i] == ds[i]
  {
    if visits != [] && !visits[0].stop && ExecGuarded(visits[0].work, ds[0]).1 == Completed {
      CompletedRemovals(visits[0].work, ds[0]);
      SweepClears(visits[1..], ds[1..]);
      SweepCons(visits, ds);
    }
  }

  /** A sweep that completed ran each host's own work to its end. */
  lemma {:induction false} SweepDone(visits: seq<Visit>, ds: seq<Daemon>, i: nat)
    requires |visits| == |ds| && i < |ds| && Sweep(visits, ds).1 == Completed
    ensures Sweep(visits, ds).0[i] == ExecGuarded(visits[i].work, ds[i]).0
  {
    if i > 0 { SweepDone(visits[1..], ds[1..], i - 1); }
  }

  /** A sweep completes exactly when no host is unfinished; it ends early with nil exactly when the
      first unfinished host stops it or the first removal that fails there is a swallowed one. */
  lemma {:induction false} SweepOutcome(visits: seq<Visit>, ds: seq<Daemon>)
    requires |visits| == |ds|
    ensures var o, k := Sweep(visits, ds).1, FirstUnfinished(visits, ds);
            (o == Completed <==> k == |ds|) &&
            (o == Quit <==> k < |ds| && (visits[k].stop || Swallowed(visits[k].work, ds[k])))
  {
    if visits != [] {
      RemovalsOutcome(visits[0].work, ds[0]);
      if !visits[0].stop && ExecGuarded(visits[0].work, ds[0]).1 == Completed {
        SweepOutcome(visits[1..], ds[1..]);
        SweepCons(visits, ds);
      }
    }
  }

  /** On the unfinished host only containers that its visit names before the failing one are gone. */
  lemma {:induction false} SweepUnfinished(visits: seq<Visit>, ds: seq<Daemon>)
    requires |visits| == |ds| && AllRemovals(visits)
    ensures var k := FirstUnfinished(visits, ds);
            k < |ds| ==>
            Sweep(visits, ds).0[k].containers.Keys ==
              if visits[k].stop then ds[k].containers.Keys
              else ds[k].containers.Keys - Removed(visits[k].work[..FirstFailing(visits[k].work, ds[k])])
  {
    if visits != [] {
      RemovalsLeave(visits[0].work, ds[0]);
      if !visits[0].stop && ExecGuarded(visits[0].work, ds[0]).1 == Completed {
        SweepUnfinished(visits[1..], ds[1..]);
        SweepCons(visits, ds);
      }
    }
  }

  ghost predicate AllQuiet(ds: seq<Daemon>) { forall i :: 0 <= i < |ds| ==> ds[i].Quiet() }

  lemma {:induction false} QuietSweep(visits: seq<Visit>, ds: seq<Daemon>)
    requires |visits| == |ds| && AllRemovals(visits) && AllQuiet(ds)
    requires forall i :: 0 <= i < |visits| ==> !visits[i].stop
    ensures var (es, o) := Sweep(visits, ds); o == Completed && AllQuiet(es)
  {
    if visits != [] {
      QuietRemovals(visits[0].work, ds[0]);
      QuietSweep(visits[1..], ds[1..]);
    }
  }

  /** A sweep cut after its first completed hosts: the rest of it is a sweep too. */
  lemma {:induction false} SweepSplit(visits: seq<Visit>, ds: seq<Daemon>, i: nat)
    requires |visits| == |ds| && i < |ds|
    ensures var tail := Sweep(visits[i..], ds[i..]);
            if visits[i].stop then tail == (ds[i..], Quit)
            else var (d, o) := ExecGuarded(visits[i].work, ds[i]);
                 var (rest, o') := Sweep(visits[i + 1..], ds[i + 1..]);
                 tail == if o == Completed then ([d] + rest, o') else ([d] + ds[i + 1..], o)
  {
    assert visits[i..][1..] == visits[i + 1..] && ds[i..][1..] == ds[i + 1..];
  }
}
