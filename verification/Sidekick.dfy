/** The container the Kubernetes services take their volumes from (services/services.go:64-81; VolumesFrom in
    services/kubeapi.go:61-63, kubecontroller.go:50-52, scheduler.go:38-40, kubelet.go:53-55 and
    kubeproxy.go:37-39): at every call of every deployment it is there whenever one of them is. */
module Sidekick {
  import opened Docker
  import opened Planes
  import opened Services
  import opened Deploy
  import opened Lifecycle

  const MOUNTING: set<string> := {KUBE_API, KUBE_CONTROLLER, SCHEDULER, KUBELET, KUBE_PROXY}

  /** No service is without the container it mounts from. */
  predicate Mounted(cs: Containers) { SIDEKICK in cs || cs.Keys !! MOUNTING }

  predicate AllHarmless(ops: seq<Op>) {
    forall i :: 0 <= i < |ops| && ops[i].name == SIDEKICK ==> ops[i].start == ListAll
  }

  /** None of the services comes before the sidekick. */
  predicate First(ops: seq<Op>) {
    ops == [] || ops[0].name == SIDEKICK || (ops[0].name !in MOUNTING && First(ops[1..]))
  }

  predicate Point(op: Op, pc: Pc) { op.start == ListAll ==> pc in {ListAll, PullSidekick, CreateSidekick} || pc.Done? }

  /** A goroutine that keeps its host mounted. */
  predicate Held(t: Task, cs: Containers) {
    t.Valid() && Mounted(cs) &&
    (t.Running? ==> AllHarmless(t.ops) && Point(t.ops[0], t.pc) && (SIDEKICK in cs || First(t.ops)))
  }

  lemma OldNamesApart(name: string)
    ensures OldName(name) != SIDEKICK && OldName(name) !in MOUNTING
  {
    OldNamesAreNotServices(name);
    assert MOUNTING + {SIDEKICK} <= SERVICES;
  }

  lemma {:induction false} BeginHeld(ops: seq<Op>, cs: Containers)
    requires Mounted(cs) && AllHarmless(ops) && (SIDEKICK in cs || First(ops))
    ensures Held(Begin(ops), cs)
    decreases |ops|, 1
  {
    if ops != [] { AdvanceHeld(ops, ops[0].start, cs); }
  }

  lemma {:induction false} AdvanceHeld(ops: seq<Op>, pc: Pc, cs: Containers)
    requires ops != [] && Mounted(cs) && AllHarmless(ops) && Point(ops[0], pc)
    requires SIDEKICK in cs || (First(ops) && (pc == Done(true) ==> ops[0].name != SIDEKICK))
    ensures Held(Advance(ops, pc), cs)
    decreases |ops|, 0
  {
    if pc.Done? && pc.ok { BeginHeld(ops[1..], cs); }
  }

  lemma SidekickStep(op: Op, pc: Pc, d: Daemon)
    requires op.name == SIDEKICK && pc in {ListAll, PullSidekick, CreateSidekick} && Mounted(d.containers)
    ensures var (pc', d') := Step(op, pc, d);
            Mounted(d'.containers) && (pc'.Done? || pc' in {ListAll, PullSidekick, CreateSidekick}) &&
            (SIDEKICK in d.containers ==> SIDEKICK in d'.containers) &&
            (pc' == Done(true) ==> SIDEKICK in d'.containers)
  {
  }

  lemma OtherStep(op: Op, pc: Pc, d: Daemon)
    requires op.name != SIDEKICK && !pc.Done? && (op.start == ListAll ==> Point(op, pc))
    requires Mounted(d.containers) && (SIDEKICK in d.containers || op.name !in MOUNTING)
    ensures var (pc', d') := Step(op, pc, d);
            Mounted(d'.containers) && (SIDEKICK in d.containers ==> SIDEKICK in d'.containers) && Point(op, pc')
  {
    OldNamesApart(op.name);
    StepNames(op, pc, d);
  }

  lemma HeldStep(t: Task, d: Daemon)
    requires Held(t, d.containers) && t.Running?
    ensures var (t', d') := TaskStep(t, d); Held(t', d'.containers)
  {
    if t.ops[0].name == SIDEKICK {
      SidekickStep(t.ops[0], t.pc, d);
    } else {
      OtherStep(t.ops[0], t.pc, d);
    }
    var (pc, e) := Step(t.ops[0], t.pc, d);
    AdvanceHeld(t.ops, pc, e.containers);
  }

  // ---------------------------------------------------------------- every phase of a deployment

  lemma FirstAfter(op: Op, rest: seq<Op>)
    requires op.name !in MOUNTING && First(rest)
    ensures First([op] + rest)
  {
    assert ([op] + rest)[1..] == rest;
  }

  lemma RoleOpsMount(r: Roles, want: Wanted)
    ensures AllHarmless(EtcdOps(want)) && First(EtcdOps(want))
    ensures AllHarmless(ControlOps(r, want)) && First(ControlOps(r, want))
    ensures AllHarmless(WorkerOps(r, want)) && First(WorkerOps(r, want))
  {
    var k := [SidekickOp(SIDEKICK, want(SIDEKICK).image)];
    assert EtcdOps(want) == [RunOp(ETCD, want(ETCD), false)] + [];
    FirstAfter(RunOp(ETCD, want(ETCD), false), []);
    FirstAfter(RemoveOp(NGINX_PROXY), k + MasterOps(want));
    FirstAfter(RunOp(NGINX_PROXY, want(NGINX_PROXY), false), k + NodeOps(want));
  }

  lemma PhaseOps(nodes: seq<Node>, want: Cluster, k: nat, i: nat)
    requires DistinctAddresses(nodes) && k < |DeployPlan(nodes, want)| && i < |nodes|
    ensures var ops := OpsOf(DeployPlan(nodes, want)[k], nodes[i].address); AllHarmless(ops) && First(ops)
  {
    var h, r, n := nodes[i].address, nodes[i].roles, |EtcdPhases(nodes, want)|;
    RoleOpsMount(r, want(h));
    if k < n {
      EtcdPhaseOps(nodes, want, k, h);
    } else {
      assert DeployPlan(nodes, want)[k] == Parallel(nodes, want)[k - n];
      SelectOps(nodes, IsControl(), ControlJob(want), i);
      SelectOps(nodes, IsEtcd(), WorkerJob(want), i);
      SelectOps(nodes, IsControl(), WorkerJob(want), i);
      SelectOps(nodes, IsWorker(), WorkerJob(want), i);
    }
  }

  ghost predicate AllHeld(nodes: seq<Node>, w: World) {
    forall i :: 0 <= i < |nodes| ==>
      nodes[i].address in w.daemons && Mounted(w.daemons[nodes[i].address].containers) &&
      (nodes[i].address in w.tasks ==> Held(w.tasks[nodes[i].address], w.daemons[nodes[i].address].containers))
  }

  lemma AllHeldNext(nodes: seq<Node>, want: Cluster, w: World, w': World)
    requires DistinctAddresses(nodes) && AllHeld(nodes, w) && Next(DeployPlan(nodes, want), w, w')
    ensures AllHeld(nodes, w')
  {
    var plan := DeployPlan(nodes, want);
    forall i | 0 <= i < |nodes|
      ensures nodes[i].address in w'.daemons && Mounted(w'.daemons[nodes[i].address].containers)
      ensures nodes[i].address in w'.tasks ==>
              Held(w'.tasks[nodes[i].address], w'.daemons[nodes[i].address].containers)
    {
      var a := nodes[i].address;
      if Barrier(plan, w, w') {
        PhaseOps(nodes, want, w.phase + 1, i);
        BeginHeld(OpsOf(plan[w.phase + 1], a), w.daemons[a].containers);
      } else {
        var h :| StepBy(w, h, w');
        if h == a { HeldStep(w.tasks[h], w.daemons[h]); }
      }
    }
  }

  lemma {:induction false} AlwaysHeld(nodes: seq<Node>, want: Cluster, ds: map<string, Daemon>, ws: seq<World>, k: nat)
    requires DistinctAddresses(nodes) && IsRun(DeployPlan(nodes, want), ds, ws) && k < |ws|
    requires forall i :: 0 <= i < |nodes| ==> nodes[i].address in ds && Mounted(ds[nodes[i].address].containers)
    ensures AllHeld(nodes, ws[k])
  {
    if k == 0 {
      forall i | 0 <= i < |nodes|
        ensures Held(Begin(OpsOf(DeployPlan(nodes, want)[0], nodes[i].address)), ds[nodes[i].address].containers)
      {
        PhaseOps(nodes, want, 0, i);
        BeginHeld(OpsOf(DeployPlan(nodes, want)[0], nodes[i].address), ds[nodes[i].address].containers);
      }
    } else {
      AlwaysHeld(nodes, want, ds, ws, k - 1);
      assert Next(DeployPlan(nodes, want), ws[k - 1], ws[k - 1 + 1]);
      AllHeldNext(nodes, want, ws[k - 1], ws[k]);
    }
  }

  /** At every call of a deployment whatever mounts from the sidekick finds it, if that was so at the start, as
      it is on bare hosts. */
  lemma SidekickBeforeServices(nodes: seq<Node>, want: Cluster, ds: map<string, Daemon>, ws: seq<World>, k: nat,
                               i: nat, s: string)
    requires DistinctAddresses(nodes) && IsRun(DeployPlan(nodes, want), ds, ws) && k < |ws| && i < |nodes|
    requires forall i :: 0 <= i < |nodes| ==> nodes[i].address in ds && Mounted(ds[nodes[i].address].containers)
    requires s in {KUBE_API, KUBE_CONTROLLER, SCHEDULER, KUBELET, KUBE_PROXY}
    ensures nodes[i].address in ws[k].daemons
    ensures var cs := ws[k].daemons[nodes[i].address].containers; s in cs ==> SIDEKICK in cs
  {
    AlwaysHeld(nodes, want, ds, ws, k);
    assert s in MOUNTING;
  }
}
