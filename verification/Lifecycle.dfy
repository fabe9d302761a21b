/** Fresh hosts through a deployment and back: which containers exist at every step, after success,
    and after cluster/remove.go has run. */
module Lifecycle {
  import opened Docker
  import opened Planes
  import opened Services
  import opened Deploy

  /** No service container and no `old-` leftover of one. */
  ghost predicate Bare(cs: Containers) { forall s :: s in SERVICES ==> s !in cs && OldName(s) !in cs }

  lemma OldNamesAreNotServices(name: string)
    ensures OldName(name) !in SERVICES
  {
    assert OldName(name)[0] == 'o';
  }

  // ---------------------------------------------------------------- after success

  function Expected(r: Roles): set<string> {
    (if r.etcd then {ETCD} else {}) +
    (if r.control then {KUBE_API, KUBE_CONTROLLER, SCHEDULER} else {NGINX_PROXY}) +
    {SIDEKICK, KUBELET, KUBE_PROXY}
  }

  function ConfigOf(s: string, want: Wanted): Config {
    if s == SIDEKICK then Config(want(SIDEKICK).image, []) else want(s)
  }

  /** The services present are exactly `names`, each as wanted and running (the sidekick is only
      ever created), with no leftover of an update. */
  ghost predicate Shape(cs: Containers, names: set<string>, want: Wanted) {
    forall s :: s in SERVICES ==>
      OldName(s) !in cs && (s in cs <==> s in names) &&
      (s in cs ==> Matches(cs[s], ConfigOf(s, want)) && (cs[s].running <==> s != SIDEKICK))
  }

  predicate Proper(op: Op, want: Wanted) {
    op.name in SERVICES &&
    (op == RemoveOp(op.name) ||
     (op.name != SIDEKICK && op == RunOp(op.name, want(op.name), op.probe)) ||
     op == SidekickOp(SIDEKICK, want(SIDEKICK).image))
  }

  function Effect(op: Op, names: set<string>): set<string> {
    if op.start == InspectRemove then names - {op.name} else names + {op.name}
  }

  function EffectAll(ops: seq<Op>, names: set<string>): set<string> {
    if ops == [] then names else EffectAll(ops[1..], Effect(ops[0], names))
  }

  lemma ShapeRemoved(name: string, d: Daemon, names: set<string>, want: Wanted)
    requires Shape(d.containers, names, want) && Exec(RemoveOp(name), InspectRemove, d).1
    ensures Shape(Exec(RemoveOp(name), InspectRemove, d).0.containers, names - {name}, want)
  {
    RemoveOutcome(d, name);
  }

  lemma ShapeSidekick(image: string, d: Daemon, names: set<string>, want: Wanted)
    requires Shape(d.containers, names, want) && image == want(SIDEKICK).image && SIDEKICK in SERVICES
    requires Exec(SidekickOp(SIDEKICK, image), ListAll, d).1
    ensures Shape(Exec(SidekickOp(SIDEKICK, image), ListAll, d).0.containers, names + {SIDEKICK}, want)
  {
    var cs := Exec(SidekickOp(SIDEKICK, image), ListAll, d).0.containers;
    SidekickOutcome(d, SIDEKICK, image);
    if SIDEKICK !in d.containers { ShapeWith(d.containers, SIDEKICK, cs[SIDEKICK], names, want); }
  }

  /** What a successful run of a service leaves is its wanted container and everything else. */
  lemma RanAsWanted(op: Op, d: Daemon, cs: Containers, names: set<string>, want: Wanted)
    requires Shape(d.containers, names, want) && op.name in SERVICES && op.name != SIDEKICK
    requires op == RunOp(op.name, want(op.name), op.probe) && Ran(op, d, cs)
    ensures op.name in cs && cs == d.containers[op.name := cs[op.name]]
    ensures Matches(cs[op.name], want(op.name)) && cs[op.name].running
  {
    if op.name in d.containers {
      assert Matches(d.containers[op.name], want(op.name)) && d.containers[op.name].running;
    }
  }

  lemma ShapeRun(op: Op, d: Daemon, names: set<string>, want: Wanted)
    requires Shape(d.containers, names, want) && op.name in SERVICES && op.name != SIDEKICK
    requires op == RunOp(op.name, want(op.name), op.probe) && Exec(op, op.start, d).1
    ensures Shape(Exec(op, op.start, d).0.containers, names + {op.name}, want)
  {
    var cs := Exec(op, op.start, d).0.containers;
    RunOutcome(d, op.name, op.cfg, op.probe);
    RanAsWanted(op, d, cs, names, want);
    ShapeWith(d.containers, op.name, cs[op.name], names, want);
  }

  lemma ShapeWith(cs: Containers, name: string, c: Container, names: set<string>, want: Wanted)
    requires Shape(cs, names, want) && name in SERVICES
    requires Matches(c, ConfigOf(name, want)) && (c.running <==> name != SIDEKICK)
    ensures Shape(cs[name := c], names + {name}, want)
  {
    forall s | s in SERVICES ensures OldName(s) != name {
      OldNamesAreNotServices(s);
    }
  }

  lemma ShapeStep(op: Op, d: Daemon, names: set<string>, want: Wanted)
    requires Shape(d.containers, names, want) && Proper(op, want) && Exec(op, op.start, d).1
    ensures Shape(Exec(op, op.start, d).0.containers, Effect(op, names), want)
  {
    if op.start == InspectRemove {
      ShapeRemoved(op.name, d, names, want);
    } else if op.start == ListAll {
      ShapeSidekick(op.cfg.image, d, names, want);
    } else {
      ShapeRun(op, d, names, want);
    }
  }

  lemma {:induction false} ShapeAll(ops: seq<Op>, d: Daemon, names: set<string>, want: Wanted)
    requires Shape(d.containers, names, want) && ExecAll(ops, d).1
    requires forall i :: 0 <= i < |ops| ==> Proper(ops[i], want)
    ensures Shape(ExecAll(ops, d).0.containers, EffectAll(ops, names), want)
  {
    if ops != [] {
      ShapeStep(ops[0], d, names, want);
      ShapeAll(ops[1..], Exec(ops[0], ops[0].start, d).0, Effect(ops[0], names), want);
    }
  }

  lemma {:induction false} EffectConcat(a: seq<Op>, b: seq<Op>, names: set<string>)
    ensures EffectAll(a + b, names) == EffectAll(b, EffectAll(a, names))
  {
    if a == [] {
      assert a + b == b;
    } else {
      assert (a + b)[1..] == a[1..] + b;
      EffectConcat(a[1..], b, Effect(a[0], names));
    }
  }

  ghost predicate AllProper(ops: seq<Op>, want: Wanted) { forall i :: 0 <= i < |ops| ==> Proper(ops[i], want) }

  lemma Effect1(op: Op, rest: seq<Op>, names: set<string>)
    ensures EffectAll([op] + rest, names) == EffectAll(rest, Effect(op, names))
  {
    assert ([op] + rest)[1..] == rest;
  }

  lemma NodeEffect(want: Wanted, names: set<string>)
    ensures AllProper(NodeOps(want), want)
    ensures EffectAll(NodeOps(want), names) == names + {KUBELET, KUBE_PROXY}
  {
    assert NodeOps(want) == [Service(KUBELET, want)] + ([Service(KUBE_PROXY, want)] + []);
    Effect1(Service(KUBELET, want), [Service(KUBE_PROXY, want)] + [], names);
    Effect1(Service(KUBE_PROXY, want), [], names + {KUBELET});
  }

  lemma WorkerEffect(r: Roles, want: Wanted, names: set<string>)
    ensures AllProper(WorkerOps(r, want), want)
    ensures EffectAll(WorkerOps(r, want), names)
            == names + (if r.control then {} else {NGINX_PROXY}) + {SIDEKICK, KUBELET, KUBE_PROXY}
  {
    var n := if r.control then names else names + {NGINX_PROXY};
    var sidekick := SidekickOp(SIDEKICK, want(SIDEKICK).image);
    if !r.control {
      Effect1(RunOp(NGINX_PROXY, want(NGINX_PROXY), false), [sidekick] + NodeOps(want), names);
    }
    Effect1(sidekick, NodeOps(want), n);
    NodeEffect(want, n + {SIDEKICK});
  }

  lemma MasterEffect(want: Wanted, names: set<string>)
    ensures AllProper(MasterOps(want), want)
    ensures EffectAll(MasterOps(want), names) == names + {KUBE_API, KUBE_CONTROLLER, SCHEDULER}
  {
    var t := [Service(SCHEDULER, want)] + [];
    assert MasterOps(want) == [Service(KUBE_API, want)] + ([Service(KUBE_CONTROLLER, want)] + t);
    Effect1(Service(KUBE_API, want), [Service(KUBE_CONTROLLER, want)] + t, names);
    Effect1(Service(KUBE_CONTROLLER, want), t, names + {KUBE_API});
    Effect1(Service(SCHEDULER, want), [], names + {KUBE_API} + {KUBE_CONTROLLER});
  }

  lemma ControlEffect(r: Roles, want: Wanted, names: set<string>)
    ensures AllProper(ControlOps(r, want), want)
    ensures EffectAll(ControlOps(r, want), names)
            == names - (if r.worker then {NGINX_PROXY} else {}) + {SIDEKICK, KUBE_API, KUBE_CONTROLLER, SCHEDULER}
  {
    var sidekick := SidekickOp(SIDEKICK, want(SIDEKICK).image);
    var n := if r.worker then names - {NGINX_PROXY} else names;
    if r.worker { Effect1(RemoveOp(NGINX_PROXY), [sidekick] + MasterOps(want), names); }
    Effect1(sidekick, MasterOps(want), n);
    MasterEffect(want, n + {SIDEKICK});
  }

  lemma ControlEffectFresh(r: Roles, want: Wanted, names: set<string>)
    requires NGINX_PROXY !in names
    ensures AllProper(ControlOps(r, want), want)
    ensures EffectAll(ControlOps(r, want), names) == names + {SIDEKICK, KUBE_API, KUBE_CONTROLLER, SCHEDULER}
  {
    ControlEffect(r, want, names);
    assert names - (if r.worker then {NGINX_PROXY} else {}) == names;
  }

  lemma FiveProper(a: seq<Op>, b: seq<Op>, c: seq<Op>, d: seq<Op>, e: seq<Op>, want: Wanted)
    requires AllProper(a, want) && AllProper(b, want) && AllProper(c, want) && AllProper(d, want) && AllProper(e, want)
    ensures AllProper(a + b + c + d + e, want)
  {
  }

  lemma FiveParts(a: seq<Op>, b: seq<Op>, c: seq<Op>, d: seq<Op>, e: seq<Op>)
    ensures EffectAll(a + b + c + d + e, {}) == EffectAll(e, EffectAll(d, EffectAll(c, EffectAll(b, EffectAll(a, {})))))
  {
    EffectConcat(a + b + c + d, e, {});
    EffectConcat(a + b + c, d, {});
    EffectConcat(a + b, c, {});
    EffectConcat(a, b, {});
  }

  lemma EtcdEffect(want: Wanted, names: set<string>)
    ensures AllProper(EtcdOps(want), want) && EffectAll(EtcdOps(want), names) == names + {ETCD}
  {
    assert EtcdOps(want) == [RunOp(ETCD, want(ETCD), false)] + [];
    Effect1(RunOp(ETCD, want(ETCD), false), [], names);
  }

  /** The worker plane once it was deployed for the etcd or the control role. */
  lemma WorkerEffects(r: Roles, want: Wanted, names: set<string>)
    requires r.etcd || r.control || r.worker
    ensures var c := if r.etcd then WorkerOps(r, want) else [];
            var d := if r.control then WorkerOps(r, want) else [];
            var e := if r.worker then WorkerOps(r, want) else [];
            AllProper(c, want) && AllProper(d, want) && AllProper(e, want) &&
            EffectAll(e, EffectAll(d, EffectAll(c, names)))
            == names + (if r.control then {} else {NGINX_PROXY}) + {SIDEKICK, KUBELET, KUBE_PROXY}
  {
    WorkerEffect(r, want, names);
    var once := EffectAll(WorkerOps(r, want), names);
    WorkerEffect(r, want, once);
    assert EffectAll(WorkerOps(r, want), once) == once;
  }

  lemma ExpectedSum(r: Roles)
    requires r.etcd || r.control || r.worker
    ensures var a := if r.etcd then {ETCD} else {};
            var b := if r.control then a + {SIDEKICK, KUBE_API, KUBE_CONTROLLER, SCHEDULER} else a;
            NGINX_PROXY !in a &&
            b + (if r.control then {} else {NGINX_PROXY}) + {SIDEKICK, KUBELET, KUBE_PROXY} == Expected(r)
  {
  }

  /** What a whole deployment leaves on a host with at least one role. */
  lemma HostEffect(r: Roles, want: Wanted)
    requires r.etcd || r.control || r.worker
    ensures AllProper(HostOps(r, want), want) && EffectAll(HostOps(r, want), {}) == Expected(r)
  {
    var a := if r.etcd then EtcdOps(want) else [];
    var b := if r.control then ControlOps(r, want) else [];
    var c := if r.etcd then WorkerOps(r, want) else [];
    var d := if r.control then WorkerOps(r, want) else [];
    var e := if r.worker then WorkerOps(r, want) else [];
    var na := if r.etcd then {ETCD} else {};
    var nb := if r.control then na + {SIDEKICK, KUBE_API, KUBE_CONTROLLER, SCHEDULER} else na;
    ExpectedSum(r);
    assert AllProper(a, want) && EffectAll(a, {}) == na by { EtcdEffect(want, {}); }
    assert AllProper(b, want) && EffectAll(b, na) == nb by { ControlEffectFresh(r, want, na); }
    WorkerEffects(r, want, nb);
    FiveParts(a, b, c, d, e);
    FiveProper(a, b, c, d, e, want);
  }

  /** A complete run of the deployment in which no host failed. */
  ghost predicate Deployed(nodes: seq<Node>, want: Cluster, ds: map<string, Daemon>, ws: seq<World>) {
    var plan := DeployPlan(nodes, want);
    DistinctAddresses(nodes) && AddressesOf(nodes) <= ds.Keys && IsRun(plan, ds, ws) &&
    Ended(plan, ws[|ws| - 1]) && AllFinished(ws[|ws| - 1], true)
  }

  /** Starting from bare hosts, whatever the interleaving, a successful deployment leaves on each
      host exactly the services its roles call for. */
  lemma DeploymentOutcome(nodes: seq<Node>, want: Cluster, ds: map<string, Daemon>, ws: seq<World>, i: nat)
    requires Deployed(nodes, want, ds, ws) && i < |nodes|
    requires nodes[i].roles.etcd || nodes[i].roles.control || nodes[i].roles.worker
    requires nodes[i].address in ds && Bare(ds[nodes[i].address].containers)
    ensures nodes[i].address in ws[|ws| - 1].daemons
    ensures Shape(ws[|ws| - 1].daemons[nodes[i].address].containers, Expected(nodes[i].roles), want(nodes[i].address))
  {
    var plan, h, r := DeployPlan(nodes, want), nodes[i].address, nodes[i].roles;
    InterleavingIsSequential(plan, ds, ws);
    SequentialHost(plan, |plan|, ds, h);
    assert plan[..|plan|] == plan;
    DeployFlat(nodes, want, i);
    HostEffect(r, want(h));
    assert Shape(ds[h].containers, {}, want(h));
    ShapeAll(HostOps(r, want(h)), ds[h], {}, want(h));
  }

  // ---------------------------------------------------------------- at every step

  /** The API server runs only on control hosts, the proxy in its place only on the others. */
  predicate Apart(r: Roles, cs: Containers) {
    (KUBE_API in cs ==> r.control) && (NGINX_PROXY in cs ==> !r.control)
  }

  predicate SafeOp(r: Roles, op: Op) {
    (op.name == KUBE_API ==> r.control) &&
    (op.name == NGINX_PROXY ==> !r.control || op.start == InspectRemove)
  }

  predicate SafePc(op: Op, pc: Pc) {
    op.start == InspectRemove ==> pc in {InspectRemove, StopRemove, DeleteStopped} || pc.Done?
  }

  predicate SafeTask(r: Roles, t: Task) {
    t.Valid() &&
    (t.Running? ==> (forall i :: 0 <= i < |t.ops| ==> SafeOp(r, t.ops[i])) && SafePc(t.ops[0], t.pc))
  }

  lemma ApartStep(r: Roles, op: Op, pc: Pc, d: Daemon)
    requires Apart(r, d.containers) && SafeOp(r, op) && SafePc(op, pc) && !pc.Done?
    ensures var (pc', d') := Step(op, pc, d); Apart(r, d'.containers) && SafePc(op, pc')
  {
    var (pc', d') := Step(op, pc, d);
    assert OldName(op.name)[0] == 'o';
    StepNames(op, pc, d);
  }

  lemma {:induction false} SafeBegin(r: Roles, ops: seq<Op>)
    requires forall i :: 0 <= i < |ops| ==> SafeOp(r, ops[i])
    ensures SafeTask(r, Begin(ops))
    decreases |ops|, 1
  {
    if ops != [] { SafeAdvance(r, ops, ops[0].start); }
  }

  lemma {:induction false} SafeAdvance(r: Roles, ops: seq<Op>, pc: Pc)
    requires ops != [] && SafePc(ops[0], pc) && forall i :: 0 <= i < |ops| ==> SafeOp(r, ops[i])
    ensures SafeTask(r, Advance(ops, pc))
    decreases |ops|, 0
  {
    if pc.Done? && pc.ok { SafeBegin(r, ops[1..]); }
  }

  lemma SafeTaskStep(r: Roles, t: Task, d: Daemon)
    requires SafeTask(r, t) && t.Running? && Apart(r, d.containers)
    ensures var (t', d') := TaskStep(t, d); SafeTask(r, t') && Apart(r, d'.containers)
  {
    ApartStep(r, t.ops[0], t.pc, d);
    SafeAdvance(r, t.ops, Step(t.ops[0], t.pc, d).0);
  }

  lemma RoleOpsSafe(r: Roles, want: Wanted)
    ensures forall i :: 0 <= i < |EtcdOps(want)| ==> SafeOp(r, EtcdOps(want)[i])
    ensures r.control ==> forall i :: 0 <= i < |ControlOps(r, want)| ==> SafeOp(r, ControlOps(r, want)[i])
    ensures forall i :: 0 <= i < |WorkerOps(r, want)| ==> SafeOp(r, WorkerOps(r, want)[i])
  {
  }

  lemma {:induction false} EtcdPhaseOps(nodes: seq<Node>, want: Cluster, k: nat, h: string)
    requires k < |EtcdPhases(nodes, want)|
    ensures var ops := OpsOf(EtcdPhases(nodes, want)[k], h); ops == [] || ops == EtcdOps(want(h))
  {
    var rest := EtcdPhases(nodes[1..], want);
    if !nodes[0].roles.etcd {
      EtcdPhaseOps(nodes[1..], want, k, h);
    } else if k > 0 {
      EtcdPhaseOps(nodes[1..], want, k - 1, h);
    } else {
      var p := [Job(nodes[0].address, EtcdOps(want(nodes[0].address)))];
      assert EtcdPhases(nodes, want)[0] == p && p[1..] == [];
    }
  }

  lemma PlanOpsSafe(nodes: seq<Node>, want: Cluster, k: nat, i: nat)
    requires DistinctAddresses(nodes) && k < |DeployPlan(nodes, want)| && i < |nodes|
    ensures SafeTask(nodes[i].roles, Begin(OpsOf(DeployPlan(nodes, want)[k], nodes[i].address)))
  {
    var h, r, n := nodes[i].address, nodes[i].roles, |EtcdPhases(nodes, want)|;
    RoleOpsSafe(r, want(h));
    if k < n {
      EtcdPhaseOps(nodes, want, k, h);
    } else {
      assert DeployPlan(nodes, want)[k] == Parallel(nodes, want)[k - n];
      SelectOps(nodes, IsControl(), ControlJob(want), i);
      SelectOps(nodes, IsEtcd(), WorkerJob(want), i);
      SelectOps(nodes, IsControl(), WorkerJob(want), i);
      SelectOps(nodes, IsWorker(), WorkerJob(want), i);
    }
    SafeBegin(r, OpsOf(DeployPlan(nodes, want)[k], h));
  }

  ghost predicate KeptApart(nodes: seq<Node>, w: World) {
    forall i :: 0 <= i < |nodes| ==>
      nodes[i].address in w.daemons && Apart(nodes[i].roles, w.daemons[nodes[i].address].containers) &&
      (nodes[i].address in w.tasks ==> SafeTask(nodes[i].roles, w.tasks[nodes[i].address]))
  }

  lemma KeptApartNext(nodes: seq<Node>, want: Cluster, w: World, w': World)
    requires DistinctAddresses(nodes) && KeptApart(nodes, w) && Next(DeployPlan(nodes, want), w, w')
    ensures KeptApart(nodes, w')
  {
    var plan := DeployPlan(nodes, want);
    forall i | 0 <= i < |nodes|
      ensures nodes[i].address in w'.daemons && Apart(nodes[i].roles, w'.daemons[nodes[i].address].containers)
      ensures nodes[i].address in w'.tasks ==> SafeTask(nodes[i].roles, w'.tasks[nodes[i].address])
    {
      if Barrier(plan, w, w') {
        PlanOpsSafe(nodes, want, w.phase + 1, i);
      } else {
        var h :| StepBy(w, h, w');
        if h == nodes[i].address { SafeTaskStep(nodes[i].roles, w.tasks[h], w.daemons[h]); }
      }
    }
  }

  lemma {:induction false} KeptApartAlways(nodes: seq<Node>, want: Cluster, ds: map<string, Daemon>, ws: seq<World>,
                                           k: nat)
    requires DistinctAddresses(nodes) && AddressesOf(nodes) <= ds.Keys
    requires forall i :: 0 <= i < |nodes| && nodes[i].address in ds ==> Bare(ds[nodes[i].address].containers)
    requires IsRun(DeployPlan(nodes, want), ds, ws) && k < |ws|
    ensures KeptApart(nodes, ws[k])
  {
    if k == 0 {
      forall i | 0 <= i < |nodes|
        ensures nodes[i].address in ds && Apart(nodes[i].roles, ds[nodes[i].address].containers)
        ensures SafeTask(nodes[i].roles, Begin(OpsOf(DeployPlan(nodes, want)[0], nodes[i].address)))
      {
        assert nodes[i] in nodes;
        assert nodes[i].address in AddressesOf(nodes);
        PlanOpsSafe(nodes, want, 0, i);
      }
    } else {
      KeptApartAlways(nodes, want, ds, ws, k - 1);
      assert Next(DeployPlan(nodes, want), ws[k - 1], ws[k - 1 + 1]);
      KeptApartNext(nodes, want, ws[k - 1], ws[k]);
    }
  }

  /** At no step of any deployment of bare hosts do the API server and the proxy that stands in for
      it share a host. */
  lemma ApiAndProxyNeverTogether(nodes: seq<Node>, want: Cluster, ds: map<string, Daemon>, ws: seq<World>, k: nat,
                                 i: nat)
    requires DistinctAddresses(nodes) && AddressesOf(nodes) <= ds.Keys
    requires forall i :: 0 <= i < |nodes| && nodes[i].address in ds ==> Bare(ds[nodes[i].address].containers)
    requires IsRun(DeployPlan(nodes, want), ds, ws) && k < |ws| && i < |nodes|
    ensures nodes[i].address in ws[k].daemons
    ensures !({KUBE_API, NGINX_PROXY} <= ws[k].daemons[nodes[i].address].containers.Keys)
  {
    KeptApartAlways(nodes, want, ds, ws, k);
  }
}
