/** A deployment that goes well and one that finds everything done: without failures a deployment of bare hosts
    succeeds, and deploying again what a deployment left changes no container, whatever fails
    (cluster/cluster.go:56-91). */
module DeploySuccess {
  import opened Docker
  import opened Planes
  import opened Services
  import opened Deploy
  import opened Lifecycle
  import opened Quiet

  // ---------------------------------------------------------------- without failures

  lemma GoodOp(op: Op, d: Daemon, names: set<string>, want: Wanted)
    requires Shape(d.containers, names, want) && Proper(op, want) && d.Quiet()
    ensures var (e, ok) := Exec(op, op.start, d); ok && e.Quiet()
  {
    if op.start == InspectRemove {
      RemoveOutcome(d, op.name);
    } else if op.start == ListAll {
      QuietSidekick(d, op.name, op.cfg.image);
    } else {
      QuietRun(d, op.name, op.cfg, op.probe);
    }
  }

  lemma {:induction false} GoodOps(ops: seq<Op>, d: Daemon, names: set<string>, want: Wanted)
    requires Shape(d.containers, names, want) && AllProper(ops, want) && d.Quiet()
    ensures ExecAll(ops, d).1
  {
    if ops != [] {
      GoodOp(ops[0], d, names, want);
      ShapeStep(ops[0], d, names, want);
      GoodOps(ops[1..], Exec(ops[0], ops[0].start, d).0, Effect(ops[0], names), want);
    }
  }

  /** What a host is asked for goes through on a bare host. */
  lemma GoodHost(r: Roles, want: Wanted, d: Daemon)
    requires Bare(d.containers) && d.Quiet()
    ensures ExecAll(HostOps(r, want), d).1
  {
    if r.etcd || r.control || r.worker {
      HostEffect(r, want);
      assert Shape(d.containers, {}, want);
      GoodOps(HostOps(r, want), d, {}, want);
    } else {
      assert HostOps(r, want) == [];
    }
  }

  /** A host's part of the first `k` phases goes through if all its operations do. */
  lemma PartSucceeds(plan: Plan, k: nat, h: string, d: Daemon)
    requires k <= |plan| && ExecAll(Flat(plan, h), d).1
    ensures ExecAll(Flat(plan[..k], h), d).1
  {
    assert plan == plan[..k] + plan[k..];
    FlatConcat(plan[..k], plan[k..], h);
    ExecAllConcat(Flat(plan[..k], h), Flat(plan[k..], h), d);
  }

  /** After phases that went through, a host's part of the next one does if all its operations do. */
  lemma HostSucceeds(plan: Plan, k: nat, ds: map<string, Daemon>, h: string)
    requires WellFormed(plan, ds) && k < |plan| && Sequential(plan, k, ds).1
    requires h in ds && ExecAll(Flat(plan, h), ds[h]).1
    ensures ExecAll(OpsOf(plan[k], h), Sequential(plan, k, ds).0[h]).1
  {
    SequentialHost(plan, k, ds, h);
    PartSucceeds(plan, k + 1, h, ds[h]);
    FlatSnoc(plan, k, h);
    ExecAllConcat(Flat(plan[..k], h), OpsOf(plan[k], h), ds[h]);
  }

  ghost predicate AllSucceed(plan: Plan, ds: map<string, Daemon>)
    requires WellFormed(plan, ds)
  {
    forall j, h :: 0 <= j < |plan| && h in HostsOf(plan[j]) ==> ExecAll(Flat(plan, h), ds[h]).1
  }

  lemma PhaseSucceeds(plan: Plan, k: nat, ds: map<string, Daemon>)
    requires WellFormed(plan, ds) && k < |plan| && Sequential(plan, k, ds).1 && AllSucceed(plan, ds)
    ensures SequentialPhase(plan[k], Sequential(plan, k, ds).0).1
  {
    SequentialPhaseAt(plan[k], Sequential(plan, k, ds).0);
    forall h | h in HostsOf(plan[k]) ensures ExecAll(OpsOf(plan[k], h), Sequential(plan, k, ds).0[h]).1 {
      HostSucceeds(plan, k, ds, h);
    }
  }

  /** If every host's own operations go through, the sequential deployment does. */
  lemma {:induction false} SequentialSucceeds(plan: Plan, k: nat, ds: map<string, Daemon>)
    requires WellFormed(plan, ds) && k <= |plan| && AllSucceed(plan, ds)
    ensures Sequential(plan, k, ds).1
  {
    if k > 0 {
      SequentialSucceeds(plan, k - 1, ds);
      PhaseSucceeds(plan, k - 1, ds);
    }
  }

  /** Only nodes are deployed to. */
  lemma PlanHosts(nodes: seq<Node>, want: Cluster, ds: map<string, Daemon>, j: nat, h: string)
    requires DistinctAddresses(nodes) && AddressesOf(nodes) <= ds.Keys
    requires j < |DeployPlan(nodes, want)| && h in HostsOf(DeployPlan(nodes, want)[j])
    ensures exists i :: 0 <= i < |nodes| && nodes[i].address == h
  {
    var own := map a | a in AddressesOf(nodes) :: ds[a];
    DeployWellFormed(nodes, want, own);
    assert h in AddressesOf(nodes);
  }

  /** Every node is bare and none of its Docker calls is going to fail. */
  ghost predicate Untroubled(nodes: seq<Node>, ds: map<string, Daemon>) {
    forall i :: 0 <= i < |nodes| ==>
      nodes[i].address in ds && Bare(ds[nodes[i].address].containers) && ds[nodes[i].address].Quiet()
  }

  /** cluster.go:56-91 without failures: every complete run of a deployment of bare hosts succeeds. */
  lemma QuietDeploymentSucceeds(nodes: seq<Node>, want: Cluster, ds: map<string, Daemon>, ws: seq<World>)
    requires DistinctAddresses(nodes) && AddressesOf(nodes) <= ds.Keys && Untroubled(nodes, ds)
    requires IsRun(DeployPlan(nodes, want), ds, ws) && Ended(DeployPlan(nodes, want), ws[|ws| - 1])
    ensures Deployed(nodes, want, ds, ws)
  {
    var plan := DeployPlan(nodes, want);
    forall j, h | 0 <= j < |plan| && h in HostsOf(plan[j]) ensures ExecAll(Flat(plan, h), ds[h]).1 {
      PlanHosts(nodes, want, ds, j, h);
      var i :| 0 <= i < |nodes| && nodes[i].address == h;
      DeployFlat(nodes, want, i);
      GoodHost(nodes[i].roles, want(h), ds[h]);
    }
    SequentialSucceeds(plan, |plan|, ds);
    InterleavingIsSequential(plan, ds, ws);
  }

  // ---------------------------------------------------------------- deploying again

  /** An operation that finds everything done. */
  predicate Idle(op: Op, cs: Containers, want: Wanted) {
    Proper(op, want) &&
    if op.start == InspectRemove then op.name !in cs
    else if op.start == ListAll then op.name in cs
    else Up(cs, op.name, op.cfg)
  }

  /** The calls it makes to find out: one to look for a container, two for one that runs and a third for
      the health check of a service. */
  function IdleCalls(op: Op): nat { if op.start == Inspect then (if op.probe then 3 else 2) else 1 }

  lemma IdleChangesNothing(op: Op, d: Daemon, want: Wanted)
    requires Idle(op, d.containers, want)
    ensures var (e, ok) := Exec(op, op.start, d);
            e.containers == d.containers && (d.Quiet() ==> ok && e.Quiet() && e.calls == d.calls + IdleCalls(op))
  {
    if op.start == Inspect {
      RunWhenUpChangesNothing(d, op.name, op.cfg, op.probe);
    } else {
      ExecStep(op, op.start, d);
    }
  }

  function IdleCallsAll(ops: seq<Op>): nat { if ops == [] then 0 else IdleCalls(ops[0]) + IdleCallsAll(ops[1..]) }

  lemma {:induction false} IdleOps(ops: seq<Op>, d: Daemon, want: Wanted)
    requires forall i :: 0 <= i < |ops| ==> Idle(ops[i], d.containers, want)
    ensures var (e, ok) := ExecAll(ops, d);
            e.containers == d.containers && (d.Quiet() ==> ok && e.calls == d.calls + IdleCallsAll(ops))
  {
    if ops != [] {
      IdleChangesNothing(ops[0], d, want);
      IdleOps(ops[1..], Exec(ops[0], ops[0].start, d).0, want);
    }
  }

  /** An operation that leaves a host with these services as it is. */
  predicate Fits(op: Op, names: set<string>) {
    if op.start == InspectRemove then op.name !in names else op.name in names
  }

  ghost predicate AllFit(ops: seq<Op>, names: set<string>) { forall i :: 0 <= i < |ops| ==> Fits(ops[i], names) }

  lemma FittingIsIdle(op: Op, cs: Containers, names: set<string>, want: Wanted)
    requires Shape(cs, names, want) && Proper(op, want) && Fits(op, names)
    ensures Idle(op, cs, want)
  {
  }

  lemma WorkerFits(r: Roles, want: Wanted, names: set<string>)
    requires {SIDEKICK, KUBELET, KUBE_PROXY} <= names && (r.control || NGINX_PROXY in names)
    ensures AllFit(WorkerOps(r, want), names)
  {
  }

  lemma ControlFits(r: Roles, want: Wanted, names: set<string>)
    requires {SIDEKICK, KUBE_API, KUBE_CONTROLLER, SCHEDULER} <= names && NGINX_PROXY !in names
    ensures AllFit(ControlOps(r, want), names)
  {
  }

  lemma FiveFit(a: seq<Op>, b: seq<Op>, c: seq<Op>, d: seq<Op>, e: seq<Op>, names: set<string>)
    requires AllFit(a, names) && AllFit(b, names) && AllFit(c, names) && AllFit(d, names) && AllFit(e, names)
    ensures AllFit(a + b + c + d + e, names)
  {
  }

  lemma ExpectedHolds(r: Roles)
    ensures {SIDEKICK, KUBELET, KUBE_PROXY} <= Expected(r) && (r.control || NGINX_PROXY in Expected(r))
    ensures r.control ==> {SIDEKICK, KUBE_API, KUBE_CONTROLLER, SCHEDULER} <= Expected(r) && NGINX_PROXY !in Expected(r)
    ensures r.etcd ==> ETCD in Expected(r)
  {
  }

  lemma HostFits(r: Roles, want: Wanted)
    ensures AllFit(HostOps(r, want), Expected(r))
  {
    ExpectedHolds(r);
    WorkerFits(r, want, Expected(r));
    if r.control { ControlFits(r, want, Expected(r)); }
    FiveFit(if r.etcd then EtcdOps(want) else [], if r.control then ControlOps(r, want) else [],
            if r.etcd then WorkerOps(r, want) else [], if r.control then WorkerOps(r, want) else [],
            if r.worker then WorkerOps(r, want) else [], Expected(r));
  }

  /** Every operation a deployment has for a host finds what a deployment left there. */
  lemma HostIdle(r: Roles, want: Wanted, cs: Containers)
    requires Shape(cs, Expected(r), want)
    ensures forall i :: 0 <= i < |HostOps(r, want)| ==> Idle(HostOps(r, want)[i], cs, want)
  {
    if r.etcd || r.control || r.worker {
      HostEffect(r, want);
      HostFits(r, want);
      forall i | 0 <= i < |HostOps(r, want)| ensures Idle(HostOps(r, want)[i], cs, want) {
        FittingIsIdle(HostOps(r, want)[i], cs, Expected(r), want);
      }
    } else {
      assert HostOps(r, want) == [];
    }
  }

  /** controlplane.go:69-89 and workerplane.go:86-108 without failures on a host where everything is up: so
      many calls, a health check for each of the five services among them. */
  lemma PlaneCalls(r: Roles, want: Wanted)
    ensures IdleCallsAll(EtcdOps(want)) == 2
    ensures IdleCallsAll(ControlOps(r, want)) == if r.worker then 11 else 10
    ensures IdleCallsAll(WorkerOps(r, want)) == if r.control then 7 else 9
  {
    var k := [SidekickOp(SIDEKICK, want(SIDEKICK).image)];
    assert EtcdOps(want)[1..] == [];
    MasterCalls(want);
    NodeCalls(want);
    IdleCallsConcat(k, MasterOps(want));
    IdleCallsConcat(k, NodeOps(want));
    assert k[1..] == [];
    if r.worker {
      IdleCallsConcat([RemoveOp(NGINX_PROXY)], k + MasterOps(want));
      assert [RemoveOp(NGINX_PROXY)][1..] == [];
    }
    if !r.control {
      IdleCallsConcat([RunOp(NGINX_PROXY, want(NGINX_PROXY), false)], k + NodeOps(want));
      assert [RunOp(NGINX_PROXY, want(NGINX_PROXY), false)][1..] == [];
    }
  }

  lemma {:induction false} IdleCallsConcat(a: seq<Op>, b: seq<Op>)
    ensures IdleCallsAll(a + b) == IdleCallsAll(a) + IdleCallsAll(b)
  {
    if a == [] {
      assert a + b == b;
    } else {
      assert (a + b)[1..] == a[1..] + b;
      IdleCallsConcat(a[1..], b);
    }
  }

  lemma MasterCalls(want: Wanted)
    ensures IdleCallsAll(MasterOps(want)) == 9
  {
    var a, b, c := [Service(KUBE_API, want)], [Service(KUBE_CONTROLLER, want)], [Service(SCHEDULER, want)];
    assert MasterOps(want) == a + (b + c) && a[1..] == [] && b[1..] == [] && c[1..] == [];
    IdleCallsConcat(a, b + c);
    IdleCallsConcat(b, c);
  }

  lemma NodeCalls(want: Wanted)
    ensures IdleCallsAll(NodeOps(want)) == 6
  {
    var a, b := [Service(KUBELET, want)], [Service(KUBE_PROXY, want)];
    assert NodeOps(want) == a + b && a[1..] == [] && b[1..] == [];
    IdleCallsConcat(a, b);
  }

  lemma PartOfFlat(plan: Plan, j: nat, h: string, i: nat)
    requires j < |plan| && i < |OpsOf(plan[j], h)|
    ensures OpsOf(plan[j], h)[i] in Flat(plan, h)
  {
    assert plan == plan[..j + 1] + plan[j + 1..];
    FlatConcat(plan[..j + 1], plan[j + 1..], h);
    FlatSnoc(plan, j, h);
    var a, b, c := Flat(plan[..j], h), OpsOf(plan[j], h), Flat(plan[j + 1..], h);
    assert (a + b + c)[|a| + i] == b[i];
  }

  /** No operation of the plan has anything to do on this host. */
  ghost predicate AllIdle(plan: Plan, h: string, cs: Containers, want: Wanted) {
    forall op :: op in Flat(plan, h) ==> Idle(op, cs, want)
  }

  lemma PhaseIdle(plan: Plan, j: nat, h: string, d: Daemon, want: Wanted)
    requires j < |plan| && AllIdle(plan, h, d.containers, want)
    ensures ExecAll(OpsOf(plan[j], h), d).0.containers == d.containers
  {
    var ops := OpsOf(plan[j], h);
    forall i | 0 <= i < |ops| ensures Idle(ops[i], d.containers, want) {
      PartOfFlat(plan, j, h, i);
    }
    IdleOps(ops, d, want);
  }

  lemma SequentialPhaseIdle(plan: Plan, j: nat, base: map<string, Daemon>, h: string, want: Wanted)
    requires j < |plan| && DistinctHosts(plan[j]) && HostsOf(plan[j]) <= base.Keys && h in base
    requires AllIdle(plan, h, base[h].containers, want)
    ensures SequentialPhase(plan[j], base).0[h].containers == base[h].containers
  {
    SequentialPhaseAt(plan[j], base);
    PhaseIdle(plan, j, h, base[h], want);
  }

  lemma {:induction false} SequentialIdle(plan: Plan, k: nat, ds: map<string, Daemon>, h: string, want: Wanted)
    requires WellFormed(plan, ds) && k <= |plan| && h in ds && AllIdle(plan, h, ds[h].containers, want)
    ensures Sequential(plan, k, ds).0[h].containers == ds[h].containers
  {
    if k > 0 {
      SequentialIdle(plan, k - 1, ds, h, want);
      var (base, ok) := Sequential(plan, k - 1, ds);
      if ok { SequentialPhaseIdle(plan, k - 1, base, h, want); }
    }
  }

  /** Deploying again to a node that holds what a deployment leaves there changes none of its containers,
      however the goroutines interleave, whatever fails and whatever the other nodes hold. */
  lemma DeployingAgainChangesNothing(nodes: seq<Node>, want: Cluster, ds: map<string, Daemon>, ws: seq<World>, i: nat)
    requires DistinctAddresses(nodes) && i < |nodes| && nodes[i].address in ds
    requires Shape(ds[nodes[i].address].containers, Expected(nodes[i].roles), want(nodes[i].address))
    requires IsRun(DeployPlan(nodes, want), ds, ws) && Ended(DeployPlan(nodes, want), ws[|ws| - 1])
    ensures var h, w := nodes[i].address, ws[|ws| - 1];
            h in w.daemons && w.daemons[h].containers == ds[h].containers
  {
    var plan, h := DeployPlan(nodes, want), nodes[i].address;
    DeployFlat(nodes, want, i);
    HostIdle(nodes[i].roles, want(h), ds[h].containers);
    SequentialIdle(plan, |plan|, ds, h, want(h));
    InterleavingIsSequential(plan, ds, ws);
  }
}
