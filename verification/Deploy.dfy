/** cluster/cluster.go:56-91 and cluster/remove.go: a whole deployment on fresh hosts, and its inverse.

    The deployment is the plan etcd hosts one by one, then all control hosts at once, then the
    worker plane on the etcd, the control and the worker hosts, each phase behind a barrier. */
module Deploy {
  import opened Docker
  import opened Planes
  import opened Services

  datatype Node = Node(address: string, roles: Roles)

  ghost predicate DistinctAddresses(nodes: seq<Node>) {
    forall i, j :: 0 <= i < j < |nodes| ==> nodes[i].address != nodes[j].address
  }

  /** What each address should run. */
  type Cluster = string -> Wanted

  function EtcdPhases(nodes: seq<Node>, want: Cluster): Plan {
    if nodes == [] then []
    else
      var rest := EtcdPhases(nodes[1..], want);
      if nodes[0].roles.etcd then [[Job(nodes[0].address, EtcdOps(want(nodes[0].address)))]] + rest else rest
  }

  /** One goroutine per node that `pick` selects, in list order. */
  function Select(nodes: seq<Node>, pick: Roles -> bool, ops: Node -> seq<Op>): Phase {
    if nodes == [] then []
    else
      var rest := Select(nodes[1..], pick, ops);
      if pick(nodes[0].roles) then [Job(nodes[0].address, ops(nodes[0]))] + rest else rest
  }

  function ControlJob(want: Cluster): Node -> seq<Op> { (n: Node) => ControlOps(n.roles, want(n.address)) }
  function WorkerJob(want: Cluster): Node -> seq<Op> { (n: Node) => WorkerOps(n.roles, want(n.address)) }
  function IsEtcd(): Roles -> bool { (r: Roles) => r.etcd }
  function IsControl(): Roles -> bool { (r: Roles) => r.control }
  function IsWorker(): Roles -> bool { (r: Roles) => r.worker }

  function Parallel(nodes: seq<Node>, want: Cluster): Plan {
    [Select(nodes, IsControl(), ControlJob(want)), Select(nodes, IsEtcd(), WorkerJob(want)),
     Select(nodes, IsControl(), WorkerJob(want)), Select(nodes, IsWorker(), WorkerJob(want))]
  }

  function DeployPlan(nodes: seq<Node>, want: Cluster): Plan { EtcdPhases(nodes, want) + Parallel(nodes, want) }

  // ---------------------------------------------------------------- what one host is asked to do

  /** All operations of a plan on one host, in order. */
  function Flat(plan: Plan, h: string): seq<Op> {
    if plan == [] then [] else OpsOf(plan[0], h) + Flat(plan[1..], h)
  }

  lemma {:induction false} FlatConcat(a: Plan, b: Plan, h: string)
    ensures Flat(a + b, h) == Flat(a, h) + Flat(b, h)
  {
    if a == [] {
      assert a + b == b;
    } else {
      assert (a + b)[1..] == a[1..] + b;
      FlatConcat(a[1..], b, h);
    }
  }

  lemma FlatSnoc(plan: Plan, k: nat, h: string)
    requires k < |plan|
    ensures Flat(plan[..k + 1], h) == Flat(plan[..k], h) + OpsOf(plan[k], h)
  {
    assert plan[..k + 1] == plan[..k] + [plan[k]];
    FlatConcat(plan[..k], [plan[k]], h);
    Flat1(plan[k], h);
  }

  lemma SequentialPhaseHost(p: Phase, ds: map<string, Daemon>, h: string)
    requires HostsOf(p) <= ds.Keys && DistinctHosts(p) && h in ds && SequentialPhase(p, ds).1
    ensures ExecAll(OpsOf(p, h), ds[h]) == (SequentialPhase(p, ds).0[h], true)
  {
    SequentialPhaseAt(p, ds);
    if h !in HostsOf(p) { OpsOfAbsent(p, h); }
  }

  /** A successful sequential deployment did exactly a host's own operations on it. */
  lemma {:induction false} SequentialHost(plan: Plan, k: nat, ds: map<string, Daemon>, h: string)
    requires WellFormed(plan, ds) && k <= |plan| && h in ds && Sequential(plan, k, ds).1
    ensures ExecAll(Flat(plan[..k], h), ds[h]) == (Sequential(plan, k, ds).0[h], true)
  {
    if k > 0 {
      SequentialHost(plan, k - 1, ds, h);
      var base := Sequential(plan, k - 1, ds).0;
      SequentialPhaseHost(plan[k - 1], base, h);
      FlatSnoc(plan, k - 1, h);
      ExecAllConcat(Flat(plan[..k - 1], h), OpsOf(plan[k - 1], h), ds[h]);
    }
  }

  function AddressesOf(nodes: seq<Node>): set<string> { set n | n in nodes :: n.address }

  lemma HeadAddress(nodes: seq<Node>)
    requires nodes != []
    ensures AddressesOf(nodes) == {nodes[0].address} + AddressesOf(nodes[1..])
    ensures DistinctAddresses(nodes) ==> DistinctAddresses(nodes[1..]) && nodes[0].address !in AddressesOf(nodes[1..])
  {
    assert nodes == [nodes[0]] + nodes[1..];
  }

  lemma JobHosts(job: Job, q: Phase)
    ensures HostsOf([job] + q) == {job.host} + HostsOf(q)
  {
    var p := [job] + q;
    assert p[0] == job && p[1..] == q;
    forall h | h in HostsOf(p) ensures h in {job.host} + HostsOf(q) {
      var j :| j in p && j.host == h;
    }
    forall h | h in {job.host} + HostsOf(q) ensures h in HostsOf(p) {
      if h == job.host { assert job in p; }
      else { var j :| j in q && j.host == h; assert j in p; }
    }
  }

  lemma {:induction false} SelectHosts(nodes: seq<Node>, pick: Roles -> bool, ops: Node -> seq<Op>)
    requires DistinctAddresses(nodes)
    ensures HostsOf(Select(nodes, pick, ops)) <= AddressesOf(nodes)
    ensures DistinctHosts(Select(nodes, pick, ops))
  {
    if nodes != [] {
      HeadAddress(nodes);
      SelectHosts(nodes[1..], pick, ops);
      var q := Select(nodes[1..], pick, ops);
      if pick(nodes[0].roles) {
        JobHosts(Job(nodes[0].address, ops(nodes[0])), q);
        forall j | 0 <= j < |q| ensures q[j].host != nodes[0].address {
          assert q[j] in q && q[j].host in HostsOf(q);
        }
      }
    }
  }

  lemma {:induction false} SelectOps(nodes: seq<Node>, pick: Roles -> bool, ops: Node -> seq<Op>, i: nat)
    requires DistinctAddresses(nodes) && i < |nodes|
    ensures OpsOf(Select(nodes, pick, ops), nodes[i].address) == if pick(nodes[i].roles) then ops(nodes[i]) else []
  {
    HeadAddress(nodes);
    SelectHosts(nodes[1..], pick, ops);
    var q := Select(nodes[1..], pick, ops);
    if i == 0 {
      OpsOfAbsent(q, nodes[0].address);
    } else {
      assert nodes[i] == nodes[1..][i - 1] && nodes[0].address != nodes[i].address;
      SelectOps(nodes[1..], pick, ops, i - 1);
    }
    if pick(nodes[0].roles) { assert Select(nodes, pick, ops)[1..] == q; }
  }

  lemma {:induction false} EtcdPhaseHosts(nodes: seq<Node>, want: Cluster, k: nat)
    requires k < |EtcdPhases(nodes, want)|
    ensures var p := EtcdPhases(nodes, want)[k]; DistinctHosts(p) && HostsOf(p) <= AddressesOf(nodes)
  {
    HeadAddress(nodes);
    var rest := EtcdPhases(nodes[1..], want);
    if nodes[0].roles.etcd {
      var job := Job(nodes[0].address, EtcdOps(want(nodes[0].address)));
      if k == 0 {
        JobHosts(job, []);
        assert [job] + [] == [job] && HostsOf([]) == {};
      } else {
        EtcdPhaseHosts(nodes[1..], want, k - 1);
      }
    } else {
      EtcdPhaseHosts(nodes[1..], want, k);
    }
  }

  lemma {:induction false} EtcdFlat(nodes: seq<Node>, want: Cluster, h: string)
    requires DistinctAddresses(nodes)
    ensures h !in AddressesOf(nodes) ==> Flat(EtcdPhases(nodes, want), h) == []
    ensures forall i :: 0 <= i < |nodes| && nodes[i].address == h ==>
              Flat(EtcdPhases(nodes, want), h) == if nodes[i].roles.etcd then EtcdOps(want(h)) else []
  {
    if nodes != [] {
      HeadAddress(nodes);
      EtcdFlat(nodes[1..], want, h);
      var rest := EtcdPhases(nodes[1..], want);
      if nodes[0].roles.etcd {
        var p := [Job(nodes[0].address, EtcdOps(want(nodes[0].address)))];
        FlatConcat([p], rest, h);
        Flat1(p, h);
        assert OpsOf(p, h) == if nodes[0].address == h then EtcdOps(want(h)) else OpsOf([], h);
      }
      assert forall i :: 1 <= i < |nodes| ==> nodes[i] == nodes[1..][i - 1];
    }
  }

  function HostOps(r: Roles, want: Wanted): seq<Op> {
    (if r.etcd then EtcdOps(want) else []) +
    (if r.control then ControlOps(r, want) else []) +
    (if r.etcd then WorkerOps(r, want) else []) +
    (if r.control then WorkerOps(r, want) else []) +
    (if r.worker then WorkerOps(r, want) else [])
  }

  lemma Flat1(a: Phase, h: string)
    ensures Flat([a], h) == OpsOf(a, h)
  {
    assert [a][1..] == [];
    assert Flat([a], h) == OpsOf(a, h) + [];
  }

  lemma Flat4(a: Phase, b: Phase, c: Phase, d: Phase, h: string)
    ensures Flat([a, b, c, d], h) == OpsOf(a, h) + OpsOf(b, h) + OpsOf(c, h) + OpsOf(d, h)
  {
    assert [a, b, c, d] == [a] + [b] + [c] + [d];
    FlatConcat([a], [b], h);
    FlatConcat([a] + [b], [c], h);
    FlatConcat([a] + [b] + [c], [d], h);
    Flat1(a, h); Flat1(b, h); Flat1(c, h); Flat1(d, h);
  }

  lemma ParallelFlat(nodes: seq<Node>, want: Cluster, i: nat)
    requires DistinctAddresses(nodes) && i < |nodes|
    ensures var h, r := nodes[i].address, nodes[i].roles;
            (if r.etcd then EtcdOps(want(h)) else []) + Flat(Parallel(nodes, want), h) == HostOps(r, want(h))
  {
    var h, r := nodes[i].address, nodes[i].roles;
    var c, e, d, w := Select(nodes, IsControl(), ControlJob(want)), Select(nodes, IsEtcd(), WorkerJob(want)),
                      Select(nodes, IsControl(), WorkerJob(want)), Select(nodes, IsWorker(), WorkerJob(want));
    SelectOps(nodes, IsControl(), ControlJob(want), i);
    SelectOps(nodes, IsEtcd(), WorkerJob(want), i);
    SelectOps(nodes, IsControl(), WorkerJob(want), i);
    SelectOps(nodes, IsWorker(), WorkerJob(want), i);
    Flat4(c, e, d, w, h);
    Regroup(if r.etcd then EtcdOps(want(h)) else [], OpsOf(c, h), OpsOf(e, h), OpsOf(d, h), OpsOf(w, h));
  }

  lemma Regroup(a: seq<Op>, b: seq<Op>, c: seq<Op>, d: seq<Op>, e: seq<Op>)
    ensures a + (b + c + d + e) == a + b + c + d + e
  {
  }

  /** The operations a deployment has for one node are a function of its roles. */
  lemma DeployFlat(nodes: seq<Node>, want: Cluster, i: nat)
    requires DistinctAddresses(nodes) && i < |nodes|
    ensures Flat(DeployPlan(nodes, want), nodes[i].address) == HostOps(nodes[i].roles, want(nodes[i].address))
  {
    FlatConcat(EtcdPhases(nodes, want), Parallel(nodes, want), nodes[i].address);
    EtcdFlat(nodes, want, nodes[i].address);
    ParallelFlat(nodes, want, i);
  }

  lemma DeployWellFormed(nodes: seq<Node>, want: Cluster, ds: map<string, Daemon>)
    requires DistinctAddresses(nodes) && AddressesOf(nodes) <= ds.Keys
    ensures WellFormed(DeployPlan(nodes, want), ds)
  {
    var plan, n := DeployPlan(nodes, want), |EtcdPhases(nodes, want)|;
    forall k | 0 <= k < |plan| ensures DistinctHosts(plan[k]) && HostsOf(plan[k]) <= ds.Keys {
      if k < n {
        EtcdPhaseHosts(nodes, want, k);
      } else {
        SelectHosts(nodes, IsControl(), ControlJob(want));
        SelectHosts(nodes, IsEtcd(), WorkerJob(want));
        SelectHosts(nodes, IsControl(), WorkerJob(want));
        SelectHosts(nodes, IsWorker(), WorkerJob(want));
        assert plan[k] == Parallel(nodes, want)[k - n];
      }
    }
  }
}
