/** services/controlplane.go, services/workerplane.go and the teardown half of services/etcd.go:
    which containers each plane runs or removes on one host, in which order. */
module Services {
  import opened Docker
  import opened Planes
  import opened Hosts

  const KUBE_API := "kube-api"
  const KUBELET := "kubelet"
  const KUBE_PROXY := "kube-proxy"
  const KUBE_CONTROLLER := "kube-controller"
  const SCHEDULER := "scheduler"
  const ETCD := "etcd"
  const NGINX_PROXY := "nginx-proxy"
  const SIDEKICK := "service-sidekick"

  const SERVICES: set<string> :=
    {KUBE_API, KUBELET, KUBE_PROXY, KUBE_CONTROLLER, SCHEDULER, ETCD, NGINX_PROXY, SIDEKICK}

  datatype Roles = Roles(etcd: bool, control: bool, worker: bool)

  function RolesOf(h: Host): Roles
    reads h
  {
    Roles(h.isEtcd, h.isControl, h.isWorker)
  }

  /** What the cluster wants a host's services to be: service name to image and command. */
  type Wanted = string -> Config

  function Service(name: string, want: Wanted): Op { RunOp(name, want(name), true) }

  function EtcdOps(want: Wanted): seq<Op> { [RunOp(ETCD, want(ETCD), false)] }

  function MasterOps(want: Wanted): seq<Op> {
    [Service(KUBE_API, want), Service(KUBE_CONTROLLER, want), Service(SCHEDULER, want)]
  }

  function ControlOps(r: Roles, want: Wanted): seq<Op> {
    var deploy := [SidekickOp(SIDEKICK, want(SIDEKICK).image)] + MasterOps(want);
    if r.worker then [RemoveOp(NGINX_PROXY)] + deploy else deploy
  }

  function NodeOps(want: Wanted): seq<Op> { [Service(KUBELET, want), Service(KUBE_PROXY, want)] }

  function WorkerOps(r: Roles, want: Wanted): seq<Op> {
    var deploy := [SidekickOp(SIDEKICK, want(SIDEKICK).image)] + NodeOps(want);
    if r.control then deploy else [RunOp(NGINX_PROXY, want(NGINX_PROXY), false)] + deploy
  }

  lemma ExecAllCons(op: Op, rest: seq<Op>, d: Daemon)
    ensures var (e, ok) := Exec(op, op.start, d);
            ExecAll([op] + rest, d) == if ok then ExecAll(rest, e) else (e, false)
  {
    assert ([op] + rest)[1..] == rest;
  }

  /** controlplane.go:79-89: the three master services. */
  method RunMasters(c: Client, want: Wanted) returns (ok: bool)
    modifies c
    ensures (c.D(), ok) == ExecAll(MasterOps(want), old(c.D()))
  {
    ghost var t2 := [Service(SCHEDULER, want)];
    ghost var t1 := [Service(KUBE_CONTROLLER, want)] + t2;
    assert MasterOps(want) == [Service(KUBE_API, want)] + t1;
    ExecAllCons(Service(KUBE_API, want), t1, c.D());
    ok := c.RunService(KUBE_API, want(KUBE_API));
    if !ok { return; }
    ExecAllCons(Service(KUBE_CONTROLLER, want), t2, c.D());
    ok := c.RunService(KUBE_CONTROLLER, want(KUBE_CONTROLLER));
    if !ok { return; }
    ok := c.RunService(SCHEDULER, want(SCHEDULER));
  }

  /** controlplane.go:69-90 */
  method DoDeployControlHost(host: Host, want: Wanted) returns (ok: bool)
    modifies host.client
    ensures (host.client.D(), ok) == ExecAll(ControlOps(RolesOf(host), want), old(host.client.D()))
  {
    var c := host.client;
    ghost var sidekick := SidekickOp(SIDEKICK, want(SIDEKICK).image);
    ghost var t0 := [sidekick] + MasterOps(want);
    if host.isWorker {
      ExecAllCons(RemoveOp(NGINX_PROXY), t0, c.D());
      ok := c.DoRemoveContainer(NGINX_PROXY);
      if !ok { return; }
    }
    ExecAllCons(sidekick, MasterOps(want), c.D());
    ok := c.RunSidekick(SIDEKICK, want(SIDEKICK).image);
    if !ok { return; }
    ok := RunMasters(c, want);
  }

  /** workerplane.go:103-107: kubelet and kube-proxy. */
  method RunNode(c: Client, want: Wanted) returns (ok: bool)
    modifies c
    ensures (c.D(), ok) == ExecAll(NodeOps(want), old(c.D()))
  {
    assert NodeOps(want) == [Service(KUBELET, want)] + [Service(KUBE_PROXY, want)];
    ExecAllCons(Service(KUBELET, want), [Service(KUBE_PROXY, want)], c.D());
    ok := c.RunService(KUBELET, want(KUBELET));
    if !ok { return; }
    ok := c.RunService(KUBE_PROXY, want(KUBE_PROXY));
  }

  /** workerplane.go:86-108 */
  method DoDeployWorkerPlane(host: Host, want: Wanted) returns (ok: bool)
    modifies host.client
    ensures (host.client.D(), ok) == ExecAll(WorkerOps(RolesOf(host), want), old(host.client.D()))
  {
    var c := host.client;
    ghost var sidekick := SidekickOp(SIDEKICK, want(SIDEKICK).image);
    if !host.isControl {
      ExecAllCons(RunOp(NGINX_PROXY, want(NGINX_PROXY), false), [sidekick] + NodeOps(want), c.D());
      ok := c.DoRunContainer(NGINX_PROXY, want(NGINX_PROXY));
      if !ok { return; }
    }
    ExecAllCons(sidekick, NodeOps(want), c.D());
    ok := c.RunSidekick(SIDEKICK, want(SIDEKICK).image);
    if !ok { return; }
    ok := RunNode(c, want);
  }

  // ---------------------------------------------------------------- teardown

  function WorkerRemovals(): seq<Guarded> {
    [Must(RemoveOp(KUBELET)), Must(RemoveOp(KUBE_PROXY)), Must(RemoveOp(NGINX_PROXY)), Must(RemoveOp(SIDEKICK))]
  }

  /** workerplane.go:59-84: a control host ends the whole loop unless `force` is set. */
  function WorkerVisit(r: Roles, force: bool): Visit { Visit(r.control && !force, WorkerRemovals()) }

  /** controlplane.go:28-67: two of the removal errors are turned into nil. */
  function ControlVisit(r: Roles): Visit {
    Visit(false,
          [Must(RemoveOp(KUBE_API)), Lenient(RemoveOp(KUBE_CONTROLLER)), Must(RemoveOp(SCHEDULER))] +
          (if r.worker then []
           else [Must(RemoveOp(KUBELET)), Lenient(RemoveOp(KUBE_PROXY)), Must(RemoveOp(SIDEKICK))]))
  }

  /** etcd.go:35-61 */
  function EtcdVisit(r: Roles, force: bool): Visit {
    Visit(false, [Must(RemoveOp(ETCD))] + (if !r.worker || !r.control || force then WorkerRemovals() else []))
  }

  lemma VisitsOnlyRemove(r: Roles, force: bool)
    ensures OnlyRemovals(WorkerVisit(r, force).work)
    ensures OnlyRemovals(ControlVisit(r).work)
    ensures OnlyRemovals(EtcdVisit(r, force).work)
  {
  }

  /** The worker and etcd removals report every error. */
  lemma NothingSwallowed(r: Roles, force: bool, d: Daemon)
    ensures !Swallowed(WorkerVisit(r, force).work, d) && !Swallowed(EtcdVisit(r, force).work, d)
  {
    var e := EtcdVisit(r, force).work;
    assert forall k :: 1 <= k < |e| ==> e[k] == WorkerRemovals()[k - 1];
  }

  /** controlplane.go:37-39 and controlplane.go:56-58: on a control host an error is swallowed exactly
      when the first removal that fails is that of `kube-controller`, or of `kube-proxy` where the
      host is not a worker. */
  lemma ControlSwallows(r: Roles, d: Daemon)
    ensures var work := ControlVisit(r).work; var k := FirstFailing(work, d);
            Swallowed(work, d) <==>
            k < |work| && (work[k].op.name == KUBE_CONTROLLER || (!r.worker && work[k].op.name == KUBE_PROXY))
  {
    var work, k := ControlVisit(r).work, FirstFailing(ControlVisit(r).work, d);
    assert k < |work| ==> k <= 5;
  }

  // what the visits take

  lemma WorkerRemoved()
    ensures Removed(WorkerRemovals()) == {KUBELET, KUBE_PROXY, NGINX_PROXY, SIDEKICK}
  {
    var d := [Must(RemoveOp(SIDEKICK))] + [];
    var c := [Must(RemoveOp(NGINX_PROXY))] + d;
    var b := [Must(RemoveOp(KUBE_PROXY))] + c;
    assert WorkerRemovals() == [Must(RemoveOp(KUBELET))] + b;
    RemovedCons(Must(RemoveOp(KUBELET)), b);
    RemovedCons(Must(RemoveOp(KUBE_PROXY)), c);
    RemovedCons(Must(RemoveOp(NGINX_PROXY)), d);
    RemovedCons(Must(RemoveOp(SIDEKICK)), []);
  }

  lemma MastersRemoved()
    ensures Removed([Must(RemoveOp(KUBE_API)), Lenient(RemoveOp(KUBE_CONTROLLER)), Must(RemoveOp(SCHEDULER))])
            == {KUBE_API, KUBE_CONTROLLER, SCHEDULER}
  {
    var c := [Must(RemoveOp(SCHEDULER))] + [];
    var b := [Lenient(RemoveOp(KUBE_CONTROLLER))] + c;
    assert [Must(RemoveOp(KUBE_API)), Lenient(RemoveOp(KUBE_CONTROLLER)), Must(RemoveOp(SCHEDULER))]
        == [Must(RemoveOp(KUBE_API))] + b;
    RemovedCons(Must(RemoveOp(KUBE_API)), b);
    RemovedCons(Lenient(RemoveOp(KUBE_CONTROLLER)), c);
    RemovedCons(Must(RemoveOp(SCHEDULER)), []);
  }

  lemma NodeRemoved()
    ensures Removed([Must(RemoveOp(KUBELET)), Lenient(RemoveOp(KUBE_PROXY)), Must(RemoveOp(SIDEKICK))])
            == {KUBELET, KUBE_PROXY, SIDEKICK}
  {
    var c := [Must(RemoveOp(SIDEKICK))] + [];
    var b := [Lenient(RemoveOp(KUBE_PROXY))] + c;
    assert [Must(RemoveOp(KUBELET)), Lenient(RemoveOp(KUBE_PROXY)), Must(RemoveOp(SIDEKICK))]
        == [Must(RemoveOp(KUBELET))] + b;
    RemovedCons(Must(RemoveOp(KUBELET)), b);
    RemovedCons(Lenient(RemoveOp(KUBE_PROXY)), c);
    RemovedCons(Must(RemoveOp(SIDEKICK)), []);
  }

  lemma RemovedConcat(a: seq<Guarded>, b: seq<Guarded>)
    ensures Removed(a + b) == Removed(a) + Removed(b)
  {
    forall g | g in a || g in b ensures g in a + b {
    }
  }

  /** controlplane.go:28-67: a host that stays a worker keeps what it needs as one. */
  lemma ControlRemoved(r: Roles)
    ensures Removed(ControlVisit(r).work)
            == if r.worker then {KUBE_API, KUBE_CONTROLLER, SCHEDULER}
               else {KUBE_API, KUBE_CONTROLLER, SCHEDULER, KUBELET, KUBE_PROXY, SIDEKICK}
  {
    MastersRemoved();
    NodeRemoved();
    RemovedConcat([Must(RemoveOp(KUBE_API)), Lenient(RemoveOp(KUBE_CONTROLLER)), Must(RemoveOp(SCHEDULER))],
                  if r.worker then []
                  else [Must(RemoveOp(KUBELET)), Lenient(RemoveOp(KUBE_PROXY)), Must(RemoveOp(SIDEKICK))]);
  }

  /** etcd.go:35-61: a host with both other roles keeps what it needs for them, unless forced. */
  lemma EtcdRemoved(r: Roles, force: bool)
    ensures Removed(EtcdVisit(r, force).work)
            == if r.worker && r.control && !force then {ETCD}
               else {ETCD, KUBELET, KUBE_PROXY, NGINX_PROXY, SIDEKICK}
  {
    WorkerRemoved();
    RemovedCons(Must(RemoveOp(ETCD)), if !r.worker || !r.control || force then WorkerRemovals() else []);
  }

  function WorkerVisits(hs: seq<Host>, force: bool): (r: seq<Visit>)
    reads hs
    ensures |r| == |hs|
  {
    seq(|hs|, i requires 0 <= i < |hs| reads hs => WorkerVisit(RolesOf(hs[i]), force))
  }

  function ControlVisits(hs: seq<Host>): (r: seq<Visit>)
    reads hs
    ensures |r| == |hs|
  {
    seq(|hs|, i requires 0 <= i < |hs| reads hs => ControlVisit(RolesOf(hs[i])))
  }

  function EtcdVisits(hs: seq<Host>, force: bool): (r: seq<Visit>)
    reads hs
    ensures |r| == |hs|
  {
    seq(|hs|, i requires 0 <= i < |hs| reads hs => EtcdVisit(RolesOf(hs[i]), force))
  }

  /** The calls the teardown loops make on one host. */
  method Remove(c: Client, work: seq<Guarded>) returns (o: Outcome)
    requires OnlyRemovals(work)
    modifies c
    ensures (c.D(), o) == ExecGuarded(work, old(c.D()))
  {
    for i := 0 to |work|
      invariant ExecGuarded(work, old(c.D())) == ExecGuarded(work[i..], c.D())
    {
      assert work[i] in work && work[i..][1..] == work[i + 1..];
      var ok := c.DoRemoveContainer(work[i].op.name);
      if !ok { return if work[i].swallow then Quit else Failed; }
    }
    return Completed;
  }

  /** The state of a sweep that has completed hosts `0..i`. */
  ghost predicate Swept(visits: seq<Visit>, start: seq<Daemon>, now: seq<Daemon>, i: nat) {
    |visits| == |start| == |now| && i <= |now| &&
    var (rest, o) := Sweep(visits[i..], now[i..]);
    Sweep(visits, start) == (now[..i] + rest, o)
  }

  lemma SweptStart(visits: seq<Visit>, start: seq<Daemon>)
    requires |visits| == |start|
    ensures Swept(visits, start, start, 0)
  {
    assert visits[0..] == visits && start[0..] == start;
    assert start[..0] + Sweep(visits, start).0 == Sweep(visits, start).0;
  }

  lemma SweptNext(visits: seq<Visit>, start: seq<Daemon>, now: seq<Daemon>, next: seq<Daemon>, i: nat)
    requires Swept(visits, start, now, i) && i < |now| && !visits[i].stop
    requires |next| == |now| && (next[i], Completed) == ExecGuarded(visits[i].work, now[i])
    requires forall j :: 0 <= j < |now| && j != i ==> next[j] == now[j]
    ensures Swept(visits, start, next, i + 1)
  {
    SweepSplit(visits, now, i);
    assert next[i + 1..] == now[i + 1..] && next[..i + 1] == now[..i] + [next[i]];
    var rest := Sweep(visits[i + 1..], now[i + 1..]).0;
    assert now[..i] + ([next[i]] + rest) == now[..i] + [next[i]] + rest;
  }

  lemma SweptEnd(visits: seq<Visit>, start: seq<Daemon>, now: seq<Daemon>, next: seq<Daemon>, i: nat, o: Outcome)
    requires Swept(visits, start, now, i) && i < |now| && !visits[i].stop && o != Completed
    requires |next| == |now| && (next[i], o) == ExecGuarded(visits[i].work, now[i])
    requires forall j :: 0 <= j < |now| && j != i ==> next[j] == now[j]
    ensures Sweep(visits, start) == (next, o)
  {
    SweepSplit(visits, now, i);
    assert now[..i] + ([next[i]] + now[i + 1..]) == next;
  }

  method RemoveAt(hosts: seq<Host>, i: nat, work: seq<Guarded>) returns (o: Outcome)
    requires Separate(hosts) && i < |hosts| && OnlyRemovals(work)
    modifies hosts[i].client
    ensures (States(hosts)[i], o) == ExecGuarded(work, old(States(hosts))[i])
    ensures forall j :: 0 <= j < |hosts| && j != i ==> States(hosts)[j] == old(States(hosts))[j]
  {
    o := Remove(hosts[i].client, work);
  }

  lemma SweptStop(visits: seq<Visit>, start: seq<Daemon>, now: seq<Daemon>, i: nat)
    requires Swept(visits, start, now, i) && i < |now| && visits[i].stop
    ensures Sweep(visits, start) == (now, Quit)
  {
    SweepSplit(visits, now, i);
    assert now == now[..i] + now[i..];
  }

  lemma SweptAll(visits: seq<Visit>, start: seq<Daemon>, now: seq<Daemon>)
    requires Swept(visits, start, now, |now|)
    ensures Sweep(visits, start) == (now, Completed)
  {
    assert now[..|now|] + [] == now;
  }

  /** The loop body for host `i`. */
  method VisitHost(hosts: seq<Host>, visits: seq<Visit>, i: nat, ghost start: seq<Daemon>) returns (o: Outcome)
    requires Separate(hosts) && i < |hosts| == |visits| && OnlyRemovals(visits[i].work)
    requires Swept(visits, start, States(hosts), i)
    modifies hosts[i].client
    ensures if o == Completed then Swept(visits, start, States(hosts), i + 1)
            else Sweep(visits, start) == (States(hosts), o)
  {
    ghost var now := States(hosts);
    if visits[i].stop {
      SweptStop(visits, start, now, i);
      return Quit;
    }
    o := RemoveAt(hosts, i, visits[i].work);
    if o == Completed {
      SweptNext(visits, start, now, States(hosts), i);
    } else {
      SweptEnd(visits, start, now, States(hosts), i, o);
    }
  }

  /** The loop the three teardown functions share. */
  method SweepHosts(hosts: seq<Host>, visits: seq<Visit>) returns (o: Outcome)
    requires Separate(hosts) && |visits| == |hosts| && AllRemovals(visits)
    modifies Clients(hosts)
    ensures (States(hosts), o) == Sweep(visits, old(States(hosts)))
  {
    ghost var start := States(hosts);
    SweptStart(visits, start);
    for i := 0 to |hosts|
      invariant Swept(visits, start, States(hosts), i)
    {
      o := VisitHost(hosts, visits, i, start);
      if o != Completed { return; }
    }
    SweptAll(visits, start, States(hosts));
    return Completed;
  }

  /** The first host that ends the loop: without `force` the first control host. */
  function FirstStop(visits: seq<Visit>): (k: nat)
    ensures k <= |visits| && (k < |visits| ==> visits[k].stop) && forall i :: 0 <= i < k ==> !visits[i].stop
  {
    if visits == [] || visits[0].stop then 0 else 1 + FirstStop(visits[1..])
  }

  lemma {:induction false} UnfinishedAtStop(visits: seq<Visit>, ds: seq<Daemon>)
    requires |visits| == |ds|
    ensures var k := FirstUnfinished(visits, ds);
            k <= FirstStop(visits) &&
            (k < |ds| && visits[k].stop ==> k == FirstStop(visits))
  {
    if visits != [] {
      UnfinishedAtStop(visits[1..], ds[1..]);
    }
  }

  /** Where no error is swallowed, nil means that every host before the one that ends the loop lost
      exactly the containers its visit names, whatever failed. */
  lemma NilMeansCleared(visits: seq<Visit>, ds: seq<Daemon>)
    requires |visits| == |ds| && AllRemovals(visits) && Sweep(visits, ds).1 != Failed
    requires forall i :: 0 <= i < |ds| ==> !Swallowed(visits[i].work, ds[i])
    ensures ClearedTo(visits, ds, Sweep(visits, ds).0, FirstStop(visits))
  {
    SweepOutcome(visits, ds);
    SweepClears(visits, ds);
    UnfinishedAtStop(visits, ds);
  }

  /** No call on any of the hosts is going to fail and no host ends the loop. */
  ghost predicate Clean(visits: seq<Visit>, ds: seq<Daemon>) {
    |visits| == |ds| && AllQuiet(ds) && forall i :: 0 <= i < |ds| ==> !visits[i].stop
  }

  /** `es` and the outcome `o` are as a sweep leaves them: what completed is cleared, and without
      failures it completes. */
  ghost predicate SweptResult(visits: seq<Visit>, ds: seq<Daemon>, es: seq<Daemon>, o: Outcome) {
    |visits| == |ds| && (es, o) == Sweep(visits, ds) && (o == Completed ==> ClearedTo(visits, ds, es, |ds|)) &&
    (Clean(visits, ds) ==> o == Completed && AllQuiet(es))
  }

  lemma SweepResult(visits: seq<Visit>, ds: seq<Daemon>)
    requires |visits| == |ds| && AllRemovals(visits)
    ensures SweptResult(visits, ds, Sweep(visits, ds).0, Sweep(visits, ds).1)
  {
    SweepClears(visits, ds);
    SweepOutcome(visits, ds);
    if Clean(visits, ds) { QuietSweep(visits, ds); }
  }

  lemma VisitsRemove(hosts: seq<Host>, force: bool)
    ensures AllRemovals(WorkerVisits(hosts, force)) && AllRemovals(ControlVisits(hosts)) &&
            AllRemovals(EtcdVisits(hosts, force))
  {
    forall i | 0 <= i < |hosts|
      ensures OnlyRemovals(WorkerVisits(hosts, force)[i].work) && OnlyRemovals(ControlVisits(hosts)[i].work)
      ensures OnlyRemovals(EtcdVisits(hosts, force)[i].work)
    {
      VisitsOnlyRemove(RolesOf(hosts[i]), force);
    }
  }

  /** With `force` no host ends the worker removal, so nil means that it ran to its end on every host. */
  lemma {:induction false} WorkerNilDone(hosts: seq<Host>, ds: seq<Daemon>, i: nat)
    requires |ds| == |hosts| && i < |hosts| && Sweep(WorkerVisits(hosts, true), ds).1 != Failed
    ensures Sweep(WorkerVisits(hosts, true), ds).0[i] == ExecGuarded(WorkerVisit(RolesOf(hosts[i]), true).work, ds[i]).0
  {
    var visits := WorkerVisits(hosts, true);
    SweepOutcome(visits, ds);
    var k := FirstUnfinished(visits, ds);
    if k < |ds| { NothingSwallowed(RolesOf(hosts[k]), true, ds[k]); }
    SweepDone(visits, ds, i);
  }

  /** With nothing swallowed, `ok` alone tells what the worker and etcd removals did. */
  lemma {:induction false} WorkerNil(hosts: seq<Host>, force: bool, ds: seq<Daemon>)
    requires |ds| == |hosts| && Sweep(WorkerVisits(hosts, force), ds).1 != Failed
    ensures var visits := WorkerVisits(hosts, force);
            ClearedTo(visits, ds, Sweep(visits, ds).0, if force then |hosts| else FirstStop(visits))
  {
    VisitsRemove(hosts, force);
    forall i | 0 <= i < |hosts| ensures !Swallowed(WorkerVisits(hosts, force)[i].work, ds[i]) {
      NothingSwallowed(RolesOf(hosts[i]), force, ds[i]);
    }
    NilMeansCleared(WorkerVisits(hosts, force), ds);
  }

  lemma {:induction false} EtcdNil(hosts: seq<Host>, force: bool, ds: seq<Daemon>)
    requires |ds| == |hosts| && Sweep(EtcdVisits(hosts, force), ds).1 != Failed
    ensures var visits := EtcdVisits(hosts, force); ClearedTo(visits, ds, Sweep(visits, ds).0, |hosts|)
  {
    VisitsRemove(hosts, force);
    forall i | 0 <= i < |hosts| ensures !Swallowed(EtcdVisits(hosts, force)[i].work, ds[i]) {
      NothingSwallowed(RolesOf(hosts[i]), force, ds[i]);
    }
    NilMeansCleared(EtcdVisits(hosts, force), ds);
  }

  /** Hosts from one that ends the loop on are left alone, whatever happened before. */
  lemma {:induction false} SweepStopsThere(visits: seq<Visit>, ds: seq<Daemon>, i: nat, j: nat)
    requires |visits| == |ds| && i <= j < |ds| && visits[i].stop
    ensures Sweep(visits, ds).0[j] == ds[j]
  {
    if !visits[0].stop { SweepStopsThere(visits[1..], ds[1..], i - 1, j - 1); }
  }

  lemma {:induction false} BeforeStop(visits: seq<Visit>, j: nat)
    requires j < |visits| && forall i :: 0 <= i <= j ==> !visits[i].stop
    ensures j < FirstStop(visits)
  {
    if j > 0 {
      assert visits[1..][j - 1] == visits[j];
      BeforeStop(visits[1..], j - 1);
    }
  }

  /** The daemon of host `i` lost exactly these containers. */
  ghost predicate Lost(before: seq<Daemon>, after: seq<Daemon>, i: nat, names: set<string>) {
    i < |before| == |after| && after[i].containers == before[i].containers - names
  }

  /** workerplane.go:59-84 for host `j`: nil means that it lost its containers if no control host comes
      before it and it is none, or if `force` is set. */
  lemma {:induction false} WorkerHost(hosts: seq<Host>, force: bool, ds: seq<Daemon>, j: nat)
    requires |ds| == |hosts| && j < |hosts| && Sweep(WorkerVisits(hosts, force), ds).1 != Failed
    requires force || forall i :: 0 <= i <= j ==> !hosts[i].isControl
    ensures Lost(ds, Sweep(WorkerVisits(hosts, force), ds).0, j, {KUBELET, KUBE_PROXY, NGINX_PROXY, SIDEKICK})
  {
    WorkerNil(hosts, force, ds);
    WorkerRemoved();
    BeforeStop(WorkerVisits(hosts, force), j);
  }

  lemma {:induction false} ControlHost(hosts: seq<Host>, ds: seq<Daemon>, j: nat)
    requires |ds| == |hosts| && j < |hosts| && Sweep(ControlVisits(hosts), ds).1 == Completed
    ensures Lost(ds, Sweep(ControlVisits(hosts), ds).0, j,
                 if hosts[j].isWorker then {KUBE_API, KUBE_CONTROLLER, SCHEDULER}
                 else {KUBE_API, KUBE_CONTROLLER, SCHEDULER, KUBELET, KUBE_PROXY, SIDEKICK})
  {
    VisitsRemove(hosts, true);
    SweepResult(ControlVisits(hosts), ds);
    ControlRemoved(RolesOf(hosts[j]));
  }

  lemma {:induction false} EtcdHostLost(hosts: seq<Host>, force: bool, ds: seq<Daemon>, j: nat)
    requires |ds| == |hosts| && j < |hosts| && Sweep(EtcdVisits(hosts, force), ds).1 != Failed
    ensures Lost(ds, Sweep(EtcdVisits(hosts, force), ds).0, j,
                 if hosts[j].isWorker && hosts[j].isControl && !force then {ETCD}
                 else {ETCD, KUBELET, KUBE_PROXY, NGINX_PROXY, SIDEKICK})
  {
    EtcdNil(hosts, force, ds);
    EtcdRemoved(RolesOf(hosts[j]), force);
  }

  /** Without failures the loops end with nil. */
  lemma {:induction false} QuietIsNil(visits: seq<Visit>, ds: seq<Daemon>)
    requires |visits| == |ds| && AllRemovals(visits) && AllQuiet(ds)
    ensures Sweep(visits, ds).1 != Failed
  {
    if visits != [] && !visits[0].stop {
      QuietRemovals(visits[0].work, ds[0]);
      QuietIsNil(visits[1..], ds[1..]);
    }
  }

  method RemoveWorkerPlane(hosts: seq<Host>, force: bool) returns (ok: bool, ghost o: Outcome)
    requires Separate(hosts)
    modifies Clients(hosts)
    ensures SweptResult(WorkerVisits(hosts, force), old(States(hosts)), States(hosts), o) && (ok <==> o != Failed)
    ensures var visits := WorkerVisits(hosts, force);
            ok ==> ClearedTo(visits, old(States(hosts)), States(hosts), if force then |hosts| else FirstStop(visits))
    ensures !force ==>
            forall i, j :: 0 <= i <= j < |hosts| && hosts[i].isControl ==> States(hosts)[j] == old(States(hosts))[j]
    ensures ok ==> forall j :: 0 <= j < |hosts| && (force || forall i :: 0 <= i <= j ==> !hosts[i].isControl) ==>
                     Lost(old(States(hosts)), States(hosts), j, {KUBELET, KUBE_PROXY, NGINX_PROXY, SIDEKICK})
    ensures AllQuiet(old(States(hosts))) ==> ok
  {
    ghost var ds := States(hosts);
    VisitsRemove(hosts, force);
    SweepResult(WorkerVisits(hosts, force), ds);
    var end := SweepHosts(hosts, WorkerVisits(hosts, force));
    ok, o := end != Failed, end;
    if AllQuiet(ds) { QuietIsNil(WorkerVisits(hosts, force), ds); }
    if !force {
      forall i, j | 0 <= i <= j < |hosts| && hosts[i].isControl ensures States(hosts)[j] == ds[j] {
        SweepStopsThere(WorkerVisits(hosts, force), ds, i, j);
      }
    }
    if ok {
      WorkerNil(hosts, force, ds);
      forall j | 0 <= j < |hosts| && (force || forall i :: 0 <= i <= j ==> !hosts[i].isControl)
        ensures Lost(ds, States(hosts), j, {KUBELET, KUBE_PROXY, NGINX_PROXY, SIDEKICK})
      {
        WorkerHost(hosts, force, ds, j);
      }
    }
  }

  /** Nil means removed when the sweep completed; `ControlPlaneQuits` says when it did not. */
  method RemoveControlPlane(hosts: seq<Host>) returns (ok: bool, ghost o: Outcome)
    requires Separate(hosts)
    modifies Clients(hosts)
    ensures SweptResult(ControlVisits(hosts), old(States(hosts)), States(hosts), o) && (ok <==> o != Failed)
    ensures AllQuiet(old(States(hosts))) ==> o == Completed
    ensures o == Completed ==>
            forall j :: 0 <= j < |hosts| ==>
              if hosts[j].isWorker
              then Lost(old(States(hosts)), States(hosts), j, {KUBE_API, KUBE_CONTROLLER, SCHEDULER})
              else Lost(old(States(hosts)), States(hosts), j,
                        {KUBE_API, KUBE_CONTROLLER, SCHEDULER, KUBELET, KUBE_PROXY, SIDEKICK})
  {
    ghost var ds := States(hosts);
    VisitsRemove(hosts, true);
    SweepResult(ControlVisits(hosts), ds);
    var end := SweepHosts(hosts, ControlVisits(hosts));
    ok, o := end != Failed, end;
    if end == Completed {
      forall j | 0 <= j < |hosts|
        ensures if hosts[j].isWorker then Lost(ds, States(hosts), j, {KUBE_API, KUBE_CONTROLLER, SCHEDULER})
                else Lost(ds, States(hosts), j,
                          {KUBE_API, KUBE_CONTROLLER, SCHEDULER, KUBELET, KUBE_PROXY, SIDEKICK})
      {
        ControlHost(hosts, ds, j);
      }
    }
  }

  /** The control plane's removal returns nil without having removed everything exactly when, on the
      first host where a removal fails, the first one to fail is that of `kube-controller`, or of
      `kube-proxy` where that host is not a worker. */
  lemma ControlPlaneQuits(roles: seq<Roles>, visits: seq<Visit>, ds: seq<Daemon>)
    requires |roles| == |visits| == |ds| && forall i :: 0 <= i < |roles| ==> visits[i] == ControlVisit(roles[i])
    ensures var k := FirstUnfinished(visits, ds);
            Sweep(visits, ds).1 == Quit <==>
            k < |ds| && var work := visits[k].work; var f := FirstFailing(work, ds[k]);
                        f < |work| &&
                        (work[f].op.name == KUBE_CONTROLLER || (!roles[k].worker && work[f].op.name == KUBE_PROXY))
  {
    SweepOutcome(visits, ds);
    var k := FirstUnfinished(visits, ds);
    if k < |ds| { ControlSwallows(roles[k], ds[k]); }
  }

  /** A daemon on which the second call fails: nil is returned and `kube-controller` stays. */
  lemma NilYetKubeControllerStays()
    ensures var d := Daemon(map[KUBE_CONTROLLER := Container(0, "controller", [], true)], 1, n => n == 2);
            var (es, o) := Sweep([ControlVisit(Roles(false, true, false))], [d]);
            o == Quit && KUBE_CONTROLLER in es[0].containers
  {
    var d := Daemon(map[KUBE_CONTROLLER := Container(0, "controller", [], true)], 1, n => n == 2);
    var visit := ControlVisit(Roles(false, true, false));
    var api, controller := RemoveOp(KUBE_API), RemoveOp(KUBE_CONTROLLER);
    var d1 := d.After(d.containers);
    assert KUBE_API != KUBE_CONTROLLER;
    assert Step(api, InspectRemove, d) == (Done(true), d1);
    assert Exec(api, InspectRemove, d) == (d1, true);
    assert Step(controller, InspectRemove, d1) == (Done(false), d1.After(d.containers));
    assert Exec(controller, InspectRemove, d1) == (d1.After(d.containers), false);
    assert visit.work[1..][0] == Lenient(controller);
    assert ExecGuarded(visit.work[1..], d1) == (d1.After(d.containers), Quit);
    assert ExecGuarded(visit.work, d) == (d1.After(d.containers), Quit);
  }

  method RemoveEtcdPlane(hosts: seq<Host>, force: bool) returns (ok: bool, ghost o: Outcome)
    requires Separate(hosts)
    modifies Clients(hosts)
    ensures SweptResult(EtcdVisits(hosts, force), old(States(hosts)), States(hosts), o) && (ok <==> o != Failed)
    ensures AllQuiet(old(States(hosts))) ==> o == Completed
    ensures ok ==> ClearedTo(EtcdVisits(hosts, force), old(States(hosts)), States(hosts), |hosts|)
    ensures ok ==>
            forall j :: 0 <= j < |hosts| ==>
              if hosts[j].isWorker && hosts[j].isControl && !force
              then Lost(old(States(hosts)), States(hosts), j, {ETCD})
              else Lost(old(States(hosts)), States(hosts), j, {ETCD, KUBELET, KUBE_PROXY, NGINX_PROXY, SIDEKICK})
  {
    ghost var ds := States(hosts);
    VisitsRemove(hosts, force);
    SweepResult(EtcdVisits(hosts, force), ds);
    var end := SweepHosts(hosts, EtcdVisits(hosts, force));
    ok, o := end != Failed, end;
    if ok {
      EtcdNil(hosts, force, ds);
      forall j | 0 <= j < |hosts|
        ensures if hosts[j].isWorker && hosts[j].isControl && !force then Lost(ds, States(hosts), j, {ETCD})
                else Lost(ds, States(hosts), j, {ETCD, KUBELET, KUBE_PROXY, NGINX_PROXY, SIDEKICK})
      {
        EtcdHostLost(hosts, force, ds, j);
      }
    }
  }
}
