/** Removing what a deployment built: when exactly a `ClusterRemove` that returns nil leaves bare hosts
    (cluster/remove.go:12-35 after cluster/cluster.go:56-91). */
module Removal {
  import opened Docker
  import opened Planes
  import opened Hosts
  import opened Services
  import opened Deploy
  import opened Lifecycle
  import opened Teardown

  // ---------------------------------------------------------------- one host

  /** The services present are those the roles call for, with no leftover of an update. */
  ghost predicate Standing(cs: Containers, r: Roles) {
    forall s :: s in SERVICES ==> OldName(s) !in cs && (s in cs <==> s in Expected(r))
  }

  predicate SomeRole(r: Roles) { r.etcd || r.control || r.worker }

  /** The names left on a host that stood with roles `r` when the control removal took `taken`. */
  function LeftNames(cs: Containers, r: Roles, taken: set<string>): set<string> {
    cs.Keys - WorkerTake(r) - taken - EtcdTake(r) - {CLEANER}
  }

  lemma BareWhenCovered(cs: Containers, r: Roles, taken: set<string>, left: Containers)
    requires Standing(cs, r) && Expected(r) <= WorkerTake(r) + taken + EtcdTake(r)
    requires left.Keys == LeftNames(cs, r, taken)
    ensures Bare(left)
  {
  }

  /** A removal that completed on the host leaves it bare. */
  lemma BareWhenCompleted(cs: Containers, r: Roles, left: Containers)
    requires Standing(cs, r) && SomeRole(r) && left.Keys == LeftNames(cs, r, ControlTake(r))
    ensures Bare(left)
  {
    TornDownNames(r);
    BareWhenCovered(cs, r, ControlTake(r), left);
  }

  lemma EtcdsTake(r: Roles)
    ensures EtcdTake(r) == if r.etcd then {ETCD, KUBELET, KUBE_PROXY, NGINX_PROXY, SIDEKICK} else {}
  {
    EtcdRemoved(r, true);
  }

  lemma WorkersTake(r: Roles)
    ensures WorkerTake(r) == if r.worker then {KUBELET, KUBE_PROXY, NGINX_PROXY, SIDEKICK} else {}
  {
    WorkerRemoved();
  }

  /** What is gone when the removal of `kube-controller`, or of `kube-proxy`, is the first to fail. */
  lemma ControlPrefix(r: Roles)
    ensures var work := ControlVisit(r).work;
            Removed(work[..1]) == {KUBE_API} &&
            (!r.worker ==> |work| == 6 && Removed(work[..4]) == {KUBE_API, KUBE_CONTROLLER, SCHEDULER, KUBELET})
  {
    var work := ControlVisit(r).work;
    assert work[..1] == [Must(RemoveOp(KUBE_API))];
    if !r.worker {
      assert work[..4] == [Must(RemoveOp(KUBE_API)), Lenient(RemoveOp(KUBE_CONTROLLER)),
                           Must(RemoveOp(SCHEDULER)), Must(RemoveOp(KUBELET))];
      assert forall g :: g in work[..4] <==> g == work[0] || g == work[1] || g == work[2] || g == work[3];
      assert work[0] in work[..4] && work[1] in work[..4] && work[2] in work[..4] && work[3] in work[..4];
    }
  }

  lemma Stays(cs: Containers, r: Roles, taken: set<string>, left: Containers, s: string)
    requires Standing(cs, r) && s in SERVICES && s in Expected(r) && s != CLEANER
    requires s !in WorkerTake(r) && s !in taken && s !in EtcdTake(r) && left.Keys == LeftNames(cs, r, taken)
    ensures !Bare(left)
  {
    assert s in left;
  }

  /** The worker and the etcd removal do not touch the masters. */
  lemma MastersNotTaken(r: Roles)
    ensures {KUBE_API, KUBE_CONTROLLER} !! WorkerTake(r) && {KUBE_API, KUBE_CONTROLLER} !! EtcdTake(r)
  {
    WorkersTake(r);
    EtcdsTake(r);
  }

  /** On a control host that the removal did not reach the API server stays. */
  lemma ApiStays(cs: Containers, r: Roles, left: Containers)
    requires Standing(cs, r) && r.control && left.Keys == LeftNames(cs, r, {})
    ensures !Bare(left)
  {
    MastersNotTaken(r);
    Stays(cs, r, {}, left, KUBE_API);
  }

  lemma ControllerStays(cs: Containers, r: Roles, left: Containers)
    requires Standing(cs, r) && r.control && left.Keys == LeftNames(cs, r, {KUBE_API})
    ensures !Bare(left)
  {
    MastersNotTaken(r);
    Stays(cs, r, {KUBE_API}, left, KUBE_CONTROLLER);
  }

  /** After a failed removal of `kube-proxy` the etcd plane still takes it, if the host is in it. */
  lemma ProxyStaysUnlessEtcd(cs: Containers, r: Roles, left: Containers)
    requires Standing(cs, r) && r.control && !r.worker
    requires left.Keys == LeftNames(cs, r, {KUBE_API, KUBE_CONTROLLER, SCHEDULER, KUBELET})
    ensures Bare(left) <==> r.etcd
  {
    WorkersTake(r);
    EtcdsTake(r);
    if r.etcd {
      BareWhenCovered(cs, r, {KUBE_API, KUBE_CONTROLLER, SCHEDULER, KUBELET}, left);
    } else {
      Stays(cs, r, {KUBE_API, KUBE_CONTROLLER, SCHEDULER, KUBELET}, left, KUBE_PROXY);
    }
  }

  // ---------------------------------------------------------------- the control hosts

  /** The first removal that fails is the one of this container. */
  predicate FirstFails(work: seq<Guarded>, d: Daemon, name: string) {
    var f := FirstFailing(work, d);
    f < |work| && work[f].op.name == name
  }

  /** The control removal completed on host `i`, or ended there with a swallowed error on `kube-proxy`
      that the etcd removal makes up for. */
  predicate Covered(r: Roles, visits: seq<Visit>, mid: seq<Daemon>, i: nat)
    requires i < |visits| == |mid|
  {
    var k := FirstUnfinished(visits, mid);
    i < k || (i == k && FirstFails(visits[i].work, mid[i], KUBE_PROXY) && r.etcd && !r.worker)
  }

  /** The names that the control removal took from host `i`. */
  function Taken(visits: seq<Visit>, mid: seq<Daemon>, i: nat): set<string>
    requires i < |visits| == |mid|
  {
    var k := FirstUnfinished(visits, mid);
    if i < k then Removed(visits[i].work)
    else if i == k && !visits[i].stop then Removed(visits[i].work[..FirstFailing(visits[i].work, mid[i])])
    else {}
  }

  lemma TakenNames(visits: seq<Visit>, mid: seq<Daemon>, i: nat)
    requires i < |visits| == |mid| && AllRemovals(visits)
    ensures Sweep(visits, mid).0[i].containers.Keys == mid[i].containers.Keys - Taken(visits, mid, i)
  {
    SweepClears(visits, mid);
    SweepUnfinished(visits, mid);
  }

  /** A control removal that returned nil leaves host `i` for the other planes to make bare exactly
      when it is covered. */
  lemma ControlHostBare(cs: Containers, r: Roles, visits: seq<Visit>, mid: seq<Daemon>, i: nat, left: Containers)
    requires i < |visits| == |mid| && visits[i] == ControlVisit(r) && r.control && Standing(cs, r)
    requires Sweep(visits, mid).1 != Failed && left.Keys == LeftNames(cs, r, Taken(visits, mid, i))
    ensures Bare(left) <==> Covered(r, visits, mid, i)
  {
    SweepOutcome(visits, mid);
    var k := FirstUnfinished(visits, mid);
    if i < k {
      BareWhenCompleted(cs, r, left);
    } else if i > k {
      ApiStays(cs, r, left);
    } else {
      UnfinishedHostBare(cs, r, visits[i].work, FirstFailing(visits[i].work, mid[i]), mid[i], left);
    }
  }

  lemma UnfinishedHostBare(cs: Containers, r: Roles, work: seq<Guarded>, f: nat, d: Daemon, left: Containers)
    requires work == ControlVisit(r).work && f == FirstFailing(work, d) && Swallowed(work, d)
    requires r.control && Standing(cs, r) && left.Keys == LeftNames(cs, r, Removed(work[..f]))
    ensures Bare(left) <==> FirstFails(work, d, KUBE_PROXY) && r.etcd && !r.worker
  {
    ControlPrefix(r);
    if f == 1 {
      assert work[1].op.name == KUBE_CONTROLLER;
      ControllerStays(cs, r, left);
    } else {
      assert f == 4 && !r.worker && work[4].op.name == KUBE_PROXY;
      ProxyStaysUnlessEtcd(cs, r, left);
    }
  }

  // ---------------------------------------------------------------- all hosts

  /** Nil means bare hosts: the control removal completed, or it ended early on the last control host
      because `kube-proxy` could not be removed and that host is also an etcd host. */
  predicate NilMeansBare(controls: seq<Host>, roles: map<Host, Roles>, visits: seq<Visit>, mid: seq<Daemon>)
    requires |visits| == |mid| == |controls| && forall i :: 0 <= i < |controls| ==> controls[i] in roles
  {
    var k := FirstUnfinished(visits, mid);
    k == |mid| || (k == |mid| - 1 && Covered(roles[controls[k]], visits, mid, k))
  }

  /** `left` and `end` are what the control removal and the whole removal left of `was`. */
  ghost predicate RemovalLeft(controls: seq<Host>, visits: seq<Visit>, mid: seq<Daemon>, all: seq<Host>,
                              roles: map<Host, Roles>, was: map<Host, Containers>, left: map<Host, Containers>,
                              end: map<Host, Containers>)
  {
    ControlRoles(controls, visits, all, roles) && (forall h :: h in all ==> h in was && h in end) &&
    ControlLeft(controls, visits, mid, all, AfterWorkers(roles, was), left) && Sweep(visits, mid).1 != Failed &&
    forall h :: h in all ==> end[h] == left[h] - EtcdTake(roles[h]) - {CLEANER}
  }

  lemma ControlHostEnds(controls: seq<Host>, visits: seq<Visit>, mid: seq<Daemon>, all: seq<Host>,
                        roles: map<Host, Roles>, was: map<Host, Containers>, left: map<Host, Containers>,
                        end: map<Host, Containers>, i: nat)
    requires RemovalLeft(controls, visits, mid, all, roles, was, left, end) && i < |controls|
    requires Standing(was[controls[i]], roles[controls[i]])
    ensures Bare(end[controls[i]]) <==> Covered(roles[controls[i]], visits, mid, i)
  {
    var h := controls[i];
    TakenNames(visits, mid, i);
    assert mid[i].containers == was[h] - WorkerTake(roles[h]);
    ControlHostBare(was[h], roles[h], visits, mid, i, end[h]);
  }

  lemma OtherHostEnds(controls: seq<Host>, visits: seq<Visit>, mid: seq<Daemon>, all: seq<Host>,
                      roles: map<Host, Roles>, was: map<Host, Containers>, left: map<Host, Containers>,
                      end: map<Host, Containers>, h: Host)
    requires RemovalLeft(controls, visits, mid, all, roles, was, left, end) && h in all && h !in controls
    requires Standing(was[h], roles[h]) && SomeRole(roles[h])
    ensures Bare(end[h])
  {
    assert ControlTake(roles[h]) == {};
    BareWhenCompleted(was[h], roles[h], end[h]);
  }

  /** A removal that returned nil leaves every host bare exactly under `NilMeansBare`. */
  lemma AllBareExactly(controls: seq<Host>, visits: seq<Visit>, mid: seq<Daemon>, all: seq<Host>,
                       roles: map<Host, Roles>, was: map<Host, Containers>, left: map<Host, Containers>,
                       end: map<Host, Containers>)
    requires RemovalLeft(controls, visits, mid, all, roles, was, left, end)
    requires forall h :: h in all ==> Standing(was[h], roles[h]) && SomeRole(roles[h])
    ensures (forall h :: h in all ==> Bare(end[h])) <==> NilMeansBare(controls, roles, visits, mid)
  {
    forall i | 0 <= i < |controls| ensures Bare(end[controls[i]]) <==> Covered(roles[controls[i]], visits, mid, i) {
      ControlHostEnds(controls, visits, mid, all, roles, was, left, end, i);
    }
    forall h | h in all && h !in controls ensures Bare(end[h]) {
      OtherHostEnds(controls, visits, mid, all, roles, was, left, end, h);
    }
    var k := FirstUnfinished(visits, mid);
    if k < |mid| - 1 {
      assert !Covered(roles[controls[k + 1]], visits, mid, k + 1);
    } else if NilMeansBare(controls, roles, visits, mid) {
      forall h | h in controls ensures Bare(end[h]) {
        var i :| 0 <= i < |controls| && controls[i] == h;
        assert Covered(roles[controls[i]], visits, mid, i);
      }
    }
  }

  /** `ClusterRemove` on standing hosts, whatever fails: if it returns nil every host is bare exactly
      under `NilMeansBare`; if nothing fails it does, and they are. */
  method RemoveStanding(workers: seq<Host>, controls: seq<Host>, etcds: seq<Host>, cleaner: Config,
                        ghost all: seq<Host>, ghost roles: map<Host, Roles>, ghost visits: seq<Visit>,
                        ghost mid: seq<Daemon>)
    returns (ok: bool)
    requires all == controls + workers + etcds && RoleLists(workers, controls, etcds, all)
    requires Roled(all, roles) && visits == ControlVisits(controls) && Began(controls, roles, mid)
    requires forall h :: h in all ==> Standing(h.client.containers, roles[h]) && SomeRole(roles[h])
    modifies Clients(all)
    ensures ok ==> RemovedExactly(controls, all, roles, visits, mid)
    ensures old(Silent(all)) && (forall h :: h in all ==> CLEANER !in old(h.client.containers)) ==> ok && AllBare(all)
  {
    ghost var was, left := Contents(all), map[];
    InAll(workers, controls, etcds, all);
    ControlRolesOf(controls, all, roles);
    ok, left := ClusterRemove(workers, controls, etcds, cleaner, all, roles, visits, mid);
    if ok {
      RemovedStanding(controls, visits, mid, all, roles, was, left);
      SweepOutcome(visits, mid);
    }
  }

  ghost predicate AllBare(all: seq<Host>)
    reads Clients(all)
  {
    forall h :: h in all ==> Bare(h.client.containers)
  }

  ghost predicate RemovedExactly(controls: seq<Host>, all: seq<Host>, roles: map<Host, Roles>, visits: seq<Visit>,
                                 mid: seq<Daemon>)
    reads Clients(all)
  {
    |mid| == |visits| == |controls| && (forall i :: 0 <= i < |controls| ==> controls[i] in roles) &&
    (AllBare(all) <==> NilMeansBare(controls, roles, visits, mid))
  }

  lemma RemovedStanding(controls: seq<Host>, visits: seq<Visit>, mid: seq<Daemon>, all: seq<Host>,
                        roles: map<Host, Roles>, was: map<Host, Containers>, left: map<Host, Containers>)
    requires RemovalLeft(controls, visits, mid, all, roles, was, left, Contents(all))
    requires forall h :: h in all ==> Standing(was[h], roles[h]) && SomeRole(roles[h])
    ensures RemovedExactly(controls, all, roles, visits, mid)
  {
    AllBareExactly(controls, visits, mid, all, roles, was, left, Contents(all));
    assert forall h :: h in all ==> Contents(all)[h] == h.client.containers;
  }

  // ---------------------------------------------------------------- after a deployment

  /** `h` is the host of a node that this deployment brought up from nothing. */
  ghost predicate Built(h: Host, r: Roles, nodes: seq<Node>, ds: map<string, Daemon>, ws: seq<World>)
    requires ws != []
    reads h.client
  {
    exists i :: 0 <= i < |nodes| && nodes[i].address == h.address && nodes[i].roles == r && SomeRole(r) &&
      h.address in ds && Bare(ds[h.address].containers) &&
      h.address in ws[|ws| - 1].daemons && ws[|ws| - 1].daemons[h.address].containers == h.client.containers
  }

  lemma BuiltStands(h: Host, r: Roles, nodes: seq<Node>, want: Cluster, ds: map<string, Daemon>, ws: seq<World>)
    requires Deployed(nodes, want, ds, ws) && Built(h, r, nodes, ds, ws)
    ensures Standing(h.client.containers, r) && SomeRole(r)
  {
    var i :| 0 <= i < |nodes| && nodes[i].address == h.address && nodes[i].roles == r && SomeRole(r) &&
      h.address in ds && Bare(ds[h.address].containers) &&
      h.address in ws[|ws| - 1].daemons && ws[|ws| - 1].daemons[h.address].containers == h.client.containers;
    DeploymentOutcome(nodes, want, ds, ws, i);
  }

  /** Removal undoes deployment: `ClusterRemove` on the hosts of a successful deployment, however it
      interleaved. */
  method RemoveDeployed(workers: seq<Host>, controls: seq<Host>, etcds: seq<Host>, cleaner: Config,
                        ghost all: seq<Host>, ghost roles: map<Host, Roles>, ghost visits: seq<Visit>,
                        ghost mid: seq<Daemon>, ghost nodes: seq<Node>, ghost want: Cluster,
                        ghost ds: map<string, Daemon>, ghost ws: seq<World>)
    returns (ok: bool)
    requires all == controls + workers + etcds && RoleLists(workers, controls, etcds, all)
    requires Roled(all, roles) && visits == ControlVisits(controls) && Began(controls, roles, mid)
    requires Deployed(nodes, want, ds, ws) && forall h :: h in all ==> Built(h, roles[h], nodes, ds, ws)
    modifies Clients(all)
    ensures ok ==> RemovedExactly(controls, all, roles, visits, mid)
    ensures old(Silent(all)) && (forall h :: h in all ==> CLEANER !in old(h.client.containers)) ==> ok && AllBare(all)
  {
    forall h | h in all ensures Standing(h.client.containers, roles[h]) && SomeRole(roles[h]) {
      BuiltStands(h, roles[h], nodes, want, ds, ws);
    }
    ok := RemoveStanding(workers, controls, etcds, cleaner, all, roles, visits, mid);
  }
}
