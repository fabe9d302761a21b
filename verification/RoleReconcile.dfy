/** The worker and control phases of a reconcile over shared host objects
    (cluster/reconcile.go:52-120, hosts/hosts.go:119-142).

    A current host that is both worker and control is one object in two lists; the worker phase
    clears its worker flag so that the control phase can see it.  `passed` collects the hosts that
    get past the other-role check. */
module RoleReconcile {
  import opened Hosts
  import opened MoveToEnd
  import Cluster
  import Docker
  import Kube
  import opened KubeSuccess

  const UNSCHEDULABLE_TAINT := "node-role.kubernetes.io/etcd=true:NoExecute"

  ghost predicate Distinct(hs: seq<Host>) { forall i, j :: 0 <= i < j < |hs| ==> hs[i] != hs[j] }

  function Names(hs: seq<Host>): set<string> { set h | h in hs :: h.hostnameOverride }

  lemma NamesSnoc(hs: seq<Host>, h: Host)
    ensures Names(hs + [h]) == Names(hs) + {h.hostnameOverride}
  {
    assert forall x :: x in hs + [h] <==> x in hs || x == h;
  }

  /** What a sequence of deletions did to the node objects: those of `passed` are gone, the others
      are as they were, and every delete request found its node cordoned. */
  ghost predicate Deleted(from: Kube.Api, to: Kube.Api, passed: seq<Host>) {
    from.log <= to.log && to.nodes == from.nodes - Names(passed) && Kube.DeletesCordoned(to.log, |from.log|)
  }

  ghost predicate Cordoned(from: Kube.Api, to: Kube.Api) {
    from.log <= to.log && Kube.DeletesCordoned(to.log, |from.log|)
  }

  lemma LogGrows(a: Kube.Api, name: string, other: bool)
    ensures a.log <= Kube.DeleteHost(a, name, other).0.log
  {
    if !other { CordonGrows(Kube.Get(a, name).0, name, true, Kube.TRIES, false); }
  }

  lemma {:induction false} CordonGrows(a: Kube.Api, name: string, cordoned: bool, tries: nat, updated: bool)
    ensures a.log <= Kube.Cordon(a, name, cordoned, tries, updated).0.log
    decreases tries
  {
    if tries > 0 {
      var (b, answer) := Kube.Get(a, name);
      if !answer.Found? {
        CordonGrows(b, name, cordoned, tries - 1, updated);
      } else if answer.node.unschedulable != cordoned {
        var (c, ok) := Kube.Update(b, name, answer.node.(unschedulable := cordoned));
        CordonGrows(c, name, cordoned, tries - 1, updated || ok);
      }
    }
  }

  /** One deletion, seen from the start of the phase. */
  lemma OneMoreDeleted(from: Kube.Api, a: Kube.Api, h: Host, other: bool, passed: seq<Host>)
    requires Deleted(from, a, passed)
    ensures var (r, ok) := Kube.DeleteHost(a, h.hostnameOverride, other);
            Cordoned(from, r) && (ok ==> Deleted(from, r, if other then passed else passed + [h]))
  {
    LogGrows(a, h.hostnameOverride, other);
    Kube.DeleteOnlyCordoned(a, h.hostnameOverride, other, |from.log|);
    Kube.DeleteOutcome(a, h.hostnameOverride, other);
    NamesSnoc(passed, h);
  }

  /** The API after exactly these hosts were deleted, one after the other, each once.  Its log holds
      every request that was made. */
  function DeleteEach(a: Kube.Api, hs: seq<Host>): Kube.Api {
    if hs == [] then a
    else
      var n := |hs| - 1;
      Kube.DeleteHost(DeleteEach(a, hs[..n]), hs[n].hostnameOverride, false).0
  }

  lemma DeleteEachSnoc(a: Kube.Api, hs: seq<Host>, h: Host)
    ensures DeleteEach(a, hs + [h]) == Kube.DeleteHost(DeleteEach(a, hs), h.hostnameOverride, false).0
  {
    assert (hs + [h])[..|hs|] == hs;
  }

  lemma {:induction false} DeleteEachConcat(a: Kube.Api, p: seq<Host>, q: seq<Host>)
    ensures DeleteEach(a, p + q) == DeleteEach(DeleteEach(a, p), q)
    decreases |q|
  {
    if q == [] {
      assert p + q == p;
    } else {
      var n := |q| - 1;
      assert p + q == p + q[..n] + [q[n]];
      DeleteEachConcat(a, p, q[..n]);
      DeleteEachSnoc(a, p + q[..n], q[n]);
    }
  }

  /** reconcile.go:69-73 and reconcile.go:114-118 */
  method DropEtcdTaints(currentHosts: seq<Host>, configHosts: seq<Host>)
    requires Distinct(configHosts)
    modifies configHosts`toDelTaints
    ensures forall i :: 0 <= i < |configHosts| ==>
              configHosts[i].toDelTaints == old(configHosts[i].toDelTaints) +
                if configHosts[i].isEtcd && !Listed(configHosts[i], currentHosts) then [UNSCHEDULABLE_TAINT] else []
  {
    var toAdd := GetToAddHosts(currentHosts, configHosts);
    MissingMembers(configHosts, currentHosts);
    MissingDistinct(configHosts, currentHosts);
    for k := 0 to |toAdd|
      invariant forall i :: 0 <= i < |configHosts| ==>
                  configHosts[i].toDelTaints == old(configHosts[i].toDelTaints) +
                    if configHosts[i].isEtcd && configHosts[i] in toAdd[..k] then [UNSCHEDULABLE_TAINT] else []
    {
      assert toAdd[..k + 1] == toAdd[..k] + [toAdd[k]];
      assert toAdd[k] in configHosts && toAdd[k] !in toAdd[..k];
      if toAdd[k].isEtcd { toAdd[k].toDelTaints := toAdd[k].toDelTaints + [UNSCHEDULABLE_TAINT]; }
    }
    assert toAdd[..|toAdd|] == toAdd;
  }

  lemma {:induction false} MissingDistinct(xs: seq<Host>, ys: seq<Host>)
    requires Distinct(xs)
    ensures Distinct(Missing(xs, ys))
  {
    if xs != [] {
      MissingDistinct(xs[..|xs| - 1], ys);
      MissingMembers(xs[..|xs| - 1], ys);
    }
  }

  /** The hosts of `hs` that are not in `skip`, in order. */
  function Outside(hs: seq<Host>, skip: set<Host>): seq<Host> {
    if hs == [] then []
    else
      var n := |hs| - 1;
      if hs[n] in skip then Outside(hs[..n], skip) else Outside(hs[..n], skip) + [hs[n]]
  }

  lemma {:induction false} OutsidePrefix(hs: seq<Host>, skip: set<Host>, k: nat)
    requires k <= |hs|
    ensures Outside(hs[..k], skip) <= Outside(hs, skip)
    decreases |hs|
  {
    if k < |hs| {
      var n := |hs| - 1;
      OutsidePrefix(hs[..n], skip, k);
      assert hs[..n][..k] == hs[..k];
    } else {
      assert hs[..k] == hs;
    }
  }

  lemma {:induction false} OutsideCount(hs: seq<Host>, skip: set<Host>, h: Host)
    ensures multiset(Outside(hs, skip))[h] == if h in skip then 0 else multiset(hs)[h]
  {
    if hs != [] {
      var n := |hs| - 1;
      OutsideCount(hs[..n], skip, h);
      assert hs == hs[..n] + [hs[n]];
    }
  }

  ghost function ControlHosts(hs: seq<Host>): set<Host>
    reads hs`isControl
  {
    set h | h in hs && h.isControl
  }

  ghost function WorkerHosts(hs: seq<Host>): set<Host>
    reads hs`isWorker
  {
    set h | h in hs && h.isWorker
  }

  /** The hosts that are not control hosts, in order. */
  ghost function NotControl(hs: seq<Host>): seq<Host>
    reads hs`isControl
  {
    Outside(hs, ControlHosts(hs))
  }

  /** The hosts that are not worker hosts, in order. */
  ghost function NotWorker(hs: seq<Host>): seq<Host>
    reads hs`isWorker
  {
    Outside(hs, WorkerHosts(hs))
  }

  // ---------------------------------------------------------------- the two phases

  /** A new client can be had for each of the first `n` hosts. */
  ghost predicate Connected(connects: nat -> bool, n: nat) { forall k: nat :: k < n ==> connects(k) }

  /** A host with another role is passed over without a request, any other one is passed. */
  lemma OnePass(a: Kube.Api, now: Kube.Api, h: Host, other: bool, passed: seq<Host>)
    requires now == DeleteEach(a, passed)
    ensures Kube.DeleteHost(now, h.hostnameOverride, other).0 == DeleteEach(a, if other then passed else passed + [h])
  {
    DeleteEachSnoc(a, passed, h);
  }

  /** Since `from` exactly the hosts of `todo[..k]` outside `skip` were passed, in order. */
  ghost predicate PassedTo(from: Kube.Api, now: Kube.Api, todo: seq<Host>, skip: set<Host>, k: nat)
    requires k <= |todo|
  {
    now == DeleteEach(from, Outside(todo[..k], skip))
  }

  ghost predicate DeletedTo(from: Kube.Api, now: Kube.Api, todo: seq<Host>, skip: set<Host>, k: nat)
    requires k <= |todo|
  {
    Deleted(from, now, Outside(todo[..k], skip))
  }

  /** Host `k` of either phase, which has another role if it is in `skip`. */
  lemma PassOne(from: Kube.Api, now: Kube.Api, todo: seq<Host>, skip: set<Host>, k: nat)
    requires k < |todo| && PassedTo(from, now, todo, skip, k) && DeletedTo(from, now, todo, skip, k)
    ensures var (r, ok) := Kube.DeleteHost(now, todo[k].hostnameOverride, todo[k] in skip);
            Cordoned(from, r) && PassedTo(from, r, todo, skip, k + 1) && (ok ==> DeletedTo(from, r, todo, skip, k + 1))
  {
    var passed := Outside(todo[..k], skip);
    assert todo[..k + 1][..k] == todo[..k];
    OneMoreDeleted(from, now, todo[k], todo[k] in skip, passed);
    OnePass(from, now, todo[k], todo[k] in skip, passed);
  }

  method DeleteOne(todo: seq<Host>, k: nat, other: bool, kube: Kube.Client, ghost from: Kube.Api, ghost skip: set<Host>)
    returns (ok: bool)
    requires k < |todo| && (other <==> todo[k] in skip)
    requires PassedTo(from, kube.A(), todo, skip, k) && DeletedTo(from, kube.A(), todo, skip, k)
    modifies kube
    ensures Cordoned(from, kube.A()) && PassedTo(from, kube.A(), todo, skip, k + 1)
    ensures ok ==> DeletedTo(from, kube.A(), todo, skip, k + 1)
    ensures old(Quiet(kube.A())) ==> ok && Quiet(kube.A())
  {
    PassOne(from, kube.A(), todo, skip, k);
    if Quiet(kube.A()) { QuietDelete(kube.A(), todo[k].hostnameOverride, other); }
    ok := kube.DeleteNode(todo[k].hostnameOverride, other);
  }

  /** What a phase that has reached host `k` has passed. */
  lemma PassedResult(from: Kube.Api, now: Kube.Api, todo: seq<Host>, skip: set<Host>, k: nat)
    requires k <= |todo| && PassedTo(from, now, todo, skip, k)
    ensures now == DeleteEach(from, Outside(todo[..k], skip)) && Outside(todo[..k], skip) <= Outside(todo, skip)
    ensures k == |todo| ==> Outside(todo[..k], skip) == Outside(todo, skip)
  {
    OutsidePrefix(todo, skip, k);
    assert k == |todo| ==> todo[..k] == todo;
  }

  /** reconcile.go:57-67; `n` hosts were reached. */
  method WorkerLoop(todo: seq<Host>, kube: Kube.Client, ghost from: Kube.Api, ghost skip: set<Host>)
    returns (ok: bool, ghost n: nat)
    requires Distinct(todo) && from == kube.A() && skip == ControlHosts(todo)
    modifies todo`isWorker, kube
    ensures n <= |todo| && PassedTo(from, kube.A(), todo, skip, n) && Cordoned(from, kube.A())
    ensures ok ==> n == |todo| && DeletedTo(from, kube.A(), todo, skip, n)
    ensures ok ==> forall i :: 0 <= i < |todo| ==> !todo[i].isWorker
    ensures Quiet(from) ==> ok && Quiet(kube.A())
  {
    for k := 0 to |todo|
      invariant Quiet(from) ==> Quiet(kube.A())
      invariant PassedTo(from, kube.A(), todo, skip, k) && DeletedTo(from, kube.A(), todo, skip, k)
      invariant forall i :: 0 <= i < k ==> !todo[i].isWorker
    {
      todo[k].isWorker := false;
      ok := DeleteOne(todo, k, todo[k].isControl, kube, from, skip);
      if !ok { return false, k + 1; }
    }
    return true, |todo|;
  }

  method DeleteWorkers(todo: seq<Host>, kube: Kube.Client) returns (ok: bool, ghost passed: seq<Host>)
    requires Distinct(todo)
    modifies todo`isWorker, kube
    ensures Cordoned(old(kube.A()), kube.A())
    ensures kube.A() == DeleteEach(old(kube.A()), passed) && passed <= NotControl(todo)
    ensures ok ==> Deleted(old(kube.A()), kube.A(), passed)
    ensures ok ==> forall i :: 0 <= i < |todo| ==> !todo[i].isWorker
    ensures ok ==> passed == NotControl(todo)
    ensures old(Quiet(kube.A())) ==> ok && Quiet(kube.A())
  {
    ghost var from, skip, n := kube.A(), ControlHosts(todo), 0;
    ok, n := WorkerLoop(todo, kube, from, skip);
    passed := Outside(todo[..n], skip);
    PassedResult(from, kube.A(), todo, skip, n);
  }

  /** reconcile.go:92-106 */
  method ControlLoop(todo: seq<Host>, kube: Kube.Client, connects: nat -> bool, ghost from: Kube.Api,
                     ghost skip: set<Host>)
    returns (ok: bool, ghost n: nat)
    requires from == kube.A() && skip == WorkerHosts(todo)
    modifies kube
    ensures n <= |todo| && PassedTo(from, kube.A(), todo, skip, n) && Cordoned(from, kube.A())
    ensures ok ==> n == |todo| && DeletedTo(from, kube.A(), todo, skip, n) && Connected(connects, |todo|)
    ensures Quiet(from) && Connected(connects, |todo|) ==> ok
  {
    for k := 0 to |todo|
      invariant (Quiet(from) ==> Quiet(kube.A())) && Connected(connects, k)
      invariant PassedTo(from, kube.A(), todo, skip, k) && DeletedTo(from, kube.A(), todo, skip, k)
    {
      if !connects(k) { return false, k; }
      ok := DeleteOne(todo, k, todo[k].isWorker, kube, from, skip);
      if !ok { return false, k + 1; }
    }
    return true, |todo|;
  }

  method DeleteControls(todo: seq<Host>, kube: Kube.Client, connects: nat -> bool)
    returns (ok: bool, ghost passed: seq<Host>)
    modifies kube
    ensures Cordoned(old(kube.A()), kube.A())
    ensures kube.A() == DeleteEach(old(kube.A()), passed) && passed <= NotWorker(todo)
    ensures ok ==> Deleted(old(kube.A()), kube.A(), passed)
    ensures ok ==> passed == NotWorker(todo) && Connected(connects, |todo|)
    ensures old(Quiet(kube.A())) && Connected(connects, |todo|) ==> ok
  {
    ghost var from, skip, n := kube.A(), WorkerHosts(todo), 0;
    ok, n := ControlLoop(todo, kube, connects, from, skip);
    passed := Outside(todo[..n], skip);
    PassedResult(from, kube.A(), todo, skip, n);
  }

  method ReconcileWorker(currentHosts: seq<Host>, configHosts: seq<Host>, kube: Kube.Client)
    returns (ok: bool, ghost passed: seq<Host>)
    requires Distinct(currentHosts) && Distinct(configHosts)
    modifies currentHosts`isWorker, configHosts`toDelTaints, kube
    ensures Cordoned(old(kube.A()), kube.A())
    ensures kube.A() == DeleteEach(old(kube.A()), passed) && passed <= NotControl(Missing(currentHosts, configHosts))
    ensures ok ==> Deleted(old(kube.A()), kube.A(), passed) && passed == NotControl(Missing(currentHosts, configHosts))
    ensures ok ==> forall i :: 0 <= i < |currentHosts| ==>
              currentHosts[i].isWorker == (old(currentHosts[i].isWorker) && Listed(currentHosts[i], configHosts))
    ensures ok ==> forall i :: 0 <= i < |configHosts| ==>
              configHosts[i].toDelTaints == old(configHosts[i].toDelTaints) +
                if configHosts[i].isEtcd && !Listed(configHosts[i], currentHosts) then [UNSCHEDULABLE_TAINT] else []
    ensures old(Quiet(kube.A())) ==> ok && Quiet(kube.A())
  {
    var wpToDelete := GetToDeleteHosts(currentHosts, configHosts);
    MissingDistinct(currentHosts, configHosts);
    MissingMembers(currentHosts, configHosts);
    ok, passed := DeleteWorkers(wpToDelete, kube);
    if !ok { return; }
    DropEtcdTaints(currentHosts, configHosts);
  }

  /** The hosts in the order in which the control phase deletes them. */
  method SelfLast(todo: seq<Host>, selfAddress: string) returns (order: seq<Host>)
    ensures Moves(todo, order, selfAddress)
    ensures selfAddress in Addresses(order) ==> order[|order| - 1].address == selfAddress
  {
    var a := new Host[|todo|](i requires 0 <= i < |todo| => todo[i]);
    assert a[..] == todo;
    MoveSelfToEnd(a, selfAddress);
    order := a[..];
    assert forall h :: h in order ==> h in multiset(todo);
  }

  method ReconcileControl(currentHosts: seq<Host>, configHosts: seq<Host>, selfAddress: string, kube: Kube.Client,
                          connects: nat -> bool, rebuilt: bool)
    returns (ok: bool, ghost passed: seq<Host>, ghost order: seq<Host>)
    requires Distinct(configHosts)
    modifies configHosts`toDelTaints, kube
    ensures Cordoned(old(kube.A()), kube.A())
    ensures kube.A() == DeleteEach(old(kube.A()), passed) && passed <= NotWorker(order)
    ensures ok ==> Deleted(old(kube.A()), kube.A(), passed) && passed == NotWorker(order)
    ensures Moves(Missing(currentHosts, configHosts), order, selfAddress)
    ensures selfAddress in Addresses(order) ==> order[|order| - 1].address == selfAddress
    ensures ok ==> forall i :: 0 <= i < |configHosts| ==>
              configHosts[i].toDelTaints == old(configHosts[i].toDelTaints) +
                if configHosts[i].isEtcd && !Listed(configHosts[i], currentHosts) then [UNSCHEDULABLE_TAINT] else []
    ensures ok ==> rebuilt && Connected(connects, |order|)
    ensures old(Quiet(kube.A())) && rebuilt && Connected(connects, |order|) ==> ok
  {
    var cpToDelete := GetToDeleteHosts(currentHosts, configHosts);
    cpToDelete := SelfLast(cpToDelete, selfAddress);
    order := cpToDelete;
    ok, passed := DeleteControls(cpToDelete, kube, connects);
    if !ok { return; }
    if !rebuilt { ok := false; return; }
    DropEtcdTaints(currentHosts, configHosts);
  }

  // ---------------------------------------------------------------- both phases

  /** The lists agree with the flags of the shared objects. */
  ghost predicate Shared(workers: seq<Host>, controls: seq<Host>)
    reads workers, controls
  {
    Distinct(workers) && Distinct(controls) &&
    (forall i :: 0 <= i < |workers| ==> workers[i].isWorker && (workers[i].isControl <==> workers[i] in controls)) &&
    (forall i :: 0 <= i < |controls| ==> controls[i].isControl && (controls[i].isWorker <==> controls[i] in workers))
  }

  /** Every worker or control role that the host has is gone from the configuration. */
  ghost predicate LostAll(h: Host, configWorkers: seq<Host>, configControls: seq<Host>)
    reads h
  {
    (h.isWorker || h.isControl) && (h.isWorker ==> !Listed(h, configWorkers)) &&
    (h.isControl ==> !Listed(h, configControls))
  }

  ghost function Lost(current: seq<Host>, configWorkers: seq<Host>, configControls: seq<Host>): set<Host>
    reads current
  {
    set h | h in current && LostAll(h, configWorkers, configControls)
  }

  lemma NotControlCount(hs: seq<Host>, h: Host)
    ensures multiset(NotControl(hs))[h] == if h.isControl then 0 else multiset(hs)[h]
  {
    OutsideCount(hs, ControlHosts(hs), h);
    assert h !in hs ==> multiset(hs)[h] == 0;
  }

  lemma NotWorkerCount(hs: seq<Host>, h: Host)
    ensures multiset(NotWorker(hs))[h] == if h.isWorker then 0 else multiset(hs)[h]
  {
    OutsideCount(hs, WorkerHosts(hs), h);
    assert h !in hs ==> multiset(hs)[h] == 0;
  }

  /** A distinct list has a host to delete once exactly when the configuration lacks its address. */
  lemma MissingCount(xs: seq<Host>, ys: seq<Host>, h: Host)
    requires Distinct(xs)
    ensures multiset(Missing(xs, ys))[h] == if h in xs && !Listed(h, ys) then 1 else 0
  {
    MissingDistinct(xs, ys);
    MissingMembers(xs, ys);
    Cluster.DistinctOnce(Missing(xs, ys), h);
  }

  lemma DeletedCompose(a: Kube.Api, b: Kube.Api, c: Kube.Api, p: seq<Host>, q: seq<Host>)
    requires Cordoned(a, b) && Cordoned(b, c)
    ensures Cordoned(a, c) && (Deleted(a, b, p) && Deleted(b, c, q) ==> Deleted(a, c, p + q))
  {
    assert forall x :: x in p + q <==> x in p || x in q;
    assert Names(p + q) == Names(p) + Names(q);
    forall i | |a.log| <= i < |c.log| && c.log[i].request == Kube.DeleteSent
      ensures Kube.Has(c.log[i].nodes, c.log[i].name, true)
    {
      if i < |b.log| { assert c.log[i] == b.log[i]; }
    }
  }

  /** The hosts whose address is missing wherever they are listed. */
  function Dropped(workers: seq<Host>, controls: seq<Host>, configWorkers: seq<Host>,
                   configControls: seq<Host>): set<Host>
  {
    set h | h in workers + controls && (h in workers ==> !Listed(h, configWorkers)) &&
      (h in controls ==> !Listed(h, configControls))
  }

  lemma LostAreDropped(workers: seq<Host>, controls: seq<Host>, configWorkers: seq<Host>, configControls: seq<Host>)
    requires Shared(workers, controls)
    ensures Lost(workers + controls, configWorkers, configControls) ==
              Dropped(workers, controls, configWorkers, configControls)
  {
    assert forall h :: h in workers + controls ==> (h.isWorker <==> h in workers) && (h.isControl <==> h in controls);
  }

  /** The flags as the worker phase leaves them. */
  ghost predicate Cleared(workers: seq<Host>, controls: seq<Host>, configWorkers: seq<Host>)
    reads workers, controls
  {
    (forall i :: 0 <= i < |workers| ==>
       (workers[i].isWorker <==> Listed(workers[i], configWorkers)) &&
       (workers[i].isControl <==> workers[i] in controls)) &&
    (forall i :: 0 <= i < |controls| ==>
       (controls[i].isWorker <==> controls[i] in workers && Listed(controls[i], configWorkers)) &&
       controls[i].isControl)
  }

  /** The two phases together pass exactly the dropped hosts, each once. */
  lemma PassesOnce(workers: seq<Host>, controls: seq<Host>, order: seq<Host>, configWorkers: seq<Host>,
                   configControls: seq<Host>, selfAddress: string, p: seq<Host>, q: seq<Host>)
    requires Distinct(workers) && Distinct(controls) && Cleared(workers, controls, configWorkers)
    requires Moves(Missing(controls, configControls), order, selfAddress)
    requires p == NotControl(Missing(workers, configWorkers)) && q == NotWorker(order)
    ensures var dropped := Dropped(workers, controls, configWorkers, configControls);
            multiset(p + q) == multiset(dropped) && Names(p + q) == NamesOf(dropped)
  {
    var dropped := Dropped(workers, controls, configWorkers, configControls);
    forall h: Host ensures multiset(p + q)[h] == if h in dropped then 1 else 0 {
      NotControlCount(Missing(workers, configWorkers), h);
      NotWorkerCount(order, h);
      MissingCount(workers, configWorkers, h);
      MissingCount(controls, configControls, h);
    }
    PassedNames(p + q, dropped);
  }

  lemma PrefixCount(p: seq<Host>, q: seq<Host>, all: seq<Host>)
    requires q <= all
    ensures multiset(p + q) <= multiset(p + all)
  {
    assert p + all == p + q + all[|q|..];
  }

  /** Even a worker phase that fails passes only dropped hosts, none twice. */
  lemma PassesAtMostOnce(workers: seq<Host>, controls: seq<Host>, configWorkers: seq<Host>, configControls: seq<Host>,
                         p: seq<Host>)
    requires Distinct(workers) && p <= NotControl(Missing(workers, configWorkers))
    requires forall i :: 0 <= i < |workers| ==> (workers[i].isControl <==> workers[i] in controls)
    ensures multiset(p) <= multiset(Dropped(workers, controls, configWorkers, configControls))
  {
    var all := NotControl(Missing(workers, configWorkers));
    var dropped := Dropped(workers, controls, configWorkers, configControls);
    var counts: multiset<Host> := multiset(all);
    forall h: Host | h in all ensures h in dropped && counts[h] <= 1 {
      PassesDropped(workers, controls, configWorkers, configControls, h);
    }
    AtMost(all, dropped);
    PrefixCount([], p, all);
    assert [] + p == p && [] + all == all;
  }

  lemma PassesDropped(workers: seq<Host>, controls: seq<Host>, configWorkers: seq<Host>, configControls: seq<Host>,
                      h: Host)
    requires Distinct(workers) && h in NotControl(Missing(workers, configWorkers))
    requires forall i :: 0 <= i < |workers| ==> (workers[i].isControl <==> workers[i] in controls)
    ensures h in Dropped(workers, controls, configWorkers, configControls)
    ensures multiset(NotControl(Missing(workers, configWorkers)))[h] <= 1
  {
    NotControlCount(Missing(workers, configWorkers), h);
    MissingCount(workers, configWorkers, h);
    assert h in multiset(NotControl(Missing(workers, configWorkers)));
  }

  lemma AtMost(hs: seq<Host>, bound: set<Host>)
    requires forall h :: h in hs ==> h in bound && multiset(hs)[h] <= 1
    ensures multiset(hs) <= multiset(bound)
  {
  }

  method ReconcileRoles(workers: seq<Host>, controls: seq<Host>, configWorkers: seq<Host>, configControls: seq<Host>,
                        selfAddress: string, kube: Kube.Client, connects: nat -> bool, rebuilt: bool)
    returns (ok: bool, ghost passed: seq<Host>)
    requires Shared(workers, controls) && Distinct(configWorkers) && Distinct(configControls)
    modifies workers`isWorker, configWorkers`toDelTaints, configControls`toDelTaints, kube
    ensures Cordoned(old(kube.A()), kube.A()) && kube.A() == DeleteEach(old(kube.A()), passed)
    ensures multiset(passed) <= multiset(old(Lost(workers + controls, configWorkers, configControls)))
    ensures ok ==> multiset(passed) == multiset(old(Lost(workers + controls, configWorkers, configControls)))
    ensures ok ==> kube.nodes == old(kube.nodes) - NamesOf(old(Lost(workers + controls, configWorkers, configControls)))
    ensures ok ==> rebuilt && Connected(connects, |Missing(controls, configControls)|)
    ensures old(Quiet(kube.A())) && rebuilt && Connected(connects, |Missing(controls, configControls)|) ==> ok
  {
    LostAreDropped(workers, controls, configWorkers, configControls);
    ghost var first, second, order;
    ok, passed := ReconcileWorker(workers, configWorkers, kube);
    PassesAtMostOnce(workers, controls, configWorkers, configControls, passed);
    if !ok { return; }
    first := passed;
    ghost var mid, gone := kube.A(), Missing(workers, configWorkers);
    MissingMembers(workers, configWorkers);
    assert Cleared(workers, controls, configWorkers);
    ok, second, order := ReconcileControl(controls, configControls, selfAddress, kube, connects, rebuilt);
    assert |multiset(order)| == |multiset(Missing(controls, configControls))|;
    DeletedCompose(old(kube.A()), mid, kube.A(), first, second);
    DeleteEachConcat(old(kube.A()), first, second);
    passed := first + second;
    assert first == NotControl(gone);
    PassesOnce(workers, controls, order, configWorkers, configControls, selfAddress, first, NotWorker(order));
    PrefixCount(first, second, NotWorker(order));
  }

  function NamesOf(hs: set<Host>): set<string> { set h | h in hs :: h.hostnameOverride }

  lemma PassedNames(passed: seq<Host>, lost: set<Host>)
    requires forall h :: multiset(passed)[h] == if h in lost then 1 else 0
    ensures multiset(passed) == multiset(lost) && Names(passed) == NamesOf(lost)
  {
    assert multiset(passed) == multiset(lost);
    assert forall h :: h in passed <==> h in multiset(passed);
  }

  // ---------------------------------------------------------------- where the lists come from

  lemma {:induction false} FilteredDistinct(hs: seq<Host>, nodes: seq<Cluster.ConfigNode>, role: Cluster.Role)
    requires |hs| <= |nodes| && Distinct(hs)
    ensures Distinct(Cluster.Filtered(hs, nodes, role))
    ensures forall i :: 0 <= i < |Cluster.Filtered(hs, nodes, role)| ==> Cluster.Filtered(hs, nodes, role)[i] in hs
    decreases |hs|
  {
    if hs != [] {
      var n := |hs| - 1;
      FilteredDistinct(hs[..n], nodes, role);
      var rest := Cluster.Filtered(hs[..n], nodes, role);
      forall i | 0 <= i < |rest| ensures rest[i] in hs && rest[i] != hs[n] {
        var j :| 0 <= j < n && hs[..n][j] == rest[i];
        assert hs[j] == rest[i];
      }
    }
  }

  /** The lists that `InvertIndexHosts` builds from nodes without repeated roles are shared as the two
      phases need it. */
  lemma IndexedIsShared(c: Cluster.ClusterHosts, all: seq<Host>, nodes: seq<Cluster.ConfigNode>,
                        clients: seq<Docker.Client>)
    requires |all| == |nodes| == |clients| && c.Indexed(all, nodes, clients) && Cluster.NoRoleTwice(nodes)
    ensures Shared(c.workerHosts, c.controlPlaneHosts)
  {
    Cluster.PlacedIsFiltered(all, nodes, Cluster.Worker);
    Cluster.PlacedIsFiltered(all, nodes, Cluster.Control);
    FilteredDistinct(all, nodes, Cluster.Worker);
    FilteredDistinct(all, nodes, Cluster.Control);
    forall i | 0 <= i < |all|
      ensures (all[i] in c.workerHosts <==> all[i].isWorker) && (all[i] in c.controlPlaneHosts <==> all[i].isControl)
    {
      Cluster.FlagsAgree(c, all, nodes, clients, i);
    }
    forall h | h in all ensures (h in c.workerHosts <==> h.isWorker) && (h in c.controlPlaneHosts <==> h.isControl) {
      var i :| 0 <= i < |all| && all[i] == h;
    }
  }
}
