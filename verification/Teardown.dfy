/** cluster/remove.go: `ClusterRemove`, the inverse of a deployment when nothing fails. */
module Teardown {
  import opened Docker
  import opened Planes
  import opened Hosts
  import opened Services
  import opened Lifecycle

  const CLEANER := "kube-cleaner"

  function CleanUpOps(cfg: Config): seq<Op> { [RunOp(CLEANER, cfg, false), AwaitOp(CLEANER), DiscardOp(CLEANER)] }

  lemma ExecAll3(a: Op, b: Op, c: Op, d: Daemon)
    ensures var (d1, ok1) := Exec(a, a.start, d);
            var (d2, ok2) := Exec(b, b.start, d1);
            ExecAll([a, b, c], d) ==
              if !ok1 then (d1, false) else if !ok2 then (d2, false) else Exec(c, c.start, d2)
  {
    assert [a, b, c] == [a] + ([b] + ([c] + []));
    var (d1, ok1) := Exec(a, a.start, d);
    var (d2, ok2) := Exec(b, b.start, d1);
    ExecAllCons(a, [b] + ([c] + []), d);
    ExecAllCons(b, [c] + [], d1);
    ExecAllCons(c, [], d2);
  }

  /** hosts.go:99-117 */
  method CleanUp(c: Client, cfg: Config) returns (ok: bool)
    modifies c
    ensures (c.D(), ok) == ExecAll(CleanUpOps(cfg), old(c.D()))
  {
    ExecAll3(RunOp(CLEANER, cfg, false), AwaitOp(CLEANER), DiscardOp(CLEANER), c.D());
    ok := c.DoRunContainer(CLEANER, cfg);
    if !ok { return; }
    ok := c.WaitForContainer(CLEANER);
    if !ok { return; }
    ok := c.RemoveContainer(CLEANER);
  }

  lemma QuietRunAbsent(d: Daemon, name: string, cfg: Config)
    requires d.Quiet() && name !in d.containers
    ensures var (e, ok) := RunContainer(d, name, cfg); ok && e.Quiet() && name in e.containers
  {
    var op := RunOp(name, cfg, false);
    var (pc1, d1) := Step(op, Inspect, d);
    var (pc2, d2) := Step(op, PullNew, d1);
    var (pc3, d3) := Step(op, CreateNew, d2);
    var (pc4, d4) := Step(op, StartNew, d3);
    assert Exec(op, Inspect, d) == Exec(op, PullNew, d1);
    assert Exec(op, PullNew, d1) == Exec(op, CreateNew, d2);
    assert Exec(op, CreateNew, d2) == Exec(op, StartNew, d3);
    assert Exec(op, StartNew, d3) == (d4, true);
  }

  /** One call each. */
  lemma AwaitThenDiscard(d: Daemon, name: string)
    ensures Exec(AwaitOp(name), AwaitExit, d) == Stop(d, name)
    ensures Exec(DiscardOp(name), Discard, d) == Delete(d, name)
  {
    var (pc, e) := Step(AwaitOp(name), AwaitExit, d);
    assert Exec(AwaitOp(name), AwaitExit, d) == Exec(AwaitOp(name), pc, e);
    var (pc', e') := Step(DiscardOp(name), Discard, d);
    assert Exec(DiscardOp(name), Discard, d) == Exec(DiscardOp(name), pc', e');
  }

  lemma StopThenDelete(d: Daemon, name: string)
    ensures var (d1, stopped) := Stop(d, name);
            var (d2, deleted) := Delete(d1, name);
            (stopped && deleted ==> d2.containers == d.containers - {name}) &&
            (d.Quiet() && name in d.containers ==> stopped && deleted && d2.Quiet())
  {
  }

  lemma RanLess(op: Op, d: Daemon, cs: Containers)
    requires Ran(op, d, cs)
    ensures cs - {op.name} == d.containers - {op.name}
  {
  }

  /** However the calls went: a cleaner that was run, awaited and removed leaves no trace, not even of
      an earlier one. */
  lemma CleanUpOutcome(d: Daemon, name: string, cfg: Config)
    ensures var (e, ok) := ExecAll([RunOp(name, cfg, false), AwaitOp(name), DiscardOp(name)], d);
            (ok ==> e.containers == d.containers - {name}) &&
            (d.Quiet() && name !in d.containers ==> ok && e.Quiet())
  {
    var (d1, ran) := RunContainer(d, name, cfg);
    ExecAll3(RunOp(name, cfg, false), AwaitOp(name), DiscardOp(name), d);
    RunOutcome(d, name, cfg, false);
    if ran { RanLess(RunOp(name, cfg, false), d, d1.containers); }
    if d.Quiet() && name !in d.containers { QuietRunAbsent(d, name, cfg); }
    AwaitThenDiscard(d1, name);
    AwaitThenDiscard(Stop(d1, name).0, name);
    StopThenDelete(d1, name);
  }

  /** What each of the three planes takes from a host with these roles when its removal completes. */
  function WorkerTake(r: Roles): set<string> { if r.worker then Removed(WorkerVisit(r, true).work) else {} }
  function ControlTake(r: Roles): set<string> { if r.control then Removed(ControlVisit(r).work) else {} }
  function EtcdTake(r: Roles): set<string> { if r.etcd then Removed(EtcdVisit(r, true).work) else {} }

  function TornDown(r: Roles): set<string> { WorkerTake(r) + ControlTake(r) + EtcdTake(r) }

  lemma TornDownNames(r: Roles)
    requires r.etcd || r.control || r.worker
    ensures Expected(r) <= TornDown(r)
  {
    WorkerRemoved();
    ControlRemoved(r);
    RemovedCons(Must(RemoveOp(ETCD)), WorkerRemovals());
  }

  // ---------------------------------------------------------------- ClusterRemove

  /** Distinct hosts have distinct clients. */
  ghost predicate OwnClients(all: seq<Host>) {
    forall g, h :: g in all && h in all && g != h ==> g.client != h.client
  }

  /** Nothing is going to fail on these hosts. */
  ghost predicate Silent(all: seq<Host>)
    reads Clients(all)
  {
    forall h :: h in all ==> h.client.D().Quiet()
  }

  ghost function Contents(all: seq<Host>): map<Host, Containers>
    reads Clients(all)
  {
    map h | h in all :: h.client.containers
  }

  lemma OutsideClients(hosts: seq<Host>, all: seq<Host>)
    requires OwnClients(all) && forall i :: 0 <= i < |hosts| ==> hosts[i] in all
    ensures forall h :: h in all && h !in hosts ==> h.client !in Clients(hosts)
  {
  }

  /** The states of listed hosts, by host. */
  lemma StateOf(hosts: seq<Host>, h: Host) returns (i: nat)
    requires h in hosts
    ensures i < |hosts| && hosts[i] == h && States(hosts)[i] == h.client.D()
  {
    i :| 0 <= i < |hosts| && hosts[i] == h;
  }

  lemma StillSilent(hosts: seq<Host>, all: seq<Host>)
    requires AllQuiet(States(hosts)) && forall h :: h in all && h !in hosts ==> h.client.D().Quiet()
    ensures Silent(all)
  {
    forall h | h in all ensures h.client.D().Quiet() {
      if h in hosts { var i := StateOf(hosts, h); }
    }
  }

  // ---------------------------------------------------------------- cleaning

  method CleanUpAll(c: Client, cleaner: Config) returns (ok: bool)
    modifies c
    ensures (c.D(), ok) == ExecAll(CleanUpOps(cleaner), old(c.D()))
    ensures ok ==> c.containers == old(c.containers) - {CLEANER}
    ensures old(c.D().Quiet()) && CLEANER !in old(c.containers) ==> ok && c.D().Quiet()
  {
    CleanUpOutcome(c.D(), CLEANER, cleaner);
    ok := CleanUp(c, cleaner);
  }

  lemma DropTwice(cs: Containers, name: string)
    ensures (cs - {name}) - {name} == cs - {name}
    ensures name !in cs ==> cs - {name} == cs
  {
  }

  /** remove.go:37-49: a host with several roles is cleaned once for each list it is in. */
  method CleanUpHosts(hosts: seq<Host>, cleaner: Config) returns (ok: bool)
    modifies Clients(hosts)
    ensures ok ==> forall h :: h in hosts ==> h.client.containers == old(h.client.containers) - {CLEANER}
    ensures old(Silent(hosts)) && (forall h :: h in hosts ==> CLEANER !in old(h.client.containers)) ==>
              ok && Silent(hosts)
  {
    ghost var quiet := Silent(hosts) && forall h :: h in hosts ==> CLEANER !in h.client.containers;
    for i := 0 to |hosts|
      invariant forall h :: h in hosts ==> h.client.containers - {CLEANER} == old(h.client.containers) - {CLEANER}
      invariant forall j :: 0 <= j < i ==> CLEANER !in hosts[j].client.containers
      invariant quiet ==> Silent(hosts) && forall h :: h in hosts ==> CLEANER !in h.client.containers
    {
      ok := CleanOne(hosts, i, cleaner);
      if !ok { return; }
    }
    forall h | h in hosts ensures h.client.containers == old(h.client.containers) - {CLEANER} {
      DropTwice(h.client.containers, CLEANER);
    }
    return true;
  }

  method CleanOne(hosts: seq<Host>, i: nat, cleaner: Config) returns (ok: bool)
    requires i < |hosts|
    modifies hosts[i].client
    ensures ok ==> forall h :: h in hosts ==>
              h.client.containers - {CLEANER} == old(h.client.containers) - {CLEANER} &&
              (CLEANER in h.client.containers ==> CLEANER in old(h.client.containers) && h.client != hosts[i].client)
    ensures old(Silent(hosts)) && (forall h :: h in hosts ==> CLEANER !in old(h.client.containers)) ==>
              ok && Silent(hosts)
  {
    assert hosts[i] in hosts;
    DropTwice(hosts[i].client.containers, CLEANER);
    ok := CleanUpAll(hosts[i].client, cleaner);
  }

  // ---------------------------------------------------------------- the three planes

  ghost predicate RoleLists(workers: seq<Host>, controls: seq<Host>, etcds: seq<Host>, all: seq<Host>)
    reads all
  {
    Separate(workers) && Separate(controls) && Separate(etcds) && OwnClients(all) &&
    (forall h :: h in workers + controls + etcds ==> h in all) &&
    (forall h :: h in all ==>
       (h.isWorker <==> h in workers) && (h.isControl <==> h in controls) && (h.isEtcd <==> h in etcds))
  }

  /** The roles of these hosts, as values. */
  ghost predicate Roled(all: seq<Host>, roles: map<Host, Roles>)
    reads all
  {
    forall h :: h in all ==> h in roles && roles[h] == RolesOf(h)
  }

  lemma NothingTaken(cs: Containers)
    ensures cs - {} == cs
  {
  }

  /** A daemon after the worker removal ran to its end on it. */
  function WorkerDone(r: Roles, d: Daemon): Daemon {
    if r.worker then ExecGuarded(WorkerVisit(r, true).work, d).0 else d
  }

  /** The control hosts' daemons when their removal begins, from what they were before the worker
      removal. */
  ghost function BeforeControls(controls: seq<Host>, roles: map<Host, Roles>, ds: seq<Daemon>): (r: seq<Daemon>)
    requires |ds| == |controls| && forall i :: 0 <= i < |controls| ==> controls[i] in roles
    ensures |r| == |controls|
    ensures forall i :: 0 <= i < |controls| ==> r[i] == WorkerDone(roles[controls[i]], ds[i])
  {
    seq(|controls|, i requires 0 <= i < |controls| => WorkerDone(roles[controls[i]], ds[i]))
  }

  method SweepWorkers(hosts: seq<Host>) returns (ok: bool, ghost o: Outcome)
    requires Separate(hosts)
    modifies Clients(hosts)
    ensures SweptResult(WorkerVisits(hosts, true), old(States(hosts)), States(hosts), o) && (ok <==> o != Failed)
    ensures ok ==> ClearedTo(WorkerVisits(hosts, true), old(States(hosts)), States(hosts), |hosts|)
  {
    ok, o := RemoveWorkerPlane(hosts, true);
  }

  method WorkerPass(hosts: seq<Host>, ghost all: seq<Host>, ghost roles: map<Host, Roles>) returns (ok: bool)
    requires Separate(hosts) && OwnClients(all) && Roled(all, roles) && forall i :: 0 <= i < |hosts| ==> hosts[i] in all
    requires forall h :: h in all ==> (roles[h].worker <==> h in hosts)
    modifies Clients(hosts)
    ensures ok ==> forall h :: h in all ==> h.client.containers == old(h.client.containers) - WorkerTake(roles[h])
    ensures ok ==> forall h :: h in all ==> h.client.D() == WorkerDone(roles[h], old(h.client.D()))
    ensures old(Silent(all)) ==> ok && Silent(all)
  {
    ghost var quiet, was := Silent(all), States(hosts);
    OutsideClients(hosts, all);
    ghost var o;
    ok, o := SweepWorkers(hosts);
    if quiet { StillSilent(hosts, all); }
    if ok {
      forall h | h in all ensures h.client.containers == old(h.client.containers) - WorkerTake(roles[h]) {
        NothingTaken(h.client.containers);
        if h in hosts { var i := StateOf(hosts, h); }
      }
      forall h | h in all ensures h.client.D() == WorkerDone(roles[h], old(h.client.D())) {
        if h in hosts {
          var i := StateOf(hosts, h);
          WorkerNilDone(hosts, was, i);
        }
      }
    }
  }

  method EtcdPass(hosts: seq<Host>, ghost all: seq<Host>, ghost roles: map<Host, Roles>) returns (ok: bool)
    requires Separate(hosts) && OwnClients(all) && Roled(all, roles) && forall i :: 0 <= i < |hosts| ==> hosts[i] in all
    requires forall h :: h in all ==> (roles[h].etcd <==> h in hosts)
    modifies Clients(hosts)
    ensures ok ==> forall h :: h in all ==> h.client.containers == old(h.client.containers) - EtcdTake(roles[h])
    ensures old(Silent(all)) ==> ok && Silent(all)
  {
    ghost var quiet, was := Silent(all), States(hosts);
    OutsideClients(hosts, all);
    ghost var o;
    ok, o := RemoveEtcdPlane(hosts, true);
    if quiet { StillSilent(hosts, all); }
    if ok {
      forall h | h in all ensures h.client.containers == old(h.client.containers) - EtcdTake(roles[h]) {
        NothingTaken(h.client.containers);
        if h in hosts { var i := StateOf(hosts, h); }
      }
    }
  }

  /** What the control removal, started in the states `mid`, left: `left` where there was `now`. */
  ghost predicate ControlLeft(hosts: seq<Host>, visits: seq<Visit>, mid: seq<Daemon>, all: seq<Host>,
                              now: map<Host, Containers>, left: map<Host, Containers>)
  {
    |visits| == |mid| == |hosts| &&
    (forall h :: h in all ==> h in now && h in left && (h !in hosts ==> left[h] == now[h])) &&
    (forall i :: 0 <= i < |hosts| ==>
       hosts[i] in all && mid[i].containers == now[hosts[i]] && left[hosts[i]] == Sweep(visits, mid).0[i].containers)
  }

  lemma ControlLeaves(hosts: seq<Host>, visits: seq<Visit>, mid: seq<Daemon>, all: seq<Host>,
                      now: map<Host, Containers>)
    requires |visits| == |mid| == |hosts| && States(hosts) == Sweep(visits, mid).0
    requires forall h :: h in all ==> h in now && (h !in hosts ==> h.client.containers == now[h])
    requires forall i :: 0 <= i < |hosts| ==> hosts[i] in all && mid[i].containers == now[hosts[i]]
    ensures ControlLeft(hosts, visits, mid, all, now, Contents(all))
  {
    forall i | 0 <= i < |hosts| ensures Contents(all)[hosts[i]] == Sweep(visits, mid).0[i].containers {
      assert States(hosts)[i] == hosts[i].client.D();
    }
  }

  lemma {:induction false} ControlsClean(hosts: seq<Host>, ds: seq<Daemon>)
    requires |ds| == |hosts| && AllQuiet(ds)
    ensures Clean(ControlVisits(hosts), ds)
  {
  }

  method SweepControls(hosts: seq<Host>, ghost visits: seq<Visit>) returns (ok: bool)
    requires Separate(hosts) && visits == ControlVisits(hosts)
    modifies Clients(hosts)
    ensures States(hosts) == Sweep(visits, old(States(hosts))).0 &&
            (ok <==> Sweep(visits, old(States(hosts))).1 != Failed)
    ensures AllQuiet(old(States(hosts))) ==> Sweep(visits, old(States(hosts))).1 == Completed && AllQuiet(States(hosts))
  {
    ghost var o;
    if AllQuiet(States(hosts)) { ControlsClean(hosts, States(hosts)); }
    ok, o := RemoveControlPlane(hosts);
  }

  method ControlPass(hosts: seq<Host>, ghost all: seq<Host>, ghost visits: seq<Visit>) returns (ok: bool)
    requires Separate(hosts) && OwnClients(all) && (forall i :: 0 <= i < |hosts| ==> hosts[i] in all)
    requires visits == ControlVisits(hosts)
    modifies Clients(hosts)
    ensures ControlLeft(hosts, visits, old(States(hosts)), all, old(Contents(all)), Contents(all))
    ensures ok <==> Sweep(visits, old(States(hosts))).1 != Failed
    ensures old(Silent(all)) ==> Sweep(visits, old(States(hosts))).1 == Completed && Silent(all)
  {
    ghost var quiet, mid, now := Silent(all), States(hosts), Contents(all);
    OutsideClients(hosts, all);
    ok := SweepControls(hosts, visits);
    assert ControlLeft(hosts, visits, mid, all, now, Contents(all)) by { ControlLeaves(hosts, visits, mid, all, now); }
    if quiet { StillSilent(hosts, all); }
  }

  /** `now` without what the worker removal takes. */
  ghost function AfterWorkers(roles: map<Host, Roles>, now: map<Host, Containers>): map<Host, Containers> {
    map h | h in roles && h in now :: now[h] - WorkerTake(roles[h])
  }

  lemma WorkersGone(all: seq<Host>, roles: map<Host, Roles>, now: map<Host, Containers>)
    requires forall h :: h in all ==> h in roles && h in now && h.client.containers == now[h] - WorkerTake(roles[h])
    requires forall h :: h in now ==> h in all
    ensures Contents(all) == AfterWorkers(roles, now)
  {
  }

  /** remove.go:14-21: the worker plane, then the control plane. */
  method RemoveWorkersThenControls(workers: seq<Host>, controls: seq<Host>, ghost all: seq<Host>,
                                   ghost roles: map<Host, Roles>, ghost visits: seq<Visit>, ghost mid: seq<Daemon>)
    returns (ok: bool)
    requires Separate(workers) && Separate(controls) && OwnClients(all) && visits == ControlVisits(controls)
    requires forall i :: 0 <= i < |workers| ==> workers[i] in all
    requires forall i :: 0 <= i < |controls| ==> controls[i] in all
    requires Roled(all, roles) && forall h :: h in all ==> (roles[h].worker <==> h in workers)
    requires mid == BeforeControls(controls, roles, States(controls))
    modifies Clients(workers), Clients(controls)
    ensures ok ==> ControlLeft(controls, visits, mid, all, AfterWorkers(roles, old(Contents(all))), Contents(all))
    ensures ok ==> Sweep(visits, mid).1 != Failed
    ensures old(Silent(all)) ==> ok && Sweep(visits, mid).1 == Completed && Silent(all)
  {
    ghost var now := Contents(all);
    ok := WorkerPass(workers, all, roles);
    if !ok { return; }
    assert States(controls) == mid;
    assert Contents(all) == AfterWorkers(roles, now) by { WorkersGone(all, roles, now); }
    ok := ControlPass(controls, all, visits);
  }

  /** `mid` are the daemons in which the control removal of a removal begun now will find its hosts. */
  ghost predicate Began(controls: seq<Host>, roles: map<Host, Roles>, mid: seq<Daemon>)
    reads Clients(controls)
  {
    (forall i :: 0 <= i < |controls| ==> controls[i] in roles) &&
    mid == BeforeControls(controls, roles, States(controls))
  }

  /** The three planes, in the order of remove.go:14-26. */
  method RemovePlanes(workers: seq<Host>, controls: seq<Host>, etcds: seq<Host>, ghost all: seq<Host>,
                      ghost roles: map<Host, Roles>, ghost visits: seq<Visit>, ghost mid: seq<Daemon>)
    returns (ok: bool, ghost left: map<Host, Containers>)
    requires RoleLists(workers, controls, etcds, all) && Roled(all, roles) && visits == ControlVisits(controls)
    requires Began(controls, roles, mid)
    modifies Clients(workers), Clients(controls), Clients(etcds)
    ensures ok ==> ControlLeft(controls, visits, mid, all, AfterWorkers(roles, old(Contents(all))), left)
    ensures ok ==> Sweep(visits, mid).1 != Failed
    ensures ok ==> forall h :: h in all ==> h.client.containers == left[h] - EtcdTake(roles[h])
    ensures old(Silent(all)) ==> ok && Sweep(visits, mid).1 == Completed && Silent(all)
  {
    InAll(workers, controls, etcds, all);
    ok := RemoveWorkersThenControls(workers, controls, all, roles, visits, mid);
    left := Contents(all);
    if !ok { return; }
    ok := EtcdPass(etcds, all, roles);
  }

  lemma InAll(workers: seq<Host>, controls: seq<Host>, etcds: seq<Host>, all: seq<Host>)
    requires RoleLists(workers, controls, etcds, all)
    ensures forall i :: 0 <= i < |workers| ==> workers[i] in all
    ensures forall i :: 0 <= i < |controls| ==> controls[i] in all
    ensures forall i :: 0 <= i < |etcds| ==> etcds[i] in all
  {
    assert forall i :: 0 <= i < |workers| ==> workers[i] in workers + controls + etcds;
    assert forall i :: 0 <= i < |controls| ==> controls[i] in workers + controls + etcds;
    assert forall i :: 0 <= i < |etcds| ==> etcds[i] in workers + controls + etcds;
  }

  /** The visits of a control removal, by the roles of the hosts. */
  ghost predicate ControlRoles(controls: seq<Host>, visits: seq<Visit>, all: seq<Host>, roles: map<Host, Roles>) {
    |visits| == |controls| && AllRemovals(visits) &&
    (forall h :: h in all ==> h in roles && (roles[h].control <==> h in controls)) &&
    (forall i :: 0 <= i < |controls| ==> controls[i] in all && visits[i] == ControlVisit(roles[controls[i]]))
  }

  lemma ControlRolesOf(controls: seq<Host>, all: seq<Host>, roles: map<Host, Roles>)
    requires Roled(all, roles) && forall h :: h in all ==> (roles[h].control <==> h in controls)
    requires forall i :: 0 <= i < |controls| ==> controls[i] in all
    ensures ControlRoles(controls, ControlVisits(controls), all, roles)
  {
    VisitsRemove(controls, true);
  }

  /** A control removal that completed took exactly its names. */
  lemma CompletedLeaves(controls: seq<Host>, visits: seq<Visit>, mid: seq<Daemon>, all: seq<Host>,
                        roles: map<Host, Roles>, now: map<Host, Containers>, left: map<Host, Containers>, h: Host)
    requires ControlRoles(controls, visits, all, roles) && ControlLeft(controls, visits, mid, all, now, left) &&
             h in all
    requires Sweep(visits, mid).1 == Completed
    ensures left[h] == now[h] - ControlTake(roles[h])
  {
    SweepClears(visits, mid);
    SweepOutcome(visits, mid);
    NothingTaken(now[h]);
    if h in controls {
      var i :| 0 <= i < |controls| && controls[i] == h;
      assert Sweep(visits, mid).0[i].containers == mid[i].containers - Removed(visits[i].work);
    }
  }

  lemma TakenTogether(cs: Containers, r: Roles)
    ensures cs - WorkerTake(r) - ControlTake(r) - EtcdTake(r) == cs - TornDown(r)
  {
    var a, b, c := WorkerTake(r), ControlTake(r), EtcdTake(r);
    assert cs - a - b - c == cs - (a + b + c);
  }

  lemma AllTaken(controls: seq<Host>, visits: seq<Visit>, mid: seq<Daemon>, all: seq<Host>,
                 roles: map<Host, Roles>, was: map<Host, Containers>, left: map<Host, Containers>)
    requires ControlRoles(controls, visits, all, roles) && (forall h :: h in all ==> h in was)
    requires ControlLeft(controls, visits, mid, all, AfterWorkers(roles, was), left)
    requires Sweep(visits, mid).1 == Completed
    ensures forall h :: h in all ==> left[h] - EtcdTake(roles[h]) == was[h] - TornDown(roles[h])
  {
    forall h | h in all ensures left[h] - EtcdTake(roles[h]) == was[h] - TornDown(roles[h]) {
      CompletedLeaves(controls, visits, mid, all, roles, AfterWorkers(roles, was), left, h);
      TakenTogether(was[h], roles[h]);
    }
  }

  /** The planes of remove.go:14-26 where the control removal completed. */
  method RemovePlanesExactly(workers: seq<Host>, controls: seq<Host>, etcds: seq<Host>, ghost all: seq<Host>,
                             ghost roles: map<Host, Roles>, ghost visits: seq<Visit>, ghost mid: seq<Daemon>)
    returns (ok: bool, ghost left: map<Host, Containers>)
    requires RoleLists(workers, controls, etcds, all) && Roled(all, roles) && visits == ControlVisits(controls)
    requires Began(controls, roles, mid)
    modifies Clients(workers), Clients(controls), Clients(etcds)
    ensures ok ==> ControlLeft(controls, visits, mid, all, AfterWorkers(roles, old(Contents(all))), left)
    ensures ok ==> Sweep(visits, mid).1 != Failed
    ensures ok ==> forall h :: h in all ==> h.client.containers == left[h] - EtcdTake(roles[h])
    ensures ok && Sweep(visits, mid).1 == Completed ==>
              forall h :: h in all ==> h.client.containers == old(h.client.containers) - TornDown(roles[h])
    ensures old(Silent(all)) ==> ok && Sweep(visits, mid).1 == Completed && Silent(all)
  {
    ghost var was := Contents(all);
    InAll(workers, controls, etcds, all);
    ControlRolesOf(controls, all, roles);
    ok, left := RemovePlanes(workers, controls, etcds, all, roles, visits, mid);
    if ok && Sweep(visits, mid).1 == Completed { AllTaken(controls, visits, mid, all, roles, was, left); }
  }

  /** remove.go:12-35.  Nil tells exactly what happened, whatever failed: `mid`, a function of the
      hosts' daemons at the call, are the control hosts' daemons when their removal begins, and `left` is
      what it left; where that removal completed, every host
      lost exactly what its roles brought.  Without failures the whole removal completes. */
  method ClusterRemove(workers: seq<Host>, controls: seq<Host>, etcds: seq<Host>, cleaner: Config,
                       ghost all: seq<Host>, ghost roles: map<Host, Roles>, ghost visits: seq<Visit>,
                       ghost mid: seq<Daemon>)
    returns (ok: bool, ghost left: map<Host, Containers>)
    requires all == controls + workers + etcds && RoleLists(workers, controls, etcds, all)
    requires Roled(all, roles) && visits == ControlVisits(controls) && Began(controls, roles, mid)
    modifies Clients(all)
    ensures ok ==> ControlLeft(controls, visits, mid, all, AfterWorkers(roles, old(Contents(all))), left)
    ensures ok ==> Sweep(visits, mid).1 != Failed
    ensures ok ==> forall h :: h in all ==> h.client.containers == left[h] - EtcdTake(roles[h]) - {CLEANER}
    ensures ok && Sweep(visits, mid).1 == Completed ==>
              forall h :: h in all ==> h.client.containers == old(h.client.containers) - TornDown(roles[h]) - {CLEANER}
    ensures old(Silent(all)) && (forall h :: h in all ==> CLEANER !in old(h.client.containers)) ==>
              ok && Sweep(visits, mid).1 == Completed
  {
    InAll(workers, controls, etcds, all);
    ok, left := RemovePlanesExactly(workers, controls, etcds, all, roles, visits, mid);
    if !ok { return; }
    ok := CleanUpHosts(controls + workers + etcds, cleaner);
  }
}
