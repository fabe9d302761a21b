/** The order of a deployment over all hosts at once (cluster/cluster.go:56-91): no API server before every
    etcd container runs, no kubelet before every master does, and the kubelets of the etcd hosts before those of
    the control hosts before those of the other workers.  It holds at every call of every run, whatever fails
    and however the goroutines interleave. */
module Order {
  import opened Docker
  import opened Planes
  import opened Services
  import opened Deploy
  import opened Lifecycle
  import opened Redeploy

  // ---------------------------------------------------------------- a phase touches only what it names

  predicate Kept(cs: Containers, base: Containers, s: string) {
    (s in cs <==> s in base) && (s in cs ==> cs[s] == base[s])
  }

  lemma StepKeepsOthers(op: Op, pc: Pc, d: Daemon, s: string)
    requires !pc.Done? && s != op.name && s != OldName(op.name)
    ensures Kept(Step(op, pc, d).1.containers, d.containers, s)
  {
  }

  ghost predicate Within(t: Task, ops: seq<Op>) {
    t.Valid() && (t.Running? ==> forall i :: 0 <= i < |t.ops| ==> t.ops[i] in ops)
  }

  lemma {:induction false} BeginWithin(rest: seq<Op>, ops: seq<Op>)
    requires forall i :: 0 <= i < |rest| ==> rest[i] in ops
    ensures Within(Begin(rest), ops)
    decreases |rest|, 1
  {
    if rest != [] { AdvanceWithin(rest, rest[0].start, ops); }
  }

  lemma {:induction false} AdvanceWithin(rest: seq<Op>, pc: Pc, ops: seq<Op>)
    requires rest != [] && forall i :: 0 <= i < |rest| ==> rest[i] in ops
    ensures Within(Advance(rest, pc), ops)
    decreases |rest|, 0
  {
    if pc.Done? && pc.ok { BeginWithin(rest[1..], ops); }
  }

  /** A goroutine for these operations, begun on `base`, leaves alone the services they do not name. */
  ghost predicate Confined(t: Task, cs: Containers, ops: seq<Op>, base: Containers) {
    Within(t, ops) && forall s :: s in SERVICES && !Mentions(ops, s) ==> Kept(cs, base, s)
  }

  lemma ConfinedStep(t: Task, d: Daemon, ops: seq<Op>, base: Containers)
    requires Confined(t, d.containers, ops, base) && t.Running?
    ensures var (t', d') := TaskStep(t, d); Confined(t', d'.containers, ops, base)
  {
    var d' := TaskStep(t, d).1;
    AdvanceWithin(t.ops, Step(t.ops[0], t.pc, d).0, ops);
    forall s | s in SERVICES && !Mentions(ops, s) ensures Kept(d'.containers, base, s) {
      assert t.ops[0] in ops;
      OldNamesAreNotServices(t.ops[0].name);
      StepKeepsOthers(t.ops[0], t.pc, d, s);
    }
  }

  ghost predicate PhaseConfined(plan: Plan, ds: map<string, Daemon>, w: World) {
    OnCourse(plan, ds, w) &&
    forall h :: h in w.tasks ==>
      Confined(w.tasks[h], w.daemons[h].containers, OpsOf(plan[w.phase], h),
               Sequential(plan, w.phase, ds).0[h].containers)
  }

  lemma PhaseConfinedStart(plan: Plan, ds: map<string, Daemon>, k: nat)
    requires WellFormed(plan, ds) && k < |plan| && Sequential(plan, k, ds).1
    ensures PhaseConfined(plan, ds, World(Sequential(plan, k, ds).0, k, TasksOf(plan[k])))
  {
    OnCourseStart(plan, ds, k);
    forall h | h in HostsOf(plan[k]) ensures Within(Begin(OpsOf(plan[k], h)), OpsOf(plan[k], h)) {
      BeginWithin(OpsOf(plan[k], h), OpsOf(plan[k], h));
    }
  }

  lemma PhaseConfinedStep(plan: Plan, ds: map<string, Daemon>, w: World, h: string, w': World)
    requires PhaseConfined(plan, ds, w) && StepBy(w, h, w')
    ensures PhaseConfined(plan, ds, w')
  {
    OnCourseStep(plan, ds, w, h, w');
    ConfinedStep(w.tasks[h], w.daemons[h], OpsOf(plan[w.phase], h), Sequential(plan, w.phase, ds).0[h].containers);
  }

  lemma PhaseConfinedBarrier(plan: Plan, ds: map<string, Daemon>, w: World, w': World)
    requires OnCourse(plan, ds, w) && Barrier(plan, w, w')
    ensures PhaseConfined(plan, ds, w')
  {
    PhaseEnd(plan, ds, w);
    PhaseConfinedStart(plan, ds, w.phase + 1);
  }

  lemma PhaseConfinedNext(plan: Plan, ds: map<string, Daemon>, w: World, w': World)
    requires PhaseConfined(plan, ds, w) && Next(plan, w, w')
    ensures PhaseConfined(plan, ds, w')
  {
    if Barrier(plan, w, w') {
      PhaseConfinedBarrier(plan, ds, w, w');
    } else {
      var h :| StepBy(w, h, w');
      PhaseConfinedStep(plan, ds, w, h, w');
    }
  }

  lemma {:induction false} AlwaysConfined(plan: Plan, ds: map<string, Daemon>, ws: seq<World>, k: nat)
    requires IsRun(plan, ds, ws) && k < |ws|
    ensures PhaseConfined(plan, ds, ws[k])
  {
    if k == 0 {
      PhaseConfinedStart(plan, ds, 0);
    } else {
      AlwaysConfined(plan, ds, ws, k - 1);
      assert Next(plan, ws[k - 1], ws[k - 1 + 1]);
      PhaseConfinedNext(plan, ds, ws[k - 1], ws[k]);
    }
  }

  /** The services a phase does not name on a host are there as the earlier phases left them. */
  lemma KeptInPhase(plan: Plan, ds: map<string, Daemon>, w: World, h: string, s: string)
    requires PhaseConfined(plan, ds, w) && h in ds && s in SERVICES && !Mentions(OpsOf(plan[w.phase], h), s)
    ensures Kept(w.daemons[h].containers, Sequential(plan, w.phase, ds).0[h].containers, s)
  {
  }

  // ---------------------------------------------------------------- not before, not any more

  lemma {:induction false} EffectUnmentioned(ops: seq<Op>, names: set<string>, s: string)
    requires !Mentions(ops, s) && s !in names
    ensures s !in EffectAll(ops, names)
  {
    if ops != [] {
      assert ops[0].name != s;
      assert forall i :: 0 <= i < |ops| - 1 ==> ops[1..][i] == ops[i + 1];
      EffectUnmentioned(ops[1..], Effect(ops[0], names), s);
    }
  }

  lemma MentionsConcat(a: seq<Op>, b: seq<Op>, s: string)
    ensures Mentions(a + b, s) <==> Mentions(a, s) || Mentions(b, s)
  {
    if Mentions(a, s) {
      var i :| 0 <= i < |a| && a[i].name == s;
      assert (a + b)[i] == a[i];
    }
    if Mentions(b, s) {
      var i :| 0 <= i < |b| && b[i].name == s;
      assert (a + b)[|a| + i] == b[i];
    }
  }

  lemma FlatPrefix(plan: Plan, k: nat, m: nat, h: string)
    requires k <= m <= |plan|
    ensures Flat(plan[..k], h) <= Flat(plan[..m], h)
  {
    assert plan[..m] == plan[..k] + plan[k..m];
    FlatConcat(plan[..k], plan[k..m], h);
  }

  lemma MentionedLater(plan: Plan, k: nat, m: nat, h: string, s: string)
    requires k <= m <= |plan| && Mentions(Flat(plan[..k], h), s)
    ensures Mentions(Flat(plan[..m], h), s)
  {
    FlatPrefix(plan, k, m, h);
    var i :| 0 <= i < |Flat(plan[..k], h)| && Flat(plan[..k], h)[i].name == s;
    assert Flat(plan[..m], h)[i] == Flat(plan[..k], h)[i];
  }

  /** A service that a host did not have is there only if a phase that has begun names it. */
  lemma NotBefore(plan: Plan, ds: map<string, Daemon>, w: World, h: string, want: Wanted, s: string)
    requires PhaseConfined(plan, ds, w) && h in ds && AllProper(Flat(plan, h), want)
    requires s in SERVICES && s !in ds[h].containers && s in w.daemons[h].containers
    ensures Mentions(Flat(plan[..w.phase + 1], h), s)
  {
    var k := w.phase;
    if !Mentions(Flat(plan[..k + 1], h), s) {
      FlatSnoc(plan, k, h);
      MentionsConcat(Flat(plan[..k], h), OpsOf(plan[k], h), s);
      KeptInPhase(plan, ds, w, h, s);
      SequentialHost(plan, k, ds, h);
      FlatPrefix(plan, k, |plan|, h);
      assert plan[..|plan|] == plan;
      KeysAll(Flat(plan[..k], h), ds[h], want);
      EffectUnmentioned(Flat(plan[..k], h), ds[h].containers.Keys, s);
    }
  }

  /** Nothing but runs of the service. */
  ghost predicate OnlyRuns(ops: seq<Op>, s: string) {
    forall i :: 0 <= i < |ops| && ops[i].name == s ==> ops[i].start == Inspect
  }

  /** After `k` successful phases that name a service on a host and never remove it, it runs there. */
  lemma RunsThen(plan: Plan, k: nat, ds: map<string, Daemon>, h: string, want: Wanted, s: string)
    requires WellFormed(plan, ds) && k <= |plan| && Sequential(plan, k, ds).1 && h in ds
    requires AllProper(Flat(plan, h), want) && OnlyRuns(Flat(plan, h), s)
    requires s in SERVICES && Mentions(Flat(plan[..k], h), s)
    ensures Runs(Sequential(plan, k, ds).0[h].containers, s)
  {
    SequentialHost(plan, k, ds, h);
    FlatPrefix(plan, k, |plan|, h);
    assert plan[..|plan|] == plan;
    RunsAll(Flat(plan[..k], h), ds[h], want, s);
  }

  lemma RunsSince(plan: Plan, ds: map<string, Daemon>, w: World, h: string, want: Wanted, s: string)
    requires PhaseConfined(plan, ds, w) && h in ds && AllProper(Flat(plan, h), want) && OnlyRuns(Flat(plan, h), s)
    requires s in SERVICES && Mentions(Flat(plan[..w.phase], h), s) && !Mentions(OpsOf(plan[w.phase], h), s)
    ensures Runs(w.daemons[h].containers, s)
  {
    RunsThen(plan, w.phase, ds, h, want, s);
    KeptInPhase(plan, ds, w, h, s);
  }

  // ---------------------------------------------------------------- the phases of a deployment

  lemma EtcdNamed(want: Wanted, s: string)
    ensures Mentions(EtcdOps(want), s) <==> s == ETCD
  {
    assert EtcdOps(want)[0].name == ETCD;
  }

  lemma ControlNamed(r: Roles, want: Wanted, s: string)
    requires Mentions(ControlOps(r, want), s)
    ensures s in {NGINX_PROXY, SIDEKICK, KUBE_API, KUBE_CONTROLLER, SCHEDULER}
  {
  }

  lemma WorkerNamed(r: Roles, want: Wanted, s: string)
    requires Mentions(WorkerOps(r, want), s)
    ensures s in {NGINX_PROXY, SIDEKICK, KUBELET, KUBE_PROXY}
  {
  }

  /** A node's operations phase by phase; `n` is the number of etcd hosts. */
  ghost predicate Parts(plan: Plan, n: nat, h: string, r: Roles, want: Wanted) {
    |plan| == n + 4 && Flat(plan[..n], h) == (if r.etcd then EtcdOps(want) else []) &&
    OpsOf(plan[n], h) == (if r.control then ControlOps(r, want) else []) &&
    OpsOf(plan[n + 1], h) == (if r.etcd then WorkerOps(r, want) else []) &&
    OpsOf(plan[n + 2], h) == (if r.control then WorkerOps(r, want) else []) &&
    OpsOf(plan[n + 3], h) == (if r.worker then WorkerOps(r, want) else [])
  }

  lemma DeployParts(nodes: seq<Node>, want: Cluster, i: nat)
    requires DistinctAddresses(nodes) && i < |nodes|
    ensures Parts(DeployPlan(nodes, want), |EtcdPhases(nodes, want)|, nodes[i].address, nodes[i].roles,
                  want(nodes[i].address))
  {
    var plan, n := DeployPlan(nodes, want), |EtcdPhases(nodes, want)|;
    assert plan[..n] == EtcdPhases(nodes, want);
    EtcdFlat(nodes, want, nodes[i].address);
    SelectOps(nodes, IsControl(), ControlJob(want), i);
    SelectOps(nodes, IsEtcd(), WorkerJob(want), i);
    SelectOps(nodes, IsControl(), WorkerJob(want), i);
    SelectOps(nodes, IsWorker(), WorkerJob(want), i);
  }

  lemma PrefixParts(plan: Plan, n: nat, h: string, r: Roles, want: Wanted)
    requires Parts(plan, n, h, r, want)
    ensures Flat(plan[..n + 1], h) == Flat(plan[..n], h) + OpsOf(plan[n], h)
    ensures Flat(plan[..n + 2], h) == Flat(plan[..n + 1], h) + OpsOf(plan[n + 1], h)
    ensures Flat(plan[..n + 3], h) == Flat(plan[..n + 2], h) + OpsOf(plan[n + 2], h)
  {
    FlatSnoc(plan, n, h);
    FlatSnoc(plan, n + 1, h);
    FlatSnoc(plan, n + 2, h);
  }

  /** The operations a node is asked for are proper ones, and only `nginx-proxy` is ever removed. */
  lemma HostRuns(r: Roles, want: Wanted, s: string)
    requires s in SERVICES && s !in {NGINX_PROXY, SIDEKICK}
    ensures AllProper(HostOps(r, want), want) && OnlyRuns(HostOps(r, want), s)
  {
    if r.etcd || r.control || r.worker {
      HostEffect(r, want);
      RoleRuns(r, want, s);
      FiveRuns(if r.etcd then EtcdOps(want) else [], if r.control then ControlOps(r, want) else [],
               if r.etcd then WorkerOps(r, want) else [], if r.control then WorkerOps(r, want) else [],
               if r.worker then WorkerOps(r, want) else [], s);
    } else {
      assert HostOps(r, want) == [];
    }
  }

  lemma RoleRuns(r: Roles, want: Wanted, s: string)
    requires s !in {NGINX_PROXY, SIDEKICK}
    ensures OnlyRuns(EtcdOps(want), s) && OnlyRuns(ControlOps(r, want), s) && OnlyRuns(WorkerOps(r, want), s)
  {
  }

  lemma FiveRuns(a: seq<Op>, b: seq<Op>, c: seq<Op>, d: seq<Op>, e: seq<Op>, s: string)
    requires OnlyRuns(a, s) && OnlyRuns(b, s) && OnlyRuns(c, s) && OnlyRuns(d, s) && OnlyRuns(e, s)
    ensures OnlyRuns(a + b + c + d + e, s)
  {
  }

  /** A host's own plan, proper and free of removals of `s`. */
  lemma NodeRuns(nodes: seq<Node>, want: Cluster, i: nat, s: string)
    requires DistinctAddresses(nodes) && i < |nodes| && s in SERVICES && s !in {NGINX_PROXY, SIDEKICK}
    ensures var ops := Flat(DeployPlan(nodes, want), nodes[i].address);
            AllProper(ops, want(nodes[i].address)) && OnlyRuns(ops, s)
  {
    DeployFlat(nodes, want, i);
    HostRuns(nodes[i].roles, want(nodes[i].address), s);
  }

  /** The phase in which a service can first come to a node. */
  lemma PhaseOf(nodes: seq<Node>, want: Cluster, ds: map<string, Daemon>, w: World, i: nat, s: string, m: nat)
    requires DistinctAddresses(nodes) && i < |nodes| && nodes[i].address in ds
    requires PhaseConfined(DeployPlan(nodes, want), ds, w) && m <= |DeployPlan(nodes, want)|
    requires s in SERVICES && s !in ds[nodes[i].address].containers && s in w.daemons[nodes[i].address].containers
    requires !Mentions(Flat(DeployPlan(nodes, want)[..m], nodes[i].address), s)
    ensures m <= w.phase
  {
    var plan, h := DeployPlan(nodes, want), nodes[i].address;
    NodeRuns(nodes, want, i, ETCD);
    NotBefore(plan, ds, w, h, want(h), s);
    if w.phase < m { MentionedLater(plan, w.phase + 1, m, h, s); }
  }

  // ---------------------------------------------------------------- the order

  /** A run of the deployment of these nodes, in any state. */
  ghost predicate Deploying(nodes: seq<Node>, want: Cluster, ds: map<string, Daemon>, ws: seq<World>) {
    DistinctAddresses(nodes) && (forall i :: 0 <= i < |nodes| ==> nodes[i].address in ds) &&
    IsRun(DeployPlan(nodes, want), ds, ws)
  }

  /** Service `s` has come to node `i` since the deployment began. */
  ghost predicate Arrived(nodes: seq<Node>, ds: map<string, Daemon>, w: World, i: nat, s: string) {
    i < |nodes| && var h := nodes[i].address;
    h in ds && h in w.daemons && s in SERVICES && s !in ds[h].containers && s in w.daemons[h].containers
  }

  ghost predicate RunsOn(nodes: seq<Node>, w: World, j: nat, s: string) {
    j < |nodes| && nodes[j].address in w.daemons && Runs(w.daemons[nodes[j].address].containers, s)
  }

  lemma OneOfFour(plan: Plan, n: nat, h: string, k: nat, c: seq<Op>, w: seq<Op>)
    requires n <= k < |plan| == n + 4 && OpsOf(plan[n], h) in {[], c}
    requires OpsOf(plan[n + 1], h) in {[], w} && OpsOf(plan[n + 2], h) in {[], w} && OpsOf(plan[n + 3], h) in {[], w}
    ensures OpsOf(plan[k], h) in {[], if k == n then c else w}
  {
    assert k == n || k == n + 1 || k == n + 2 || k == n + 3;
  }

  /** What a node is asked for once the etcd phases are over. */
  lemma LaterOps(plan: Plan, n: nat, h: string, r: Roles, want: Wanted, k: nat)
    requires Parts(plan, n, h, r, want) && n <= k < |plan|
    ensures OpsOf(plan[k], h) in {[], if k == n then ControlOps(r, want) else WorkerOps(r, want)}
  {
    OneOfFour(plan, n, h, k, ControlOps(r, want), WorkerOps(r, want));
  }

  lemma NamesApart(m: string)
    requires m in {ETCD, KUBE_API, KUBE_CONTROLLER, SCHEDULER}
    ensures m !in {NGINX_PROXY, SIDEKICK, KUBELET, KUBE_PROXY}
    ensures m == ETCD ==> m !in {NGINX_PROXY, SIDEKICK, KUBE_API, KUBE_CONTROLLER, SCHEDULER}
  {
  }

  /** No phase after the etcd phases names etcd, and none after the control phase a master. */
  lemma NotNamedLater(plan: Plan, n: nat, h: string, r: Roles, want: Wanted, k: nat, m: string)
    requires Parts(plan, n, h, r, want) && m in {ETCD, KUBE_API, KUBE_CONTROLLER, SCHEDULER}
    requires (if m == ETCD then n else n + 1) <= k < |plan|
    ensures !Mentions(OpsOf(plan[k], h), m)
  {
    LaterOps(plan, n, h, r, want, k);
    NamesApart(m);
    if Mentions(OpsOf(plan[k], h), m) {
      if k == n { ControlNamed(r, want, m); } else { WorkerNamed(r, want, m); }
    }
  }

  /** Before any other service comes to any node, etcd runs on every etcd node. */
  lemma EtcdFirst(nodes: seq<Node>, want: Cluster, ds: map<string, Daemon>, ws: seq<World>, k: nat, i: nat, s: string,
                  j: nat)
    requires Deploying(nodes, want, ds, ws) && k < |ws| && Arrived(nodes, ds, ws[k], i, s) && s != ETCD
    requires j < |nodes| && nodes[j].roles.etcd
    ensures RunsOn(nodes, ws[k], j, ETCD)
  {
    var plan, n, h := DeployPlan(nodes, want), |EtcdPhases(nodes, want)|, nodes[j].address;
    AlwaysConfined(plan, ds, ws, k);
    DeployParts(nodes, want, i);
    DeployParts(nodes, want, j);
    EtcdNamed(want(nodes[i].address), s);
    PhaseOf(nodes, want, ds, ws[k], i, s, n);
    EtcdNamed(want(h), ETCD);
    MentionedLater(plan, n, ws[k].phase, h, ETCD);
    NotNamedLater(plan, n, h, nodes[j].roles, want(h), ws[k].phase, ETCD);
    NodeRuns(nodes, want, j, ETCD);
    RunsSince(plan, ds, ws[k], h, want(h), ETCD);
  }

  lemma {:induction false} EtcdPhasesConcat(a: seq<Node>, b: seq<Node>, want: Cluster)
    ensures EtcdPhases(a + b, want) == EtcdPhases(a, want) + EtcdPhases(b, want)
  {
    if a == [] {
      assert a + b == b;
    } else {
      assert (a + b)[1..] == a[1..] + b;
      EtcdPhasesConcat(a[1..], b, want);
    }
  }

  /** The etcd phases of the nodes before `i` come first and are about those nodes only. */
  lemma EtcdPhasesSplit(nodes: seq<Node>, want: Cluster, i: nat)
    requires DistinctAddresses(nodes) && i < |nodes|
    ensures var plan, m := DeployPlan(nodes, want), |EtcdPhases(nodes[..i], want)|;
            m <= |EtcdPhases(nodes, want)| && plan[..m] == EtcdPhases(nodes[..i], want) &&
            forall k :: m <= k < |EtcdPhases(nodes, want)| ==> HostsOf(plan[k]) <= AddressesOf(nodes[i..])
  {
    var a, b := EtcdPhases(nodes[..i], want), EtcdPhases(nodes[i..], want);
    assert nodes == nodes[..i] + nodes[i..];
    EtcdPhasesConcat(nodes[..i], nodes[i..], want);
    forall k | |a| <= k < |a| + |b| ensures HostsOf(DeployPlan(nodes, want)[k]) <= AddressesOf(nodes[i..]) {
      EtcdPhaseHosts(nodes[i..], want, k - |a|);
    }
  }

  /** Those phases run etcd on the earlier nodes and do nothing on node `i`. */
  lemma EtcdPartsBefore(nodes: seq<Node>, want: Cluster, i: nat, j: nat)
    requires DistinctAddresses(nodes) && j < i < |nodes| && nodes[j].roles.etcd
    ensures var before := EtcdPhases(nodes[..i], want);
            Flat(before, nodes[i].address) == [] && Mentions(Flat(before, nodes[j].address), ETCD)
  {
    var h := nodes[j].address;
    assert nodes[..i][j] == nodes[j];
    EtcdFlat(nodes[..i], want, h);
    EtcdFlat(nodes[..i], want, nodes[i].address);
    EtcdNamed(want(h), ETCD);
  }

  lemma EtcdNotAgain(nodes: seq<Node>, want: Cluster, i: nat, j: nat, k: nat)
    requires DistinctAddresses(nodes) && j < i < |nodes|
    requires |EtcdPhases(nodes[..i], want)| <= k < |DeployPlan(nodes, want)|
    ensures !Mentions(OpsOf(DeployPlan(nodes, want)[k], nodes[j].address), ETCD)
  {
    var plan, n, h := DeployPlan(nodes, want), |EtcdPhases(nodes, want)|, nodes[j].address;
    if k < n {
      EtcdPhasesSplit(nodes, want, i);
      assert h !in AddressesOf(nodes[i..]);
      OpsOfAbsent(plan[k], h);
    } else {
      DeployParts(nodes, want, j);
      NotNamedLater(plan, n, h, nodes[j].roles, want(h), k, ETCD);
    }
  }

  /** etcd.go:21-31: etcd comes to the nodes one after another, in the order of the list. */
  lemma EtcdInOrder(nodes: seq<Node>, want: Cluster, ds: map<string, Daemon>, ws: seq<World>, k: nat, i: nat, j: nat)
    requires Deploying(nodes, want, ds, ws) && k < |ws| && Arrived(nodes, ds, ws[k], i, ETCD)
    requires j < i && nodes[j].roles.etcd
    ensures RunsOn(nodes, ws[k], j, ETCD)
  {
    var plan, m, h := DeployPlan(nodes, want), |EtcdPhases(nodes[..i], want)|, nodes[j].address;
    AlwaysConfined(plan, ds, ws, k);
    EtcdPhasesSplit(nodes, want, i);
    EtcdPartsBefore(nodes, want, i, j);
    PhaseOf(nodes, want, ds, ws[k], i, ETCD, m);
    MentionedLater(plan, m, ws[k].phase, h, ETCD);
    EtcdNotAgain(nodes, want, i, j, ws[k].phase);
    NodeRuns(nodes, want, j, ETCD);
    RunsSince(plan, ds, ws[k], h, want(h), ETCD);
  }

  lemma KubeletApart(s: string)
    requires s in {KUBELET, KUBE_PROXY}
    ensures s != ETCD && s !in {NGINX_PROXY, SIDEKICK, KUBE_API, KUBE_CONTROLLER, SCHEDULER}
  {
  }

  lemma NothingNamed(s: string)
    ensures !Mentions([], s)
  {
  }

  lemma KubeletNotNamedEarly(plan: Plan, n: nat, h: string, r: Roles, want: Wanted, s: string)
    requires Parts(plan, n, h, r, want) && s in {KUBELET, KUBE_PROXY}
    ensures !Mentions(Flat(plan[..n + 1], h), s)
    ensures !r.etcd ==> !Mentions(Flat(plan[..n + 2], h), s)
    ensures !r.etcd && !r.control ==> !Mentions(Flat(plan[..n + 3], h), s)
  {
    PrefixParts(plan, n, h, r, want);
    KubeletApart(s);
    NothingNamed(s);
    EtcdNamed(want, s);
    assert !Mentions(OpsOf(plan[n], h), s) by {
      if Mentions(OpsOf(plan[n], h), s) { ControlNamed(r, want, s); }
    }
    MentionsConcat(Flat(plan[..n], h), OpsOf(plan[n], h), s);
    MentionsConcat(Flat(plan[..n + 1], h), OpsOf(plan[n + 1], h), s);
    MentionsConcat(Flat(plan[..n + 2], h), OpsOf(plan[n + 2], h), s);
  }

  /** Before `kubelet` or `kube-proxy` comes to any node, the three masters run on every control node. */
  lemma MastersFirst(nodes: seq<Node>, want: Cluster, ds: map<string, Daemon>, ws: seq<World>, k: nat, i: nat,
                     s: string, j: nat, m: string)
    requires Deploying(nodes, want, ds, ws) && k < |ws| && Arrived(nodes, ds, ws[k], i, s)
    requires s in {KUBELET, KUBE_PROXY} && m in {KUBE_API, KUBE_CONTROLLER, SCHEDULER}
    requires j < |nodes| && nodes[j].roles.control
    ensures RunsOn(nodes, ws[k], j, m)
  {
    var plan, n, h := DeployPlan(nodes, want), |EtcdPhases(nodes, want)|, nodes[j].address;
    AlwaysConfined(plan, ds, ws, k);
    DeployParts(nodes, want, i);
    DeployParts(nodes, want, j);
    KubeletNotNamedEarly(plan, n, nodes[i].address, nodes[i].roles, want(nodes[i].address), s);
    PhaseOf(nodes, want, ds, ws[k], i, s, n + 1);
    PrefixParts(plan, n, h, nodes[j].roles, want(h));
    ControlMentions(nodes[j].roles, want(h));
    MentionsConcat(Flat(plan[..n], h), OpsOf(plan[n], h), m);
    MentionedLater(plan, n + 1, ws[k].phase, h, m);
    NotNamedLater(plan, n, h, nodes[j].roles, want(h), ws[k].phase, m);
    NodeRuns(nodes, want, j, m);
    RunsSince(plan, ds, ws[k], h, want(h), m);
  }

  /** A run that is in phase `m` or later has been at the end of the phases before it. */
  lemma {:induction false} WasThere(plan: Plan, ds: map<string, Daemon>, ws: seq<World>, k: nat, m: nat)
    requires IsRun(plan, ds, ws) && k < |ws| && m <= ws[k].phase
    ensures m <= |plan| && Sequential(plan, m, ds).1
    ensures exists l :: 0 <= l <= k && ws[l].daemons == Sequential(plan, m, ds).0
  {
    EveryRunStaysOnCourse(plan, ds, ws, k);
    if k == 0 {
      assert ws[0].daemons == Sequential(plan, 0, ds).0;
    } else {
      EveryRunStaysOnCourse(plan, ds, ws, k - 1);
      assert Next(plan, ws[k - 1], ws[k - 1 + 1]);
      if m <= ws[k - 1].phase {
        WasThere(plan, ds, ws, k - 1, m);
      } else {
        assert Barrier(plan, ws[k - 1], ws[k]);
        PhaseEnd(plan, ds, ws[k - 1]);
      }
    }
  }

  lemma KubeletNamedByThen(plan: Plan, n: nat, h: string, r: Roles, want: Wanted, s: string)
    requires Parts(plan, n, h, r, want) && s in {KUBELET, KUBE_PROXY}
    ensures r.etcd ==> Mentions(Flat(plan[..n + 2], h), s)
    ensures r.etcd || r.control ==> Mentions(Flat(plan[..n + 3], h), s)
  {
    PrefixParts(plan, n, h, r, want);
    WorkerMentions(r, want);
    MentionsConcat(Flat(plan[..n + 1], h), OpsOf(plan[n + 1], h), s);
    MentionsConcat(Flat(plan[..n + 2], h), OpsOf(plan[n + 2], h), s);
  }

  /** If the first `m` phases run `t` on node `j` and do not name `s` on node `i`, then `t` has run on node `j`
      before `s` comes to node `i`. */
  lemma RanBefore(nodes: seq<Node>, want: Cluster, ds: map<string, Daemon>, ws: seq<World>, k: nat, i: nat, s: string,
                  j: nat, t: string, m: nat)
    requires Deploying(nodes, want, ds, ws) && k < |ws| && Arrived(nodes, ds, ws[k], i, s)
    requires j < |nodes| && m <= |DeployPlan(nodes, want)| && t in SERVICES && t !in {NGINX_PROXY, SIDEKICK}
    requires !Mentions(Flat(DeployPlan(nodes, want)[..m], nodes[i].address), s)
    requires Mentions(Flat(DeployPlan(nodes, want)[..m], nodes[j].address), t)
    ensures exists l :: 0 <= l <= k && RunsOn(nodes, ws[l], j, t)
  {
    var plan, h := DeployPlan(nodes, want), nodes[j].address;
    AlwaysConfined(plan, ds, ws, k);
    PhaseOf(nodes, want, ds, ws[k], i, s, m);
    WasThere(plan, ds, ws, k, m);
    NodeRuns(nodes, want, j, t);
    RunsThen(plan, m, ds, h, want(h), t);
    var l :| 0 <= l <= k && ws[l].daemons == Sequential(plan, m, ds).0;
    assert RunsOn(nodes, ws[l], j, t);
  }

  /** workerplane.go:21-54: `kubelet` and `kube-proxy` come to the etcd nodes first, then to the control nodes and
      last to those that are only workers: before one of them comes to a node, each has run on every node of an
      earlier group. */
  lemma WorkersInOrder(nodes: seq<Node>, want: Cluster, ds: map<string, Daemon>, ws: seq<World>, k: nat, i: nat,
                       s: string, j: nat, t: string)
    requires Deploying(nodes, want, ds, ws) && k < |ws| && Arrived(nodes, ds, ws[k], i, s)
    requires s in {KUBELET, KUBE_PROXY} && t in {KUBELET, KUBE_PROXY} && j < |nodes| && !nodes[i].roles.etcd
    requires nodes[j].roles.etcd || (nodes[j].roles.control && !nodes[i].roles.control)
    ensures exists l :: 0 <= l <= k && RunsOn(nodes, ws[l], j, t)
  {
    var plan, n := DeployPlan(nodes, want), |EtcdPhases(nodes, want)|;
    var a, b := nodes[i], nodes[j];
    DeployParts(nodes, want, i);
    DeployParts(nodes, want, j);
    KubeletNotNamedEarly(plan, n, a.address, a.roles, want(a.address), s);
    KubeletNamedByThen(plan, n, b.address, b.roles, want(b.address), t);
    RanBefore(nodes, want, ds, ws, k, i, s, j, t, if b.roles.etcd then n + 2 else n + 3);
  }
}
