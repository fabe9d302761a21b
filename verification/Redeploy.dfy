/** The planes on hosts in any state, not only on bare ones: what a successful deployment leaves there, what
    holds at every call, and that it succeeds when nothing fails (services/controlplane.go:69-89,
    services/workerplane.go:86-108, services/etcd.go:19-33). */
module Redeploy {
  import opened Docker
  import opened Planes
  import opened Services
  import opened Deploy
  import opened Lifecycle
  import opened Quiet

  // ---------------------------------------------------------------- after success

  lemma KeysAfter(op: Op, d: Daemon, want: Wanted)
    requires Proper(op, want) && Exec(op, op.start, d).1
    ensures Exec(op, op.start, d).0.containers.Keys == Effect(op, d.containers.Keys)
  {
    if op.start == InspectRemove {
      RemoveOutcome(d, op.name);
    } else if op.start == ListAll {
      SidekickOutcome(d, op.name, op.cfg.image);
    } else {
      RunOutcome(d, op.name, op.cfg, op.probe);
    }
  }

  /** The names on a host after a successful list of operations follow from the names before. */
  lemma {:induction false} KeysAll(ops: seq<Op>, d: Daemon, want: Wanted)
    requires AllProper(ops, want) && ExecAll(ops, d).1
    ensures ExecAll(ops, d).0.containers.Keys == EffectAll(ops, d.containers.Keys)
  {
    if ops != [] {
      KeysAfter(ops[0], d, want);
      KeysAll(ops[1..], Exec(ops[0], ops[0].start, d).0, want);
    }
  }

  predicate Runs(cs: Containers, s: string) { s in cs && cs[s].running }

  /** Running a service leaves it running; an operation on another one leaves it so. */
  lemma RunsAfter(op: Op, d: Daemon, want: Wanted, s: string)
    requires Proper(op, want) && Exec(op, op.start, d).1 && s in SERVICES
    requires if op.name == s then op.start == Inspect else Runs(d.containers, s)
    ensures Runs(Exec(op, op.start, d).0.containers, s)
  {
    if op.start == InspectRemove {
      RemoveOutcome(d, op.name);
    } else if op.start == ListAll {
      SidekickOutcome(d, op.name, op.cfg.image);
    } else {
      RunOutcome(d, op.name, op.cfg, op.probe);
    }
  }

  predicate Mentions(ops: seq<Op>, s: string) { exists i :: 0 <= i < |ops| && ops[i].name == s }

  lemma {:induction false} RunsAll(ops: seq<Op>, d: Daemon, want: Wanted, s: string)
    requires AllProper(ops, want) && ExecAll(ops, d).1 && s in SERVICES
    requires forall i :: 0 <= i < |ops| && ops[i].name == s ==> ops[i].start == Inspect
    requires Runs(d.containers, s) || Mentions(ops, s)
    ensures Runs(ExecAll(ops, d).0.containers, s)
  {
    if ops != [] {
      var e := Exec(ops[0], ops[0].start, d).0;
      if ops[0].name == s || Runs(d.containers, s) {
        RunsAfter(ops[0], d, want, s);
      } else {
        var i :| 0 <= i < |ops| && ops[i].name == s;
        assert ops[1..][i - 1].name == s;
      }
      RunsAll(ops[1..], e, want, s);
    }
  }

  /** controlplane.go:69-89 on any host: success leaves the sidekick and the three masters, the masters
      running, and takes `nginx-proxy` away from a worker; no other name comes or goes. */
  lemma ControlDeployed(r: Roles, want: Wanted, d: Daemon)
    requires ExecAll(ControlOps(r, want), d).1
    ensures var cs := ExecAll(ControlOps(r, want), d).0.containers;
            cs.Keys == d.containers.Keys - (if r.worker then {NGINX_PROXY} else {})
                       + {SIDEKICK, KUBE_API, KUBE_CONTROLLER, SCHEDULER} &&
            Runs(cs, KUBE_API) && Runs(cs, KUBE_CONTROLLER) && Runs(cs, SCHEDULER)
  {
    ControlEffect(r, want, d.containers.Keys);
    KeysAll(ControlOps(r, want), d, want);
    ControlMentions(r, want);
    RunsAll(ControlOps(r, want), d, want, KUBE_API);
    RunsAll(ControlOps(r, want), d, want, KUBE_CONTROLLER);
    RunsAll(ControlOps(r, want), d, want, SCHEDULER);
  }

  lemma ControlMentions(r: Roles, want: Wanted)
    ensures var ops := ControlOps(r, want);
            (forall s :: s in {KUBE_API, KUBE_CONTROLLER, SCHEDULER} ==> Mentions(ops, s)) &&
            forall i :: 0 <= i < |ops| && ops[i].name in {KUBE_API, KUBE_CONTROLLER, SCHEDULER} ==>
              ops[i].start == Inspect
  {
    var ops := ControlOps(r, want);
    var k := if r.worker then 2 else 1;
    assert ops[k].name == KUBE_API && ops[k + 1].name == KUBE_CONTROLLER && ops[k + 2].name == SCHEDULER;
  }

  /** workerplane.go:86-108 on any host: success leaves the sidekick, `kubelet` and `kube-proxy`, and
      `nginx-proxy` unless the host is a control host; no other name comes or goes. */
  lemma WorkerDeployed(r: Roles, want: Wanted, d: Daemon)
    requires ExecAll(WorkerOps(r, want), d).1
    ensures var cs := ExecAll(WorkerOps(r, want), d).0.containers;
            cs.Keys == d.containers.Keys + (if r.control then {} else {NGINX_PROXY})
                       + {SIDEKICK, KUBELET, KUBE_PROXY} &&
            Runs(cs, KUBELET) && Runs(cs, KUBE_PROXY) && (!r.control ==> Runs(cs, NGINX_PROXY))
  {
    WorkerEffect(r, want, d.containers.Keys);
    KeysAll(WorkerOps(r, want), d, want);
    WorkerMentions(r, want);
    RunsAll(WorkerOps(r, want), d, want, KUBELET);
    RunsAll(WorkerOps(r, want), d, want, KUBE_PROXY);
    if !r.control { RunsAll(WorkerOps(r, want), d, want, NGINX_PROXY); }
  }

  lemma WorkerMentions(r: Roles, want: Wanted)
    ensures var ops := WorkerOps(r, want);
            Mentions(ops, KUBELET) && Mentions(ops, KUBE_PROXY) && (!r.control ==> Mentions(ops, NGINX_PROXY)) &&
            forall i :: 0 <= i < |ops| && ops[i].name in {KUBELET, KUBE_PROXY, NGINX_PROXY} ==> ops[i].start == Inspect
  {
    var ops := WorkerOps(r, want);
    var k := if r.control then 1 else 2;
    assert ops[k].name == KUBELET && ops[k + 1].name == KUBE_PROXY && (!r.control ==> ops[0].name == NGINX_PROXY);
  }

  // ---------------------------------------------------------------- at every call

  /** A goroutine on its own after at most `n` calls. */
  function TaskAfter(t: Task, d: Daemon, n: nat): (Task, Daemon)
    requires t.Valid()
    decreases n
  {
    if n == 0 || !t.Running? then (t, d)
    else
      var (t', d') := TaskStep(t, d);
      TaskAfter(t', d', n - 1)
  }

  /** The control deployment of a worker host: until the proxy is removed there is no API server, and from
      then on there is no proxy. */
  predicate Parted(want: Wanted, t: Task, cs: Containers) {
    t.Valid() && !(KUBE_API in cs && NGINX_PROXY in cs) &&
    (t.Running? ==>
       (t.ops[0] == RemoveOp(NGINX_PROXY) && t.ops[1..] == Masters(want) &&
        t.pc in {InspectRemove, StopRemove, DeleteStopped} &&
        KUBE_API !in cs) ||
       (NoProxy(t.ops) && NGINX_PROXY !in cs))
  }

  function Masters(want: Wanted): seq<Op> { [SidekickOp(SIDEKICK, want(SIDEKICK).image)] + MasterOps(want) }

  predicate NoProxy(ops: seq<Op>) {
    forall i :: 0 <= i < |ops| ==> ops[i].name in SERVICES && ops[i].name != NGINX_PROXY
  }

  lemma NoProxyMasters(want: Wanted)
    ensures NoProxy(Masters(want))
  {
  }

  /** Removing the proxy never brings in the API server, and its success means that the proxy is gone. */
  lemma RemovalStep(pc: Pc, d: Daemon)
    requires pc in {InspectRemove, StopRemove, DeleteStopped} && KUBE_API !in d.containers
    ensures var (pc', d') := Step(RemoveOp(NGINX_PROXY), pc, d);
            KUBE_API !in d'.containers && (pc'.Done? || pc' in {InspectRemove, StopRemove, DeleteStopped}) &&
            (pc' == Done(true) ==> NGINX_PROXY !in d'.containers)
  {
    StepNames(RemoveOp(NGINX_PROXY), pc, d);
  }

  lemma NoProxyStep(op: Op, pc: Pc, d: Daemon)
    requires op.name in SERVICES && op.name != NGINX_PROXY && NGINX_PROXY !in d.containers && !pc.Done?
    ensures NGINX_PROXY !in Step(op, pc, d).1.containers
  {
    StepNames(op, pc, d);
    OldNamesAreNotServices(op.name);
  }

  lemma {:induction false} BeginNoProxy(ops: seq<Op>)
    requires NoProxy(ops)
    ensures Begin(ops).Running? ==> NoProxy(Begin(ops).ops)
    decreases |ops|, 1
  {
    if ops != [] { AdvanceNoProxy(ops, ops[0].start); }
  }

  lemma {:induction false} AdvanceNoProxy(ops: seq<Op>, pc: Pc)
    requires ops != [] && NoProxy(ops[1..]) && (!pc.Done? ==> NoProxy(ops))
    ensures Advance(ops, pc).Running? ==> NoProxy(Advance(ops, pc).ops)
    decreases |ops|, 0
  {
    if pc.Done? && pc.ok { BeginNoProxy(ops[1..]); }
  }

  lemma PartedStep(want: Wanted, t: Task, d: Daemon)
    requires t.Running? && Parted(want, t, d.containers)
    ensures var (t', d') := TaskStep(t, d); Parted(want, t', d'.containers)
  {
    var (pc, d') := Step(t.ops[0], t.pc, d);
    NoProxyMasters(want);
    if t.ops[0] == RemoveOp(NGINX_PROXY) {
      RemovalStep(t.pc, d);
      if pc.Done? { AdvanceNoProxy(t.ops, pc); }
    } else {
      NoProxyStep(t.ops[0], t.pc, d);
      AdvanceNoProxy(t.ops, pc);
    }
  }

  lemma {:induction false} PartedAfter(want: Wanted, t: Task, d: Daemon, n: nat)
    requires Parted(want, t, d.containers)
    ensures Parted(want, TaskAfter(t, d, n).0, TaskAfter(t, d, n).1.containers)
    decreases n
  {
    if n > 0 && t.Running? {
      PartedStep(want, t, d);
      PartedAfter(want, TaskStep(t, d).0, TaskStep(t, d).1, n - 1);
    }
  }

  /** controlplane.go:70-74: on a worker host without an API server, whatever else is there, no call of a
      control deployment ever finds API server and proxy together. */
  lemma ControlKeepsApart(r: Roles, want: Wanted, d: Daemon, n: nat)
    requires r.worker && KUBE_API !in d.containers
    ensures var cs := TaskAfter(Begin(ControlOps(r, want)), d, n).1.containers; !(KUBE_API in cs && NGINX_PROXY in cs)
  {
    var ops := ControlOps(r, want);
    assert ops == [RemoveOp(NGINX_PROXY)] + Masters(want);
    assert ops[0] == RemoveOp(NGINX_PROXY) && ops[1..] == Masters(want);
    assert Begin(ops) == Advance(ops, InspectRemove) == Running(ops, InspectRemove);
    PartedAfter(want, Begin(ops), d, n);
  }
}
