/** The etcd phase of a reconcile as a whole (cluster/reconcile.go:149-203, services/etcd.go:167-193):
    removals, then for each new host an add, a reload of the ready containers and a health gate. */
module EtcdReconcile {
  import opened Text
  import opened Docker
  import opened Services
  import opened Membership

  /** What the phase sees of a wanted etcd host. */
  datatype EtcdHost = EtcdHost(peer: Peer, toAdd: bool, existing: bool, daemon: Daemon)

  /** etcd.go:63-104 as a function of the host, its cluster state flag and the member list. */
  type Builder = (Peer, bool, string) -> Config

  function PeerUrl(address: string): string { "https://" + address + ":2380" }

  function MemberName(p: Peer): string { "etcd-" + p.name }

  function MemberNames(ps: seq<Peer>): (r: seq<string>)
    ensures |r| == |ps| && forall i :: 0 <= i < |ps| ==> r[i] == MemberName(ps[i])
  {
    seq(|ps|, i requires 0 <= i < |ps| => MemberName(ps[i]))
  }

  // ---------------------------------------------------------------- reloading

  /** Positions of the hosts that are members already. */
  function Ready(hs: seq<EtcdHost>): (r: seq<nat>)
    ensures forall i :: 0 <= i < |r| ==> r[i] < |hs|
  {
    if hs == [] then []
    else
      var n := |hs| - 1;
      if hs[n].toAdd then Ready(hs[..n]) else Ready(hs[..n]) + [n]
  }

  function PeersAt(hs: seq<EtcdHost>, at: seq<nat>): (r: seq<Peer>)
    requires forall i :: 0 <= i < |at| ==> at[i] < |hs|
    ensures |r| == |at| && forall i :: 0 <= i < |r| ==> r[i] == hs[at[i]].peer
  {
    seq(|at|, i requires 0 <= i < |at| => hs[at[i]].peer)
  }

  /** The members a reload announces, in configuration order. */
  function ReadyPeers(hs: seq<EtcdHost>): seq<Peer> { PeersAt(hs, Ready(hs)) }

  function MarkReady(hs: seq<EtcdHost>): (r: seq<EtcdHost>)
    ensures |r| == |hs|
    ensures forall i :: 0 <= i < |hs| ==> r[i] == if hs[i].toAdd then hs[i] else hs[i].(existing := true)
  {
    seq(|hs|, i requires 0 <= i < |hs| => if hs[i].toAdd then hs[i] else hs[i].(existing := true))
  }

  function ConfigFor(h: EtcdHost, build: Builder, cluster: string): Config { build(h.peer, h.existing, cluster) }

  /** Run the etcd container on the listed hosts, up to the first error. */
  function RunEtcds(hs: seq<EtcdHost>, at: seq<nat>, build: Builder, cluster: string): (r: (seq<EtcdHost>, bool))
    requires forall i :: 0 <= i < |at| ==> at[i] < |hs|
    ensures |r.0| == |hs|
    decreases |at|
  {
    if at == [] then (hs, true)
    else
      var (d, ok) := RunContainer(hs[at[0]].daemon, ETCD, ConfigFor(hs[at[0]], build, cluster));
      var hs' := hs[at[0] := hs[at[0]].(daemon := d)];
      if ok then RunEtcds(hs', at[1..], build, cluster) else (hs', false)
  }

  datatype State = State(hosts: seq<EtcdHost>, etcd: Etcd)

  /** etcd.go:167-193 */
  function Reload(s: State, build: Builder): (r: (State, bool))
    ensures |r.0.hosts| == |s.hosts|
  {
    var hs, peers := MarkReady(s.hosts), ReadyPeers(s.hosts);
    var e := s.etcd.Pass(Reloading(peers));
    var (hs', ran) := RunEtcds(hs, Ready(s.hosts), build, InitialCluster(peers));
    if !ran then (State(hs', e), false)
    else
      var (e', healthy) := AnyHealthy(e, |Ready(s.hosts)|);
      (State(hs', e'), healthy)
  }

  // ---------------------------------------------------------------- adding

  /** reconcile.go:189-202 for the host at position `i`: certificates, member, flag, reload. */
  function AddHost(s: State, i: nat, build: Builder): (r: (State, bool))
    requires i < |s.hosts|
    ensures |r.0.hosts| == |s.hosts|
  {
    var e := s.etcd.Pass(Called);
    if !s.etcd.Answers() then (s.(etcd := e), false)
    else
      var (e', added) := AddMember(e, |s.hosts|, PeerUrl(s.hosts[i].peer.address));
      if !added then (s.(etcd := e'), false)
      else Reload(State(s.hosts[i := s.hosts[i].(toAdd := false)], e'), build)
  }

  function AddHosts(s: State, todo: seq<nat>, build: Builder): (r: (State, bool))
    requires forall k :: 0 <= k < |todo| ==> todo[k] < |s.hosts|
    ensures |r.0.hosts| == |s.hosts|
    decreases |todo|
  {
    if todo == [] then (s, true)
    else
      var (s', ok) := AddHost(s, todo[0], build);
      if ok then AddHosts(s', todo[1..], build) else (s', false)
  }

  // ---------------------------------------------------------------- removing

  /** reconcile.go:155-160: a removal that fails is logged and skipped. */
  function RemoveHosts(e: Etcd, names: seq<string>, endpoints: nat): Etcd
    decreases |names|
  {
    if names == [] then e
    else RemoveHosts(RemoveMember(e, endpoints, names[0], NoId).0, names[1..], endpoints)
  }

  function ReconcileEtcd(s: State, gone: seq<string>, todo: seq<nat>, build: Builder): (State, bool)
    requires forall k :: 0 <= k < |todo| ==> todo[k] < |s.hosts|
  {
    AddHosts(s.(etcd := RemoveHosts(s.etcd, gone, |s.hosts|)), todo, build)
  }

  // ---------------------------------------------------------------- one member at a time

  lemma ReloadContinues(s: State, build: Builder)
    ensures var r := Reload(s, build).0; Continues(s.etcd, r.etcd) && r.etcd.members == s.etcd.members
  {
    var e := s.etcd.Pass(Reloading(ReadyPeers(s.hosts)));
    PassContinues(s.etcd, Reloading(ReadyPeers(s.hosts)));
    AnyHealthyContinues(e, |Ready(s.hosts)|);
    ContinuesTransitive(s.etcd, e, AnyHealthy(e, |Ready(s.hosts)|).0);
  }

  lemma AddHostContinues(s: State, i: nat, build: Builder)
    requires i < |s.hosts|
    ensures Continues(s.etcd, AddHost(s, i, build).0.etcd)
  {
    var e := s.etcd.Pass(Called);
    PassContinues(s.etcd, Called);
    if s.etcd.Answers() {
      AddContinues(e, |s.hosts|, PeerUrl(s.hosts[i].peer.address));
      var (e', added) := AddMember(e, |s.hosts|, PeerUrl(s.hosts[i].peer.address));
      ContinuesTransitive(s.etcd, e, e');
      if added {
        var t := State(s.hosts[i := s.hosts[i].(toAdd := false)], e');
        ReloadContinues(t, build);
        ContinuesTransitive(s.etcd, e', Reload(t, build).0.etcd);
      }
    }
  }

  lemma {:induction false} AddHostsContinue(s: State, todo: seq<nat>, build: Builder)
    requires forall k :: 0 <= k < |todo| ==> todo[k] < |s.hosts|
    ensures Continues(s.etcd, AddHosts(s, todo, build).0.etcd)
    decreases |todo|
  {
    if todo == [] {
    } else {
      AddHostContinues(s, todo[0], build);
      var (s', ok) := AddHost(s, todo[0], build);
      if ok {
        AddHostsContinue(s', todo[1..], build);
        ContinuesTransitive(s.etcd, s'.etcd, AddHosts(s', todo[1..], build).0.etcd);
      }
    }
  }

  lemma {:induction false} RemoveHostsContinue(e: Etcd, names: seq<string>, endpoints: nat)
    ensures Continues(e, RemoveHosts(e, names, endpoints))
    decreases |names|
  {
    if names != [] {
      RemoveContinues(e, endpoints, names[0], NoId);
      var e' := RemoveMember(e, endpoints, names[0], NoId).0;
      RemoveHostsContinue(e', names[1..], endpoints);
      ContinuesTransitive(e, e', RemoveHosts(e', names[1..], endpoints));
    }
  }

  lemma ReconcileContinues(s: State, gone: seq<string>, todo: seq<nat>, build: Builder)
    requires forall k :: 0 <= k < |todo| ==> todo[k] < |s.hosts|
    ensures Continues(s.etcd, ReconcileEtcd(s, gone, todo, build).0.etcd)
  {
    var e := RemoveHosts(s.etcd, gone, |s.hosts|);
    RemoveHostsContinue(s.etcd, gone, |s.hosts|);
    AddHostsContinue(s.(etcd := e), todo, build);
    ContinuesTransitive(s.etcd, e, ReconcileEtcd(s, gone, todo, build).0.etcd);
  }

  /** Over a whole reconcile every entry tells the answer to its call: a health check counts as successful
      exactly when its answer is good, and members change only on a good answer. */
  lemma LogTellsAnswers(s: State, gone: seq<string>, todo: seq<nat>, build: Builder, k: nat)
    requires forall k :: 0 <= k < |todo| ==> todo[k] < |s.hosts|
    requires |s.etcd.log| <= k < |ReconcileEtcd(s, gone, todo, build).0.etcd.log|
    ensures var log := ReconcileEtcd(s, gone, todo, build).0.etcd.log;
            var reply := s.etcd.replies(s.etcd.calls + k - |s.etcd.log|);
            (log[k].event.Probed? ==> (log[k].event.healthy <==> reply == Good)) &&
            (log[k].event.Added? || log[k].event.Removed? ==> reply == Good)
  {
    ReconcileContinues(s, gone, todo, build);
  }

  /** At every call of every etcd reconcile, any majority of the members before it and any majority
      of the members after it have a member in common. */
  lemma ReconcileKeepsQuorums(s: State, gone: seq<string>, todo: seq<nat>, build: Builder, k: nat, q: set<nat>,
                              r: set<nat>)
    requires forall k :: 0 <= k < |todo| ==> todo[k] < |s.hosts|
    requires s.etcd.Valid()
    requires var log := ReconcileEtcd(s, gone, todo, build).0.etcd.log;
             |s.etcd.log| <= k < |log| &&
             Majority(q, Ids(Before(log, |s.etcd.log|, s.etcd.members, k))) && Majority(r, Ids(log[k].members))
    ensures q * r != {}
  {
    var out := ReconcileEtcd(s, gone, todo, build).0.etcd;
    ReconcileContinues(s, gone, todo, build);
    QuorumsMeet(Before(out.log, |s.etcd.log|, s.etcd.members, k), out.log[k].members, q, r);
  }

  // ---------------------------------------------------------------- the health gate

  lemma ReloadGate(s: State, build: Builder, from: nat)
    requires from <= |s.etcd.log| && Gated(s.etcd.log, from)
    ensures var (r, ok) := Reload(s, build); Gated(r.etcd.log, from) && (ok ==> Open(r.etcd.log, from))
  {
    var note := Note(Reloading(ReadyPeers(s.hosts)), s.etcd.members);
    GateStep(s.etcd.log, from, note);
    AnyHealthyGate(s.etcd.Pass(note.event), |Ready(s.hosts)|, from);
  }

  lemma AddHostGate(s: State, i: nat, build: Builder, from: nat)
    requires i < |s.hosts| && from <= |s.etcd.log| && Gated(s.etcd.log, from) && Open(s.etcd.log, from)
    ensures var (r, ok) := AddHost(s, i, build); Gated(r.etcd.log, from) && (ok ==> Open(r.etcd.log, from))
  {
    GateStep(s.etcd.log, from, Note(Called, s.etcd.members));
    if s.etcd.Answers() {
      var e := s.etcd.Pass(Called);
      AddGate(e, |s.hosts|, PeerUrl(s.hosts[i].peer.address), from);
      var (e', added) := AddMember(e, |s.hosts|, PeerUrl(s.hosts[i].peer.address));
      AddContinues(e, |s.hosts|, PeerUrl(s.hosts[i].peer.address));
      if added { ReloadGate(State(s.hosts[i := s.hosts[i].(toAdd := false)], e'), build, from); }
    }
  }

  lemma {:induction false} AddHostsGate(s: State, todo: seq<nat>, build: Builder, from: nat)
    requires forall k :: 0 <= k < |todo| ==> todo[k] < |s.hosts|
    requires from <= |s.etcd.log| && Gated(s.etcd.log, from) && Open(s.etcd.log, from)
    ensures Gated(AddHosts(s, todo, build).0.etcd.log, from)
    decreases |todo|
  {
    if todo != [] {
      AddHostGate(s, todo[0], build, from);
      AddHostContinues(s, todo[0], build);
      var (s', ok) := AddHost(s, todo[0], build);
      if ok { AddHostsGate(s', todo[1..], build, from); }
    }
  }

  lemma {:induction false} RemoveHostsGate(e: Etcd, names: seq<string>, endpoints: nat, from: nat)
    requires from <= |e.log| && Gated(e.log, from) && Open(e.log, from)
    ensures var r := RemoveHosts(e, names, endpoints); |e.log| <= |r.log| && Gated(r.log, from) && Open(r.log, from)
    decreases |names|
  {
    if names != [] {
      RemoveGate(e, endpoints, names[0], NoId, from);
      RemoveContinues(e, endpoints, names[0], NoId);
      RemoveHostsGate(RemoveMember(e, endpoints, names[0], NoId).0, names[1..], endpoints, from);
    }
  }

  /** In every etcd reconcile, once a member was added, no further add is even attempted before a
      health check has succeeded. */
  lemma AddsWaitForHealth(s: State, gone: seq<string>, todo: seq<nat>, build: Builder)
    requires forall k :: 0 <= k < |todo| ==> todo[k] < |s.hosts|
    ensures Gated(ReconcileEtcd(s, gone, todo, build).0.etcd.log, |s.etcd.log|)
  {
    RemoveHostsGate(s.etcd, gone, |s.hosts|, |s.etcd.log|);
    AddHostsGate(s.(etcd := RemoveHosts(s.etcd, gone, |s.hosts|)), todo, build, |s.etcd.log|);
  }

  // ---------------------------------------------------------------- kept members

  lemma {:induction false} AddHostsKeep(s: State, todo: seq<nat>, build: Builder, m: Member)
    requires forall k :: 0 <= k < |todo| ==> todo[k] < |s.hosts|
    requires m in s.etcd.members
    ensures KeepsMember(s.etcd, AddHosts(s, todo, build).0.etcd, m)
    decreases |todo|
  {
    if todo != [] {
      AddHostKeeps(s, todo[0], build, m);
      var (s', ok) := AddHost(s, todo[0], build);
      if ok {
        AddHostsKeep(s', todo[1..], build, m);
        KeepsTransitive(s.etcd, s'.etcd, AddHosts(s', todo[1..], build).0.etcd, m);
      }
    }
  }

  lemma AddHostKeeps(s: State, i: nat, build: Builder, m: Member)
    requires i < |s.hosts| && m in s.etcd.members
    ensures KeepsMember(s.etcd, AddHost(s, i, build).0.etcd, m)
  {
    var e := s.etcd.Pass(Called);
    assert KeepsMember(s.etcd, e, m);
    if s.etcd.Answers() {
      AddKeeps(e, |s.hosts|, PeerUrl(s.hosts[i].peer.address), m);
      var (e', added) := AddMember(e, |s.hosts|, PeerUrl(s.hosts[i].peer.address));
      KeepsTransitive(s.etcd, e, e', m);
      if added {
        var t := State(s.hosts[i := s.hosts[i].(toAdd := false)], e');
        var f := e'.Pass(Reloading(ReadyPeers(t.hosts)));
        assert KeepsMember(e', f, m);
        AnyHealthyKeeps(f, |Ready(t.hosts)|, m);
        KeepsTransitive(s.etcd, e', f, m);
        KeepsTransitive(s.etcd, f, AnyHealthy(f, |Ready(t.hosts)|).0, m);
      }
    }
  }

  lemma {:induction false} RemoveHostsKeep(e: Etcd, names: seq<string>, endpoints: nat, m: Member)
    requires e.Valid() && m in e.members && m.name !in names
    ensures KeepsMember(e, RemoveHosts(e, names, endpoints), m)
    decreases |names|
  {
    if names != [] {
      RemoveKeeps(e, endpoints, names[0], NoId, m);
      RemoveContinues(e, endpoints, names[0], NoId);
      var e' := RemoveMember(e, endpoints, names[0], NoId).0;
      RemoveHostsKeep(e', names[1..], endpoints, m);
      KeepsTransitive(e, e', RemoveHosts(e', names[1..], endpoints), m);
    }
  }

  /** A member whose host is not being removed is in the member list after every call. */
  lemma KeptMembersStay(s: State, gone: seq<string>, todo: seq<nat>, build: Builder, m: Member)
    requires forall k :: 0 <= k < |todo| ==> todo[k] < |s.hosts|
    requires s.etcd.Valid() && m in s.etcd.members && m.name !in gone
    ensures KeepsMember(s.etcd, ReconcileEtcd(s, gone, todo, build).0.etcd, m)
  {
    RemoveHostsKeep(s.etcd, gone, |s.hosts|, m);
    var e := RemoveHosts(s.etcd, gone, |s.hosts|);
    AddHostsKeep(s.(etcd := e), todo, build, m);
    KeepsTransitive(s.etcd, e, ReconcileEtcd(s, gone, todo, build).0.etcd, m);
  }
}
