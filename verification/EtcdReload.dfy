/** What the reloads of an etcd reconcile announce, and what they leave running
    (services/etcd.go:19-33, services/etcd.go:167-193, cluster/reconcile.go:189-202). */
module EtcdReload {
  import opened Text
  import opened Docker
  import opened Services
  import opened Membership
  import opened EtcdReconcile

  // ---------------------------------------------------------------- ready hosts

  /** Same hosts, same flags; what runs on them may differ. */
  ghost predicate SameFlags(hs: seq<EtcdHost>, hs': seq<EtcdHost>) {
    |hs| == |hs'| && forall i :: 0 <= i < |hs| ==> hs[i].peer == hs'[i].peer && hs[i].toAdd == hs'[i].toAdd
  }

  lemma {:induction false} SameReady(hs: seq<EtcdHost>, hs': seq<EtcdHost>)
    requires SameFlags(hs, hs')
    ensures Ready(hs) == Ready(hs') && ReadyPeers(hs) == ReadyPeers(hs')
  {
    if hs != [] {
      var n := |hs| - 1;
      SameReady(hs[..n], hs'[..n]);
    }
  }

  /** The ready hosts are exactly the unflagged ones, in configuration order. */
  lemma {:induction false} ReadyExactly(hs: seq<EtcdHost>)
    ensures forall i :: i in Ready(hs) <==> 0 <= i < |hs| && !hs[i].toAdd
    ensures forall a, b :: 0 <= a < b < |Ready(hs)| ==> Ready(hs)[a] < Ready(hs)[b]
  {
    if hs != [] {
      var n := |hs| - 1;
      ReadyExactly(hs[..n]);
      var r := Ready(hs[..n]);
      assert forall a :: 0 <= a < |r| ==> r[a] in r;
      assert forall i :: i in r + [n] <==> i in r || i == n;
    }
  }

  /** `hs` after the add flags at these positions were cleared. */
  function Clear(hs: seq<EtcdHost>, at: seq<nat>): (r: seq<EtcdHost>)
    requires forall k :: 0 <= k < |at| ==> at[k] < |hs|
    ensures |r| == |hs|
    decreases |at|
  {
    if at == [] then hs else Clear(hs[at[0] := hs[at[0]].(toAdd := false)], at[1..])
  }

  lemma {:induction false} ClearFlags(hs: seq<EtcdHost>, at: seq<nat>)
    requires forall k :: 0 <= k < |at| ==> at[k] < |hs|
    ensures forall i :: 0 <= i < |hs| ==>
              Clear(hs, at)[i].peer == hs[i].peer && (Clear(hs, at)[i].toAdd <==> hs[i].toAdd && i !in at)
    decreases |at|
  {
    if at != [] {
      ClearFlags(hs[at[0] := hs[at[0]].(toAdd := false)], at[1..]);
      assert at == [at[0]] + at[1..];
    }
  }

  lemma ClearSame(hs: seq<EtcdHost>, hs': seq<EtcdHost>, at: seq<nat>)
    requires SameFlags(hs, hs') && forall k :: 0 <= k < |at| ==> at[k] < |hs|
    ensures SameFlags(Clear(hs, at), Clear(hs', at))
  {
    ClearFlags(hs, at);
    ClearFlags(hs', at);
  }

  // ---------------------------------------------------------------- running the containers

  ghost predicate Increasing(at: seq<nat>, bound: nat) {
    (forall a :: 0 <= a < |at| ==> at[a] < bound) && forall a, b :: 0 <= a < b < |at| ==> at[a] < at[b]
  }

  /** Each listed host got its own successful run, the others nothing. */
  lemma {:induction false} RunEtcdsAt(hs: seq<EtcdHost>, at: seq<nat>, build: Builder, cluster: string, i: nat)
    requires Increasing(at, |hs|) && i < |hs|
    ensures var (r, ok) := RunEtcds(hs, at, build, cluster);
            r[i] == hs[i].(daemon := r[i].daemon) &&
            (i !in at ==> r[i] == hs[i]) &&
            (ok && i in at ==>
              (r[i].daemon, true) == RunContainer(hs[i].daemon, ETCD, ConfigFor(hs[i], build, cluster)))
    decreases |at|
  {
    if at != [] {
      var (d, ok) := RunContainer(hs[at[0]].daemon, ETCD, ConfigFor(hs[at[0]], build, cluster));
      var hs' := hs[at[0] := hs[at[0]].(daemon := d)];
      assert at == [at[0]] + at[1..];
      RunEtcdsAt(hs', at[1..], build, cluster, i);
      if i == at[0] {
        assert i !in at[1..];
      }
    }
  }

  /** The run of the `k`-th listed host. */
  function OwnRun(hs: seq<EtcdHost>, at: seq<nat>, k: nat, build: Builder, cluster: string): (Daemon, bool)
    requires k < |at| && at[k] < |hs|
  {
    RunContainer(hs[at[k]].daemon, ETCD, ConfigFor(hs[at[k]], build, cluster))
  }

  /** The first `n` listed hosts can be run. */
  ghost predicate RunsUpTo(hs: seq<EtcdHost>, at: seq<nat>, n: nat, build: Builder, cluster: string)
    requires Increasing(at, |hs|) && n <= |at|
  {
    forall k :: 0 <= k < n ==> OwnRun(hs, at, k, build, cluster).1
  }

  lemma RunsUpToTail(hs: seq<EtcdHost>, hs': seq<EtcdHost>, at: seq<nat>, n: nat, build: Builder, cluster: string)
    requires Increasing(at, |hs|) && |hs'| == |hs| && 0 < n <= |at| && OwnRun(hs, at, 0, build, cluster).1
    requires forall i :: 0 <= i < |hs| && i != at[0] ==> hs'[i] == hs[i]
    ensures RunsUpTo(hs, at, n, build, cluster) <==> RunsUpTo(hs', at[1..], n - 1, build, cluster)
  {
    forall k | 0 < k < n ensures OwnRun(hs, at, k, build, cluster) == OwnRun(hs', at[1..], k - 1, build, cluster) {
      assert at[0] < at[k];
    }
    if RunsUpTo(hs', at[1..], n - 1, build, cluster) {
      forall k | 0 <= k < n ensures OwnRun(hs, at, k, build, cluster).1 {
        if k > 0 { assert OwnRun(hs', at[1..], k - 1, build, cluster).1; }
      }
    }
    if RunsUpTo(hs, at, n, build, cluster) {
      forall k | 0 <= k < n - 1 ensures OwnRun(hs', at[1..], k, build, cluster).1 {
        assert OwnRun(hs, at, k + 1, build, cluster).1;
      }
    }
  }

  /** etcd.go:21-31: the loop succeeds exactly when every listed host's own run does. */
  lemma {:induction false} RunEtcdsSucceeds(hs: seq<EtcdHost>, at: seq<nat>, build: Builder, cluster: string)
    requires Increasing(at, |hs|)
    ensures RunEtcds(hs, at, build, cluster).1 <==> RunsUpTo(hs, at, |at|, build, cluster)
    decreases |at|
  {
    if at != [] {
      var (d, ok) := OwnRun(hs, at, 0, build, cluster);
      var hs' := hs[at[0] := hs[at[0]].(daemon := d)];
      if ok {
        assert Increasing(at[1..], |hs|);
        RunsUpToTail(hs, hs', at, |at|, build, cluster);
        RunEtcdsSucceeds(hs', at[1..], build, cluster);
      }
    }
  }

  /** etcd.go:21-31 in closed form: a host is run exactly when all before it in the list were; the others are
      left as they are. */
  lemma {:induction false} RunEtcdsExactly(hs: seq<EtcdHost>, at: seq<nat>, build: Builder, cluster: string, k: nat)
    requires Increasing(at, |hs|) && k < |at|
    ensures RunEtcds(hs, at, build, cluster).0[at[k]].daemon ==
              if RunsUpTo(hs, at, k, build, cluster) then OwnRun(hs, at, k, build, cluster).0 else hs[at[k]].daemon
    decreases |at|
  {
    var (d, ok) := OwnRun(hs, at, 0, build, cluster);
    var hs' := hs[at[0] := hs[at[0]].(daemon := d)];
    if ok {
      assert Increasing(at[1..], |hs|);
      if k > 0 {
        assert at[0] < at[k];
        RunsUpToTail(hs, hs', at, k, build, cluster);
        RunEtcdsExactly(hs', at[1..], build, cluster, k - 1);
      } else {
        assert at[0] !in at[1..];
        RunEtcdsAt(hs', at[1..], build, cluster, at[0]);
      }
    }
  }

  lemma ReloadAt(s: State, build: Builder, i: nat)
    requires i < |s.hosts|
    ensures var (r, ok) := Reload(s, build);
            r.hosts[i].peer == s.hosts[i].peer && r.hosts[i].toAdd == s.hosts[i].toAdd &&
            (ok && !s.hosts[i].toAdd ==> r.hosts[i].existing) &&
            (ok && !s.hosts[i].toAdd ==>
               (r.hosts[i].daemon, true) ==
                 RunContainer(s.hosts[i].daemon, ETCD,
                              build(s.hosts[i].peer, true, InitialCluster(ReadyPeers(s.hosts)))))
  {
    ReadyExactly(s.hosts);
    RunEtcdsAt(MarkReady(s.hosts), Ready(s.hosts), build, InitialCluster(ReadyPeers(s.hosts)), i);
  }

  lemma ReloadFlags(s: State, build: Builder)
    ensures SameFlags(s.hosts, Reload(s, build).0.hosts)
  {
    forall i | 0 <= i < |s.hosts|
      ensures Reload(s, build).0.hosts[i].peer == s.hosts[i].peer &&
              Reload(s, build).0.hosts[i].toAdd == s.hosts[i].toAdd
    {
      ReloadAt(s, build, i);
    }
  }

  lemma AddHostFlags(s: State, i: nat, build: Builder)
    requires i < |s.hosts| && AddHost(s, i, build).1
    ensures SameFlags(Clear(s.hosts, [i]), AddHost(s, i, build).0.hosts)
  {
    var e := s.etcd.Pass(Called);
    var (e', added) := AddMember(e, |s.hosts|, PeerUrl(s.hosts[i].peer.address));
    var t := State(s.hosts[i := s.hosts[i].(toAdd := false)], e');
    ReloadFlags(t, build);
    assert [i][1..] == [];
    assert Clear(s.hosts, [i]) == t.hosts;
  }

  // ---------------------------------------------------------------- after the last reload

  lemma {:induction false} AddHostsSnoc(s: State, a: seq<nat>, i: nat, build: Builder)
    requires i < |s.hosts| && forall k :: 0 <= k < |a| ==> a[k] < |s.hosts|
    ensures var (m, ok) := AddHosts(s, a, build);
            AddHosts(s, a + [i], build) == if ok then AddHost(m, i, build) else (m, false)
    decreases |a|
  {
    if a == [] {
      assert [] + [i] == [i] && [i][1..] == [];
    } else {
      assert (a + [i])[0] == a[0] && (a + [i])[1..] == a[1..] + [i];
      var (s', ok) := AddHost(s, a[0], build);
      if ok { AddHostsSnoc(s', a[1..], i, build); }
    }
  }

  lemma {:induction false} AddHostsFlags(s: State, todo: seq<nat>, build: Builder)
    requires forall k :: 0 <= k < |todo| ==> todo[k] < |s.hosts|
    requires AddHosts(s, todo, build).1
    ensures SameFlags(Clear(s.hosts, todo), AddHosts(s, todo, build).0.hosts)
    decreases |todo|
  {
    if todo != [] {
      var s' := AddHost(s, todo[0], build).0;
      AddHostFlags(s, todo[0], build);
      AddHostsFlags(s', todo[1..], build);
      var one := s.hosts[todo[0] := s.hosts[todo[0]].(toAdd := false)];
      assert [todo[0]][1..] == [];
      assert Clear(s.hosts, [todo[0]]) == one;
      ClearSame(one, s'.hosts, todo[1..]);
    }
  }

  function AllPeers(hs: seq<EtcdHost>): (r: seq<Peer>)
    ensures |r| == |hs| && forall i :: 0 <= i < |hs| ==> r[i] == hs[i].peer
  {
    seq(|hs|, i requires 0 <= i < |hs| => hs[i].peer)
  }

  lemma {:induction false} ReadyAll(hs: seq<EtcdHost>)
    requires forall i :: 0 <= i < |hs| ==> !hs[i].toAdd
    ensures |Ready(hs)| == |hs| && forall i :: 0 <= i < |hs| ==> Ready(hs)[i] == i
    ensures ReadyPeers(hs) == AllPeers(hs)
  {
    if hs != [] {
      ReadyAll(hs[..|hs| - 1]);
    }
  }

  /** The configuration that a later `RunEtcdPlane` asks for on host `i`. */
  function PlaneConfig(hs: seq<EtcdHost>, i: nat, build: Builder): Config
    requires i < |hs|
  {
    ConfigFor(hs[i], build, InitialCluster(AllPeers(hs)))
  }

  /** The state in which the last reload of a run finds the hosts. */
  function BeforeLast(s: State, todo: seq<nat>, build: Builder): (r: State)
    requires todo != [] && forall k :: 0 <= k < |todo| ==> todo[k] < |s.hosts|
    ensures |r.hosts| == |s.hosts|
  {
    AddHosts(s, todo[..|todo| - 1], build).0
  }

  /** After a reconcile that added a member, what the last reload asked for on every host is what
      the etcd plane is going to ask for. */
  lemma LastReload(s: State, todo: seq<nat>, build: Builder, i: nat)
    requires todo != [] && i < |s.hosts| && forall k :: 0 <= k < |todo| ==> todo[k] < |s.hosts|
    requires forall j :: 0 <= j < |s.hosts| && s.hosts[j].toAdd ==> j in todo
    requires AddHosts(s, todo, build).1
    ensures var r := AddHosts(s, todo, build).0;
            r.hosts[i].existing && !r.hosts[i].toAdd &&
            RunContainer(BeforeLast(s, todo, build).hosts[i].daemon, ETCD, PlaneConfig(r.hosts, i, build))
              == (r.hosts[i].daemon, true)
  {
    var m := BeforeLast(s, todo, build);
    var n := |todo| - 1;
    assert todo == todo[..n] + [todo[n]];
    LastOfRun(s, todo, todo[..n], todo[n], build);
    AddHostsFlags(s, todo[..|todo| - 1], build);
    OthersCleared(s, todo, m.hosts);
    LastAdd(m, todo[|todo| - 1], build, i);
  }

  lemma LastOfRun(s: State, todo: seq<nat>, init: seq<nat>, last: nat, build: Builder)
    requires todo == init + [last] && forall k :: 0 <= k < |todo| ==> todo[k] < |s.hosts|
    requires forall k :: 0 <= k < |init| ==> init[k] < |s.hosts|
    requires AddHosts(s, todo, build).1 && last < |s.hosts|
    ensures AddHosts(s, init, build).1 && AddHosts(s, todo, build) == AddHost(AddHosts(s, init, build).0, last, build)
  {
    AddHostsSnoc(s, init, last, build);
  }

  /** Before the last add only that host is still flagged. */
  lemma OthersCleared(s: State, todo: seq<nat>, hs: seq<EtcdHost>)
    requires todo != [] && forall k :: 0 <= k < |todo| ==> todo[k] < |s.hosts|
    requires forall j :: 0 <= j < |s.hosts| && s.hosts[j].toAdd ==> j in todo
    requires SameFlags(Clear(s.hosts, todo[..|todo| - 1]), hs)
    ensures forall j :: 0 <= j < |hs| && hs[j].toAdd ==> j == todo[|todo| - 1]
  {
    ClearFlags(s.hosts, todo[..|todo| - 1]);
    assert todo == todo[..|todo| - 1] + [todo[|todo| - 1]];
  }

  lemma LastAdd(m: State, last: nat, build: Builder, i: nat)
    requires last < |m.hosts| && i < |m.hosts| && AddHost(m, last, build).1
    requires forall j :: 0 <= j < |m.hosts| && m.hosts[j].toAdd ==> j == last
    ensures var r := AddHost(m, last, build).0;
            r.hosts[i].existing && !r.hosts[i].toAdd &&
            RunContainer(m.hosts[i].daemon, ETCD, PlaneConfig(r.hosts, i, build)) == (r.hosts[i].daemon, true)
  {
    var e := m.etcd.Pass(Called);
    var (e', added) := AddMember(e, |m.hosts|, PeerUrl(m.hosts[last].peer.address));
    var t := State(m.hosts[last := m.hosts[last].(toAdd := false)], e');
    ReadyAll(t.hosts);
    ReloadAt(t, build, i);
    ReloadFlags(t, build);
    assert AllPeers(Reload(t, build).0.hosts) == AllPeers(t.hosts);
  }

  /** Exactly the containers that the last reload found stopped with another configuration are not
      up to date afterwards. */
  lemma UpAfterLastReload(s: State, todo: seq<nat>, build: Builder, i: nat)
    requires todo != [] && i < |s.hosts| && forall k :: 0 <= k < |todo| ==> todo[k] < |s.hosts|
    requires forall j :: 0 <= j < |s.hosts| && s.hosts[j].toAdd ==> j in todo
    requires AddHosts(s, todo, build).1
    ensures var r := AddHosts(s, todo, build).0;
            var cs, cfg := BeforeLast(s, todo, build).hosts[i].daemon.containers, PlaneConfig(r.hosts, i, build);
            Up(r.hosts[i].daemon.containers, ETCD, cfg) <==>
            !(ETCD in cs && !cs[ETCD].running && !Matches(cs[ETCD], cfg))
  {
    LastReload(s, todo, build, i);
    OneRunSuffices(BeforeLast(s, todo, build).hosts[i].daemon, ETCD,
                   PlaneConfig(AddHosts(s, todo, build).0.hosts, i, build));
  }

  /** etcd.go:19-33 over hosts whose etcd container is up: whatever fails, nothing changes. */
  lemma {:induction false} PlaneLeavesUpContainers(hs: seq<EtcdHost>, at: seq<nat>, build: Builder, cluster: string,
                                                   i: nat)
    requires (forall k :: 0 <= k < |at| ==> at[k] < |hs|) && i < |hs|
    requires forall j :: 0 <= j < |hs| ==> Up(hs[j].daemon.containers, ETCD, ConfigFor(hs[j], build, cluster))
    ensures RunEtcds(hs, at, build, cluster).0[i].daemon.containers == hs[i].daemon.containers
    decreases |at|
  {
    if at != [] {
      RunWhenUpChangesNothing(hs[at[0]].daemon, ETCD, ConfigFor(hs[at[0]], build, cluster), false);
      var (d, ok) := RunContainer(hs[at[0]].daemon, ETCD, ConfigFor(hs[at[0]], build, cluster));
      if ok { PlaneLeavesUpContainers(hs[at[0] := hs[at[0]].(daemon := d)], at[1..], build, cluster, i); }
    }
  }

  function Everyone(n: nat): (r: seq<nat>)
    ensures |r| == n && forall i :: 0 <= i < n ==> r[i] == i
  {
    seq(n, i => i)
  }

  /** `hs` are the hosts later: each etcd container was absent or running when the last reload found it,
      in `found`, and still runs as that reload left it, in `left`. */
  ghost predicate Undisturbed(hs: seq<EtcdHost>, left: seq<EtcdHost>, found: seq<EtcdHost>) {
    |hs| == |left| == |found| &&
    forall j :: 0 <= j < |hs| ==>
      hs[j] == left[j].(daemon := hs[j].daemon) && SameEtcd(hs[j].daemon.containers, left[j].daemon.containers) &&
      (ETCD !in found[j].daemon.containers || found[j].daemon.containers[ETCD].running)
  }

  predicate SameEtcd(cs: Containers, left: Containers) {
    ETCD in cs && ETCD in left && cs[ETCD] == left[ETCD] && cs[ETCD].running
  }

  /** The etcd plane after such a reconcile replaces no etcd container, whatever fails then. */
  lemma PlaneAfterReconcileReplacesNothing(s: State, todo: seq<nat>, build: Builder, hs: seq<EtcdHost>, i: nat)
    requires todo != [] && i < |s.hosts| == |hs| && forall k :: 0 <= k < |todo| ==> todo[k] < |s.hosts|
    requires forall j :: 0 <= j < |s.hosts| && s.hosts[j].toAdd ==> j in todo
    requires AddHosts(s, todo, build).1
    requires Undisturbed(hs, AddHosts(s, todo, build).0.hosts, BeforeLast(s, todo, build).hosts)
    ensures RunEtcds(hs, Everyone(|hs|), build, InitialCluster(AllPeers(hs))).0[i].daemon.containers ==
              hs[i].daemon.containers
  {
    var r := AddHosts(s, todo, build).0;
    assert AllPeers(hs) == AllPeers(r.hosts);
    forall j | 0 <= j < |hs|
      ensures Up(hs[j].daemon.containers, ETCD, ConfigFor(hs[j], build, InitialCluster(AllPeers(hs))))
    {
      UpAfterLastReload(s, todo, build, j);
      assert PlaneConfig(r.hosts, j, build) == ConfigFor(hs[j], build, InitialCluster(AllPeers(hs)));
    }
    PlaneLeavesUpContainers(hs, Everyone(|hs|), build, InitialCluster(AllPeers(hs)), i);
  }

  // ---------------------------------------------------------------- what the reloads announce

  /** The reload entries of a log. */
  function Reloads(log: seq<Note>): seq<Note> {
    if log == [] then []
    else
      var rest := Reloads(log[..|log| - 1]);
      if log[|log| - 1].event.Reloading? then rest + [log[|log| - 1]] else rest
  }

  lemma ReloadsSnoc(log: seq<Note>, note: Note)
    ensures Reloads(log + [note]) == if note.event.Reloading? then Reloads(log) + [note] else Reloads(log)
  {
    assert (log + [note])[..|log|] == log;
  }

  lemma {:induction false} AddReloads(e: Etcd, n: nat, peer: string)
    ensures Reloads(AddMember(e, n, peer).0.log) == Reloads(e.log)
    decreases n
  {
    if n > 0 {
      var c := e.Pass(Called);
      ReloadsSnoc(e.log, Note(Called, e.members));
      ReloadsSnoc(c.log, Note(AddTried, c.members));
      ReloadsSnoc(c.log, Note(Added, c.members + [Member(c.calls, "", peer)]));
      if !e.Answers() { AddReloads(c, n - 1, peer); }
      else if !c.Answers() { AddReloads(c.Pass(AddTried), n - 1, peer); }
    }
  }

  lemma {:induction false} ProbeReloads(e: Etcd, tries: nat)
    ensures Reloads(Membership.Probe(e, tries).0.log) == Reloads(e.log)
    decreases tries
  {
    if tries > 0 {
      var reply := e.replies(e.calls);
      ReloadsSnoc(e.log, Note(Probed(reply == Good), e.members));
      if reply == Bad { ProbeReloads(e.Pass(Probed(false)), tries - 1); }
    }
  }

  lemma {:induction false} AnyHealthyReloads(e: Etcd, n: nat)
    ensures Reloads(AnyHealthy(e, n).0.log) == Reloads(e.log)
    decreases n
  {
    if n > 0 {
      ProbeReloads(e, 3);
      AnyHealthyReloads(Membership.Probe(e, 3).0, n - 1);
    }
  }

  function Urls(ps: seq<Peer>): set<string> { set p | p in ps :: PeerUrl(p.address) }

  function MemberUrls(ms: seq<Member>): set<string> { set m | m in ms :: m.peer }

  /** The members have exactly the peers' URLs, and there are as many of them. */
  ghost predicate Lists(ms: seq<Member>, ps: seq<Peer>) { MemberUrls(ms) == Urls(ps) && |ms| == |ps| }

  /** The live members are the ready hosts. */
  ghost predicate Matched(s: State) { Lists(s.etcd.members, ReadyPeers(s.hosts)) }

  /** The hosts at these distinct positions are still to be added. */
  ghost predicate Awaited(hs: seq<EtcdHost>, todo: seq<nat>) {
    (forall k :: 0 <= k < |todo| ==> todo[k] < |hs| && hs[todo[k]].toAdd) &&
    forall k, l :: 0 <= k < l < |todo| ==> todo[k] != todo[l]
  }

  /** `ms` is `was` with one more member, which has that URL. */
  ghost predicate OneMore(was: seq<Member>, ms: seq<Member>, url: string) {
    exists id :: ms == was + [Member(id, "", url)]
  }

  /** Attempting to add reloads nothing; success appends one member with that URL. */
  lemma AddCallReloads(e: Etcd, n: nat, url: string)
    ensures var (r, added) := AddMember(e.Pass(Called), n, url);
            Reloads(r.log) == Reloads(e.log) && (added ==> OneMore(e.members, r.members, url))
  {
    ReloadsSnoc(e.log, Note(Called, e.members));
    AddReloads(e.Pass(Called), n, url);
    AddEffect(e.Pass(Called), n, url);
  }

  /** One add makes at most one reload; it announces the hosts that are ready once the new one is. */
  lemma AddHostReloads(s: State, i: nat, build: Builder)
    requires i < |s.hosts|
    ensures var (r, ok) := AddHost(s, i, build);
            var past, now := Reloads(s.etcd.log), Reloads(r.etcd.log);
            (now == past && !ok) ||
            (now == past + [Note(Reloading(ReadyPeers(Clear(s.hosts, [i]))), r.etcd.members)] &&
             OneMore(s.etcd.members, r.etcd.members, PeerUrl(s.hosts[i].peer.address)))
  {
    var url := PeerUrl(s.hosts[i].peer.address);
    ReloadsSnoc(s.etcd.log, Note(Called, s.etcd.members));
    AddCallReloads(s.etcd, |s.hosts|, url);
    var (e, added) := AddMember(s.etcd.Pass(Called), |s.hosts|, url);
    if s.etcd.Answers() && added {
      var t := State(s.hosts[i := s.hosts[i].(toAdd := false)], e);
      assert Clear(s.hosts, [i]) == t.hosts by { assert [i][1..] == []; }
      ReloadReloads(t, build);
      ReloadContinues(t, build);
      assert OneMore(s.etcd.members, e.members, url);
    }
  }

  lemma ReloadReloads(t: State, build: Builder)
    ensures Reloads(Reload(t, build).0.etcd.log) ==
              Reloads(t.etcd.log) + [Note(Reloading(ReadyPeers(t.hosts)), t.etcd.members)]
  {
    var note := Note(Reloading(ReadyPeers(t.hosts)), t.etcd.members);
    ReloadsSnoc(t.etcd.log, note);
    AnyHealthyReloads(t.etcd.Pass(note.event), |Ready(t.hosts)|);
  }

  lemma UrlsOfReady(hs: seq<EtcdHost>)
    ensures forall u :: u in Urls(ReadyPeers(hs)) <==>
              exists i :: 0 <= i < |hs| && !hs[i].toAdd && PeerUrl(hs[i].peer.address) == u
  {
    ReadyExactly(hs);
    var at, ps := Ready(hs), ReadyPeers(hs);
    forall u | u in Urls(ps) ensures exists i :: 0 <= i < |hs| && !hs[i].toAdd && PeerUrl(hs[i].peer.address) == u {
      var p :| p in ps && PeerUrl(p.address) == u;
      var a :| 0 <= a < |ps| && ps[a] == p;
      assert at[a] in at;
    }
    forall u | exists i :: 0 <= i < |hs| && !hs[i].toAdd && PeerUrl(hs[i].peer.address) == u ensures u in Urls(ps) {
      var i :| 0 <= i < |hs| && !hs[i].toAdd && PeerUrl(hs[i].peer.address) == u;
      assert i in at;
      var a :| 0 <= a < |at| && at[a] == i;
      assert ps[a] in ps;
    }
  }

  lemma {:induction false} OneMoreReady(hs: seq<EtcdHost>, i: nat)
    requires i < |hs| && hs[i].toAdd
    ensures |Ready(hs[i := hs[i].(toAdd := false)])| == |Ready(hs)| + 1
  {
    var n, hs' := |hs| - 1, hs[i := hs[i].(toAdd := false)];
    if i < n {
      OneMoreReady(hs[..n], i);
      assert hs'[..n] == hs[..n][i := hs[i].(toAdd := false)];
    } else {
      assert hs'[..n] == hs[..n];
    }
  }

  lemma AddingKeepsMatched(s: State, i: nat, ms: seq<Member>, id: nat)
    requires i < |s.hosts| && s.hosts[i].toAdd && Matched(s)
    requires ms == s.etcd.members + [Member(id, "", PeerUrl(s.hosts[i].peer.address))]
    ensures Lists(ms, ReadyPeers(Clear(s.hosts, [i])))
  {
    AddingKeepsUrls(s, i, ms, id);
    OneMoreReady(s.hosts, i);
    assert [i][1..] == [];
    assert Clear(s.hosts, [i]) == s.hosts[i := s.hosts[i].(toAdd := false)];
  }

  lemma AddingKeepsUrls(s: State, i: nat, ms: seq<Member>, id: nat)
    requires i < |s.hosts| && MemberUrls(s.etcd.members) == Urls(ReadyPeers(s.hosts))
    requires ms == s.etcd.members + [Member(id, "", PeerUrl(s.hosts[i].peer.address))]
    ensures MemberUrls(ms) == Urls(ReadyPeers(Clear(s.hosts, [i])))
  {
    var m, hs := Member(id, "", PeerUrl(s.hosts[i].peer.address)), Clear(s.hosts, [i]);
    ClearFlags(s.hosts, [i]);
    UrlsOfReady(s.hosts);
    UrlsOfReady(hs);
    assert m in ms;
    forall x | x in s.etcd.members ensures x in ms {
    }
    assert MemberUrls(ms) == MemberUrls(s.etcd.members) + {m.peer};
    forall u | u in Urls(ReadyPeers(hs)) ensures u in MemberUrls(ms) {
      var j :| 0 <= j < |hs| && !hs[j].toAdd && PeerUrl(hs[j].peer.address) == u;
      if s.hosts[j].toAdd { assert j == i; } else { assert u in Urls(ReadyPeers(s.hosts)); }
    }
    forall u | u in MemberUrls(ms) ensures u in Urls(ReadyPeers(hs)) {
      if u == m.peer {
        assert !hs[i].toAdd && PeerUrl(hs[i].peer.address) == u;
      } else {
        var j :| 0 <= j < |s.hosts| && !s.hosts[j].toAdd && PeerUrl(s.hosts[j].peer.address) == u;
        assert !hs[j].toAdd && PeerUrl(hs[j].peer.address) == u;
      }
    }
  }

  /** The reload entry `note` names the ready hosts after the first `k` adds, and they are the live
      members if the run started matched, with the hosts of `todo` yet to be added. */
  ghost predicate Announces(s: State, todo: seq<nat>, k: nat, note: Note)
    requires k <= |todo| && forall j :: 0 <= j < |todo| ==> todo[j] < |s.hosts|
  {
    var peers := ReadyPeers(Clear(s.hosts, todo[..k]));
    note.event == Reloading(peers) && (Matched(s) && Awaited(s.hosts, todo) ==> Lists(note.members, peers))
  }

  lemma AnnouncesShift(s: State, s': State, todo: seq<nat>, k: nat, note: Note)
    requires 1 <= k <= |todo| && forall j :: 0 <= j < |todo| ==> todo[j] < |s.hosts|
    requires SameFlags(Clear(s.hosts, [todo[0]]), s'.hosts)
    requires Matched(s) && Awaited(s.hosts, todo) ==> Matched(s') && Awaited(s'.hosts, todo[1..])
    requires Announces(s', todo[1..], k - 1, note)
    ensures Announces(s, todo, k, note)
  {
    var one := s.hosts[todo[0] := s.hosts[todo[0]].(toAdd := false)];
    assert [todo[0]][1..] == [];
    assert Clear(s.hosts, [todo[0]]) == one;
    assert todo[..k][1..] == todo[1..][..k - 1] && todo[..k][0] == todo[0];
    ClearSame(one, s'.hosts, todo[1..][..k - 1]);
    SameReady(Clear(one, todo[1..][..k - 1]), Clear(s'.hosts, todo[1..][..k - 1]));
  }

  /** These are the announcements of the first adds of `todo`, one each. */
  ghost predicate AllAnnounce(s: State, todo: seq<nat>, notes: seq<Note>)
    requires forall j :: 0 <= j < |todo| ==> todo[j] < |s.hosts|
  {
    |notes| <= |todo| && forall k :: 0 <= k < |notes| ==> Announces(s, todo, k + 1, notes[k])
  }

  /** From `s` to `r` the log gained these announcements as its reload entries. */
  ghost predicate Announced(s: State, todo: seq<nat>, r: State)
    requires forall j :: 0 <= j < |todo| ==> todo[j] < |s.hosts|
  {
    var past, now := Reloads(s.etcd.log), Reloads(r.etcd.log);
    |past| <= |now| && now[..|past|] == past && AllAnnounce(s, todo, now[|past|..])
  }

  /** One more host is ready, after one reload. */
  ghost predicate Advances(s: State, i: nat, s': State)
    requires i < |s.hosts|
  {
    SameFlags(Clear(s.hosts, [i]), s'.hosts) && (Matched(s) && s.hosts[i].toAdd ==> Matched(s')) &&
    |Reloads(s'.etcd.log)| == |Reloads(s.etcd.log)| + 1
  }

  /** An add makes one reload, or fails before making it. */
  lemma FirstAnnounced(s: State, todo: seq<nat>, build: Builder)
    requires todo != [] && forall j :: 0 <= j < |todo| ==> todo[j] < |s.hosts|
    ensures Announced(s, todo, AddHost(s, todo[0], build).0)
  {
    AddHostReloads(s, todo[0], build);
    var r := AddHost(s, todo[0], build).0;
    var past, now := Reloads(s.etcd.log), Reloads(r.etcd.log);
    if now != past {
      assert todo[..1] == [todo[0]] && now[|past|..] == [now[|past|]];
      if Matched(s) && Awaited(s.hosts, todo) {
        assert OneMore(s.etcd.members, r.etcd.members, PeerUrl(s.hosts[todo[0]].peer.address));
        var id :| r.etcd.members == s.etcd.members + [Member(id, "", PeerUrl(s.hosts[todo[0]].peer.address))];
        AddingKeepsMatched(s, todo[0], r.etcd.members, id);
      }
    }
  }

  lemma AddAdvances(s: State, i: nat, build: Builder)
    requires i < |s.hosts| && AddHost(s, i, build).1
    ensures Advances(s, i, AddHost(s, i, build).0)
  {
    AddHostReloads(s, i, build);
    AddHostFlags(s, i, build);
    if Matched(s) && s.hosts[i].toAdd { AddHostKeepsMatched(s, i, build); }
  }

  lemma AddHostKeepsMatched(s: State, i: nat, build: Builder)
    requires i < |s.hosts| && s.hosts[i].toAdd && Matched(s) && AddHost(s, i, build).1
    ensures Matched(AddHost(s, i, build).0)
  {
    var s' := AddHost(s, i, build).0;
    AddHostReloads(s, i, build);
    AddHostFlags(s, i, build);
    SameReady(Clear(s.hosts, [i]), s'.hosts);
    assert OneMore(s.etcd.members, s'.etcd.members, PeerUrl(s.hosts[i].peer.address));
    var id :| s'.etcd.members == s.etcd.members + [Member(id, "", PeerUrl(s.hosts[i].peer.address))];
    AddingKeepsMatched(s, i, s'.etcd.members, id);
  }

  lemma AwaitedRest(hs: seq<EtcdHost>, hs': seq<EtcdHost>, todo: seq<nat>)
    requires todo != [] && Awaited(hs, todo) && SameFlags(Clear(hs, [todo[0]]), hs')
    ensures Awaited(hs', todo[1..])
  {
    ClearFlags(hs, [todo[0]]);
  }

  lemma AnnouncedCompose(s: State, s': State, r: State, todo: seq<nat>)
    requires todo != [] && forall j :: 0 <= j < |todo| ==> todo[j] < |s.hosts|
    requires Advances(s, todo[0], s') && Announced(s, todo, s') && Announced(s', todo[1..], r)
    ensures Announced(s, todo, r)
  {
    var past, mid, now := Reloads(s.etcd.log), Reloads(s'.etcd.log), Reloads(r.etcd.log);
    assert now[..|past|] == now[..|mid|][..|past|];
    var notes := now[|past|..];
    if Awaited(s.hosts, todo) { AwaitedRest(s.hosts, s'.hosts, todo); }
    forall k | 0 <= k < |notes| ensures Announces(s, todo, k + 1, notes[k]) {
      if k == 0 {
        assert notes[0] == mid[|past|..][0] by { assert now[..|mid|][|past|] == now[|past|]; }
      } else {
        assert notes[k] == now[|mid|..][k - 1];
        AnnouncesShift(s, s', todo, k + 1, notes[k]);
      }
    }
  }

  /** etcd.go:167-181 over a whole run: the k-th reload gives every etcd container the list of the
      surviving hosts plus the first k added ones, in configuration order; when membership matched
      the ready hosts at the start, that list is the live member list at that moment. */
  lemma {:induction false} ReloadsAnnounce(s: State, todo: seq<nat>, build: Builder)
    requires forall j :: 0 <= j < |todo| ==> todo[j] < |s.hosts|
    ensures Announced(s, todo, AddHosts(s, todo, build).0)
    decreases |todo|
  {
    if todo != [] {
      FirstAnnounced(s, todo, build);
      var (s', ok) := AddHost(s, todo[0], build);
      if ok {
        AddAdvances(s, todo[0], build);
        ReloadsAnnounce(s', todo[1..], build);
        AnnouncedCompose(s, s', AddHosts(s', todo[1..], build).0, todo);
      }
    }
  }

  // ---------------------------------------------------------------- what the containers are given

  /** A run of the listed containers leaves each host alone or runs its container with that list. */
  lemma {:induction false} RunEtcdsGives(hs: seq<EtcdHost>, at: seq<nat>, build: Builder, cluster: string, i: nat)
    requires Increasing(at, |hs|) && i < |hs|
    ensures var d := RunEtcds(hs, at, build, cluster).0[i].daemon;
            d == hs[i].daemon || (i in at && d == RunContainer(hs[i].daemon, ETCD, ConfigFor(hs[i], build, cluster)).0)
    decreases |at|
  {
    if at != [] {
      var (d, ok) := RunContainer(hs[at[0]].daemon, ETCD, ConfigFor(hs[at[0]], build, cluster));
      var hs' := hs[at[0] := hs[at[0]].(daemon := d)];
      assert at == [at[0]] + at[1..];
      RunEtcdsGives(hs', at[1..], build, cluster, i);
      if i == at[0] { assert i !in at[1..]; }
    }
  }

  /** The daemon of a ready host after a reload that announces `peers`: not reached, because an earlier
      host failed, or run with exactly that list as a member of an existing cluster. */
  ghost predicate Given(before: EtcdHost, after: EtcdHost, build: Builder, peers: seq<Peer>, ok: bool) {
    var (d, ran) := RunContainer(before.daemon, ETCD, build(before.peer, true, InitialCluster(peers)));
    if ok then ran && after.daemon == d else after.daemon == before.daemon || after.daemon == d
  }

  lemma ReloadGives(t: State, build: Builder, i: nat)
    requires i < |t.hosts|
    ensures var (r, ok) := Reload(t, build);
            if t.hosts[i].toAdd then r.hosts[i].daemon == t.hosts[i].daemon
            else Given(t.hosts[i], r.hosts[i], build, ReadyPeers(t.hosts), ok)
  {
    ReadyExactly(t.hosts);
    ReloadAt(t, build, i);
    RunEtcdsGives(MarkReady(t.hosts), Ready(t.hosts), build, InitialCluster(ReadyPeers(t.hosts)), i);
  }

  /** From `s` to `r`, whatever failed: host `i` was left alone, or it is ready by the flags of `hs` and
      was given the list of the hosts that are; after a success every ready host was. */
  ghost predicate GivenList(s: State, r: State, build: Builder, hs: seq<EtcdHost>, i: nat, ok: bool)
    requires i < |s.hosts| == |r.hosts| == |hs|
  {
    (r.hosts[i].daemon == s.hosts[i].daemon ||
     (!hs[i].toAdd && Given(s.hosts[i], r.hosts[i], build, ReadyPeers(hs), ok))) &&
    (ok && !hs[i].toAdd ==> Given(s.hosts[i], r.hosts[i], build, ReadyPeers(hs), true))
  }

  /** etcd.go:175-181 for the reload of one add: the new host counts as ready. */
  lemma AddGives(s: State, j: nat, build: Builder, i: nat)
    requires j < |s.hosts| && i < |s.hosts|
    ensures GivenList(s, AddHost(s, j, build).0, build, Clear(s.hosts, [j]), i, AddHost(s, j, build).1)
  {
    var url := PeerUrl(s.hosts[j].peer.address);
    var (e, added) := AddMember(s.etcd.Pass(Called), |s.hosts|, url);
    var t := State(s.hosts[j := s.hosts[j].(toAdd := false)], e);
    assert Clear(s.hosts, [j]) == t.hosts by { assert [j][1..] == []; }
    if s.etcd.Answers() && added { ReloadGives(t, build, i); }
  }

  lemma GivenSame(s: State, r: State, build: Builder, hs: seq<EtcdHost>, hs': seq<EtcdHost>, i: nat, ok: bool)
    requires i < |s.hosts| == |r.hosts| && |hs'| == |s.hosts| && SameFlags(hs, hs') &&
             GivenList(s, r, build, hs', i, ok)
    ensures GivenList(s, r, build, hs, i, ok)
  {
    SameReady(hs, hs');
  }

  /** The same for the k-th add of a run: its reload gives each ready container, up to the first failure,
      the list of the surviving hosts plus the first k added ones. */
  lemma KthReloadGives(s: State, todo: seq<nat>, build: Builder, k: nat, i: nat)
    requires k < |todo| && i < |s.hosts| && forall j :: 0 <= j < |todo| ==> todo[j] < |s.hosts|
    requires AddHosts(s, todo[..k], build).1
    ensures var m := AddHosts(s, todo[..k], build).0; var (r, ok) := AddHost(m, todo[k], build);
            GivenList(m, r, build, Clear(s.hosts, todo[..k + 1]), i, ok)
  {
    var m := AddHosts(s, todo[..k], build).0;
    AddHostsFlags(s, todo[..k], build);
    ClearOneMore(s.hosts, m.hosts, todo, k);
    KthGiven(s, m, todo, build, k, i);
  }

  lemma KthGiven(s: State, m: State, todo: seq<nat>, build: Builder, k: nat, i: nat)
    requires k < |todo| && i < |s.hosts| == |m.hosts| && forall j :: 0 <= j < |todo| ==> todo[j] < |s.hosts|
    requires SameFlags(Clear(s.hosts, todo[..k + 1]), Clear(m.hosts, [todo[k]]))
    ensures GivenList(m, AddHost(m, todo[k], build).0, build, Clear(s.hosts, todo[..k + 1]), i,
                      AddHost(m, todo[k], build).1)
  {
    AddGives(m, todo[k], build, i);
    var (r, ok) := AddHost(m, todo[k], build);
    GivenSame(m, r, build, Clear(s.hosts, todo[..k + 1]), Clear(m.hosts, [todo[k]]), i, ok);
  }

  lemma ClearOneMore(hs: seq<EtcdHost>, hs': seq<EtcdHost>, todo: seq<nat>, k: nat)
    requires k < |todo| && forall j :: 0 <= j < |todo| ==> todo[j] < |hs|
    requires SameFlags(Clear(hs, todo[..k]), hs')
    ensures SameFlags(Clear(hs, todo[..k + 1]), Clear(hs', [todo[k]]))
  {
    ClearFlags(hs, todo[..k]);
    ClearFlags(hs, todo[..k + 1]);
    ClearFlags(hs', [todo[k]]);
    assert todo[..k + 1] == todo[..k] + [todo[k]];
  }
}
