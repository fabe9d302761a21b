/** The etcd plane as the source runs it, over host objects and the etcd client API
    (services/etcd.go:19-33, services/etcd.go:106-193, services/etcd_util.go:42-102,
    cluster/reconcile.go:149-204).  Each method is tied to the function that specifies it. */
module EtcdPlane {
  import opened Text
  import opened Docker
  import opened Services
  import opened Hosts
  import opened Membership
  import opened EtcdReconcile
  import opened EtcdReload
  import Pki

  /** The members API of the cluster, as reached through any of its endpoints. */
  class MembersApi {
    var members: seq<Member>
    var calls: nat
    const replies: nat -> Reply
    var log: seq<Note>

    /** `calls` is above every id that was handed out, and the ids are distinct. */
    constructor (members: seq<Member>, calls: nat, replies: nat -> Reply)
      requires Etcd(members, calls, replies, []).Valid()
      ensures E() == Etcd(members, calls, replies, []) && E().Valid()
    {
      this.members, this.calls, this.replies, log := members, calls, replies, [];
    }

    function E(): Etcd
      reads this
    {
      Etcd(members, calls, replies, log)
    }

    method Record(event: Event, ms: seq<Member>)
      modifies this
      ensures E() == old(E()).Record(event, ms)
    {
      members, calls, log := ms, calls + 1, log + [Note(event, ms)];
    }

    /** A call that changes nothing: dialling, listing, deploying a file. */
    method Call() returns (ok: bool)
      modifies this
      ensures E() == old(E()).Pass(Called) && ok == old(E()).Answers()
    {
      ok := E().Answers();
      Record(Called, members);
    }

    method Add(peer: string) returns (ok: bool)
      modifies this
      ensures ok == old(E()).Answers()
      ensures E() == if ok then old(E()).Record(Added, old(members) + [Member(old(calls), "", peer)])
                     else old(E()).Pass(AddTried)
    {
      ok := E().Answers();
      if ok { Record(Added, members + [Member(calls, "", peer)]); } else { Record(AddTried, members); }
    }

    method Remove(id: MaybeId) returns (ok: bool)
      modifies this
      ensures ok <==> old(E()).Answers() && id.Id? && id.id in Ids(old(members))
      ensures E() == if ok then old(E()).Record(Removed, Without(old(members), id.id)) else old(E()).Pass(Called)
    {
      ok := E().Answers() && id.Id? && id.id in Ids(members);
      if ok { Record(Removed, Without(members, id.id)); } else { Record(Called, members); }
    }

    method Health() returns (reply: Reply)
      modifies this
      ensures reply == old(replies(calls)) && E() == old(E()).Pass(Probed(reply == Good))
    {
      reply := replies(calls);
      Record(Probed(reply == Good), members);
    }

    method AddEtcdMember(etcdHost: Host, etcdHosts: seq<Host>) returns (added: bool)
      modifies this
      ensures (E(), added) == AddMember(old(E()), |etcdHosts|, PeerUrl(etcdHost.internalAddress))
    {
      var peer := PeerUrl(etcdHost.internalAddress);
      ghost var all := AddMember(E(), |etcdHosts|, peer);
      added := false;
      for i := 0 to |etcdHosts|
        invariant !added && all == AddMember(E(), |etcdHosts| - i, peer)
      {
        var ok := Call();
        if !ok { continue; }
        ok := Add(peer);
        if !ok { continue; }
        added := true;
        break;
      }
    }

    method RemoveEtcdMember(etcdHost: Host, etcdHosts: seq<Host>) returns (removed: bool)
      modifies this
      ensures (E(), removed) == RemoveMember(old(E()), |etcdHosts|, MemberName(PeerOf(etcdHost)), NoId)
    {
      var name := MemberName(PeerOf(etcdHost));
      ghost var all := RemoveMember(E(), |etcdHosts|, name, NoId);
      var mID := NoId;
      removed := false;
      for i := 0 to |etcdHosts|
        invariant !removed && all == RemoveMember(E(), |etcdHosts| - i, name, mID)
      {
        var ok := Call();
        if !ok { continue; }
        ok := Call();
        if !ok { continue; }
        mID := FindMember(members, name, mID);
        ok := Remove(mID);
        if !ok { continue; }
        removed := true;
        break;
      }
    }

    method IsEtcdHealthy() returns (healthy: bool)
      modifies this
      ensures (E(), healthy) == Membership.Probe(old(E()), 3)
      ensures healthy <==> exists t: nat :: t < old(calls) + 3 && GoodAt(replies, old(calls), t)
    {
      ProbeExactly(E(), 3);
      ghost var all := Membership.Probe(E(), 3);
      for i := 0 to 3
        invariant all == Membership.Probe(E(), 3 - i)
      {
        var reply := Health();
        match reply
        case NoDial => return false;
        case Bad => continue;
        case Good => return true;
      }
      return false;
    }

    /** The health loop over the ready hosts. */
    method AnyHostHealthy(ready: seq<Host>) returns (healthy: bool)
      modifies this
      ensures (E(), healthy) == AnyHealthy(old(E()), |ready|)
    {
      ghost var all := AnyHealthy(E(), |ready|);
      healthy := false;
      for i := 0 to |ready|
        invariant !healthy && all == AnyHealthy(E(), |ready| - i)
      {
        healthy := IsEtcdHealthy();
        if healthy { break; }
      }
    }
  }

  /** etcd.go:147-152: the search stops at the first member of that name. */
  method FindMember(ms: seq<Member>, name: string, before: MaybeId) returns (id: MaybeId)
    ensures id == FindId(ms, name, before)
  {
    id := before;
    for i := 0 to |ms|
      invariant id == before && FindId(ms, name, before) == FindId(ms[i..], name, before)
    {
      if ms[i].name == name {
        id := Id(ms[i].id);
        break;
      }
    }
  }

  function PeerOf(h: Host): Peer { Peer(h.hostnameOverride, h.internalAddress) }

  function PeersOf(hs: seq<Host>): (r: seq<Peer>)
    ensures |r| == |hs| && forall i :: 0 <= i < |hs| ==> r[i] == PeerOf(hs[i])
  {
    seq(|hs|, i requires 0 <= i < |hs| => PeerOf(hs[i]))
  }

  method GetEtcdInitialCluster(hs: seq<Host>) returns (cluster: string)
    ensures cluster == InitialCluster(PeersOf(hs))
  {
    ghost var entries := Entries(PeersOf(hs));
    AccumulateAll(entries);
    cluster := "";
    for i := 0 to |hs|
      invariant cluster == Accumulated(entries, i)
    {
      AccumulateOne(entries, i);
      var entry := Entry(PeerOf(hs[i]));
      assert entry == entries[i];
      cluster := cluster + entry;
      if i < |hs| - 1 { cluster := cluster + ","; }
    }
  }

  // ---------------------------------------------------------------- running the containers

  ghost function View(h: Host): EtcdHost
    reads h, h.client
  {
    EtcdHost(PeerOf(h), h.toAddEtcdMember, h.existingEtcdCluster, h.client.D())
  }

  ghost function Views(hs: seq<Host>): (r: seq<EtcdHost>)
    reads hs, Clients(hs)
    ensures |r| == |hs| && forall i :: 0 <= i < |hs| ==> r[i] == View(hs[i])
  {
    seq(|hs|, i requires 0 <= i < |hs| reads hs, Clients(hs) => View(hs[i]))
  }

  /** The objects at these positions. */
  ghost predicate At(hs: seq<Host>, at: seq<nat>, sub: seq<Host>) {
    |sub| == |at| && forall k :: 0 <= k < |at| ==> at[k] < |hs| && sub[k] == hs[at[k]]
  }

  method RunOne(ghost hs: seq<Host>, h: Host, ghost i: nat, build: Builder, cluster: string) returns (ok: bool)
    requires Separate(hs) && i < |hs| && hs[i] == h
    modifies h.client
    ensures (h.client.D(), ok) == RunContainer(old(h.client.D()), ETCD, old(ConfigFor(View(h), build, cluster)))
    ensures Views(hs) == old(Views(hs))[i := old(View(h)).(daemon := h.client.D())]
  {
    ok := h.client.DoRunContainer(ETCD, build(PeerOf(h), h.existingEtcdCluster, cluster));
  }

  /** The loop that `RunEtcdPlane` and `ReloadEtcdCluster` share. */
  method RunEach(ghost hs: seq<Host>, sub: seq<Host>, ghost at: seq<nat>, build: Builder, cluster: string)
    returns (ok: bool)
    requires Separate(hs) && At(hs, at, sub)
    modifies Clients(hs)
    ensures (Views(hs), ok) == RunEtcds(old(Views(hs)), at, build, cluster)
  {
    ghost var all := RunEtcds(Views(hs), at, build, cluster);
    assert at[0..] == at;
    for k := 0 to |sub|
      invariant all == RunEtcds(Views(hs), at[k..], build, cluster)
    {
      assert at[k..][1..] == at[k + 1..];
      ok := RunOne(hs, sub[k], at[k], build, cluster);
      if !ok { return; }
    }
    return true;
  }

  method RunEtcdPlane(hs: seq<Host>, build: Builder) returns (ok: bool)
    requires Separate(hs)
    modifies Clients(hs)
    ensures (Views(hs), ok) == RunEtcds(old(Views(hs)), Everyone(|hs|), build, InitialCluster(AllPeers(old(Views(hs)))))
  {
    var cluster := GetEtcdInitialCluster(hs);
    assert PeersOf(hs) == AllPeers(Views(hs));
    ok := RunEach(hs, hs, Everyone(|hs|), build, cluster);
  }

  // ---------------------------------------------------------------- reloading

  lemma ReadySnoc(hs: seq<Host>, vs: seq<EtcdHost>, i: nat, ready: seq<Host>)
    requires i < |hs| == |vs| && At(hs, Ready(vs[..i]), ready)
    ensures At(hs, Ready(vs[..i + 1]), if vs[i].toAdd then ready else ready + [hs[i]])
  {
    assert vs[..i + 1][..i] == vs[..i];
  }

  lemma PeersAtReady(hs: seq<Host>, vs: seq<EtcdHost>, at: seq<nat>, sub: seq<Host>)
    requires At(hs, at, sub) && |hs| == |vs| && forall i :: 0 <= i < |hs| ==> vs[i].peer == PeerOf(hs[i])
    ensures PeersOf(sub) == PeersAt(vs, at)
  {
  }

  /** The flags once the collecting loop has seen `i` hosts. */
  ghost predicate MarkedTo(hs: seq<Host>, vs: seq<EtcdHost>, i: nat)
    reads hs
  {
    |hs| == |vs| &&
    forall j :: 0 <= j < |hs| ==>
      hs[j].toAddEtcdMember == vs[j].toAdd && hs[j].existingEtcdCluster == (vs[j].existing || (j < i && !vs[j].toAdd))
  }

  method CollectOne(hs: seq<Host>, i: nat, ready: seq<Host>, ghost vs: seq<EtcdHost>) returns (more: seq<Host>)
    requires Separate(hs) && i < |hs| && MarkedTo(hs, vs, i)
    modifies hs`existingEtcdCluster
    ensures MarkedTo(hs, vs, i + 1) && more == if vs[i].toAdd then ready else ready + [hs[i]]
  {
    more := ready;
    if !hs[i].toAddEtcdMember {
      more := ready + [hs[i]];
      hs[i].existingEtcdCluster := true;
    }
  }

  /** etcd.go:168-174: collect the hosts that are members and mark them. */
  method CollectReady(hs: seq<Host>) returns (ready: seq<Host>)
    requires Separate(hs)
    modifies hs`existingEtcdCluster
    ensures At(hs, Ready(old(Views(hs))), ready)
    ensures Views(hs) == MarkReady(old(Views(hs)))
  {
    ghost var vs := Views(hs);
    ready := [];
    for i := 0 to |hs|
      invariant MarkedTo(hs, vs, i) && At(hs, Ready(vs[..i]), ready)
    {
      ReadySnoc(hs, vs, i, ready);
      ready := CollectOne(hs, i, ready, vs);
    }
    assert vs[..|hs|] == vs;
    CollectedAll(hs, vs);
  }

  lemma CollectedAll(hs: seq<Host>, vs: seq<EtcdHost>)
    requires MarkedTo(hs, vs, |hs|)
    requires forall j :: 0 <= j < |hs| ==> vs[j].peer == PeerOf(hs[j]) && vs[j].daemon == hs[j].client.D()
    ensures Views(hs) == MarkReady(vs)
  {
    assert forall j :: 0 <= j < |hs| ==> View(hs[j]) == MarkReady(vs)[j];
  }

  /** etcd.go:168-175 */
  method CollectAndJoin(hs: seq<Host>) returns (ready: seq<Host>, cluster: string)
    requires Separate(hs)
    modifies hs`existingEtcdCluster
    ensures At(hs, Ready(old(Views(hs))), ready) && PeersOf(ready) == ReadyPeers(old(Views(hs)))
    ensures cluster == InitialCluster(ReadyPeers(old(Views(hs)))) && Views(hs) == MarkReady(old(Views(hs)))
  {
    ghost var vs := Views(hs);
    ready := CollectReady(hs);
    PeersAtReady(hs, vs, Ready(vs), ready);
    cluster := GetEtcdInitialCluster(ready);
  }

  method ReloadEtcdCluster(hs: seq<Host>, build: Builder, api: MembersApi) returns (ok: bool)
    requires Separate(hs)
    modifies hs`existingEtcdCluster, Clients(hs), api
    ensures (State(Views(hs), api.E()), ok) == Reload(old(State(Views(hs), api.E())), build)
  {
    ghost var s := State(Views(hs), api.E());
    var ready, cluster := CollectAndJoin(hs);
    ghost var e := s.etcd.Pass(Reloading(ReadyPeers(s.hosts)));
    ok := RunReloaded(hs, ready, Ready(s.hosts), build, cluster, api);
    ReloadSteps(s, build, e, State(Views(hs), api.E()), ok);
  }

  /** A reload put together from its parts. */
  lemma ReloadSteps(s: State, build: Builder, e: Etcd, r: State, ok: bool)
    requires e == s.etcd.Pass(Reloading(ReadyPeers(s.hosts)))
    requires Reloaded(MarkReady(s.hosts), e, Ready(s.hosts), build, InitialCluster(ReadyPeers(s.hosts)), r, ok)
    ensures (r, ok) == Reload(s, build)
  {
  }

  /** The containers at `at` were run and, if that went well, asked for their health. */
  ghost predicate Reloaded(hs: seq<EtcdHost>, e: Etcd, at: seq<nat>, build: Builder, cluster: string, r: State,
                           ok: bool)
    requires forall i :: 0 <= i < |at| ==> at[i] < |hs|
  {
    var (vs, ran) := RunEtcds(hs, at, build, cluster);
    r.hosts == vs && (if ran then (r.etcd, ok) == AnyHealthy(e, |at|) else r.etcd == e && !ok)
  }

  /** etcd.go:175-192 */
  method RunReloaded(ghost hs: seq<Host>, ready: seq<Host>, ghost at: seq<nat>, build: Builder, cluster: string,
                     api: MembersApi)
    returns (ok: bool)
    requires Separate(hs) && At(hs, at, ready)
    modifies Clients(hs), api
    ensures Reloaded(old(Views(hs)), old(api.E()).Pass(Reloading(PeersOf(ready))), at, build, cluster,
                     State(Views(hs), api.E()), ok)
  {
    api.Record(Reloading(PeersOf(ready)), api.members);
    ok := RunEach(hs, ready, at, build, cluster);
    if ok { ok := api.AnyHostHealthy(ready); }
  }

  // ---------------------------------------------------------------- reconciling

  /** Positions in `xs` of the hosts that are missing from `ys`. */
  function MissingAt(xs: seq<Host>, ys: seq<Host>): (r: seq<nat>)
    ensures forall k :: 0 <= k < |r| ==> r[k] < |xs|
  {
    if xs == [] then []
    else
      var n := |xs| - 1;
      if Listed(xs[n], ys) then MissingAt(xs[..n], ys) else MissingAt(xs[..n], ys) + [n]
  }

  lemma {:induction false} MissingAtMissing(xs: seq<Host>, ys: seq<Host>)
    ensures At(xs, MissingAt(xs, ys), Missing(xs, ys))
    ensures forall i :: i in MissingAt(xs, ys) <==> 0 <= i < |xs| && !Listed(xs[i], ys)
  {
    if xs != [] {
      var n := |xs| - 1;
      MissingAtMissing(xs[..n], ys);
      var r := MissingAt(xs[..n], ys);
      assert forall i :: i in r + [n] <==> i in r || i == n;
    }
  }

  /** `hs` with the add flag raised at these positions. */
  function Flagged(hs: seq<EtcdHost>, at: seq<nat>): (r: seq<EtcdHost>)
    ensures |r| == |hs|
    ensures forall i :: 0 <= i < |hs| ==> r[i] == if i in at then hs[i].(toAdd := true) else hs[i]
  {
    seq(|hs|, i requires 0 <= i < |hs| => if i in at then hs[i].(toAdd := true) else hs[i])
  }

  /** reconcile.go:174-187: flags and certificates, up to the first certificate that fails. */
  method FlagNew(ghost hs: seq<Host>, toAdd: seq<Host>, ghost at: seq<nat>, store: Pki.CertStore, signing: nat -> bool)
    returns (ok: bool, ghost done: nat)
    requires Separate(hs) && At(hs, at, toAdd)
    modifies hs`toAddEtcdMember, store
    ensures done <= |at| && (forall i :: 0 <= i < done ==> signing(i))
    ensures if ok then done == |at| else done < |at| && !signing(done)
    ensures store.entries == Pki.Issued(old(store.entries), toAdd[..done])
    ensures Views(hs) == Flagged(old(Views(hs)), if ok then at else at[..done + 1])
  {
    ghost var vs := Views(hs);
    assert forall h :: h in toAdd ==> h in hs;
    ok, done := Pki.RegenerateNewMembers(store, toAdd, signing);
    FlaggedViews(hs, vs, toAdd, at, Pki.Reached(ok, done));
    assert at[..|at|] == at;
  }

  /** Flags raised on objects are flags raised at their positions. */
  lemma FlaggedViews(hs: seq<Host>, vs: seq<EtcdHost>, toAdd: seq<Host>, at: seq<nat>, n: nat)
    requires Separate(hs) && At(hs, at, toAdd) && n <= |at| && |vs| == |hs|
    requires forall i :: 0 <= i < |hs| ==> View(hs[i]) == vs[i].(toAdd := hs[i].toAddEtcdMember)
    requires forall i :: 0 <= i < |hs| ==> (hs[i].toAddEtcdMember <==> vs[i].toAdd || hs[i] in toAdd[..n])
    ensures Views(hs) == Flagged(vs, at[..n])
  {
    forall i | 0 <= i < |hs| ensures hs[i] in toAdd[..n] <==> i in at[..n] {
      if i in at[..n] {
        var k :| 0 <= k < n && at[k] == i;
        assert toAdd[..n][k] == hs[i];
      }
      if hs[i] in toAdd[..n] {
        var k :| 0 <= k < n && toAdd[k] == hs[i];
        assert at[..n][k] == i;
      }
    }
  }

  /** reconcile.go:190-202 */
  method AddOne(hs: seq<Host>, etcdHost: Host, ghost i: nat, build: Builder, api: MembersApi) returns (ok: bool)
    requires Separate(hs) && i < |hs| && hs[i] == etcdHost
    modifies hs`toAddEtcdMember, hs`existingEtcdCluster, Clients(hs), api
    ensures (State(Views(hs), api.E()), ok) == AddHost(old(State(Views(hs), api.E())), i, build)
  {
    ghost var vs := Views(hs);
    ok := api.Call();
    if !ok { return; }
    ok := api.AddEtcdMember(etcdHost, hs);
    if !ok { return; }
    etcdHost.toAddEtcdMember := false;
    assert Views(hs) == vs[i := vs[i].(toAdd := false)];
    ok := ReloadEtcdCluster(hs, build, api);
  }

  method AddEach(hs: seq<Host>, toAdd: seq<Host>, ghost at: seq<nat>, build: Builder, api: MembersApi)
    returns (ok: bool)
    requires Separate(hs) && At(hs, at, toAdd)
    modifies hs`toAddEtcdMember, hs`existingEtcdCluster, Clients(hs), api
    ensures (State(Views(hs), api.E()), ok) == AddHosts(old(State(Views(hs), api.E())), at, build)
  {
    ghost var all := AddHosts(State(Views(hs), api.E()), at, build);
    assert at[0..] == at;
    for k := 0 to |toAdd|
      invariant all == AddHosts(State(Views(hs), api.E()), at[k..], build)
    {
      assert at[k..][1..] == at[k + 1..];
      ok := AddOne(hs, toAdd[k], at[k], build, api);
      if !ok { return; }
    }
    return true;
  }

  /** reconcile.go:155-160: a removal that fails is skipped. */
  method RemoveEach(toDelete: seq<Host>, hs: seq<Host>, api: MembersApi)
    modifies api
    ensures api.E() == RemoveHosts(old(api.E()), MemberNames(PeersOf(toDelete)), |hs|)
  {
    ghost var names := MemberNames(PeersOf(toDelete));
    ghost var all := RemoveHosts(api.E(), names, |hs|);
    assert names[0..] == names;
    for k := 0 to |toDelete|
      invariant all == RemoveHosts(api.E(), names[k..], |hs|)
    {
      assert names[k..][1..] == names[k + 1..] && names[k..][0] == MemberName(PeerOf(toDelete[k]));
      var _ := api.RemoveEtcdMember(toDelete[k], hs);
    }
  }

  /** What flagging the new hosts of the two lists did: `done` certificates were made. */
  ghost predicate FlaggedTo(currentHosts: seq<Host>, configHosts: seq<Host>, signing: nat -> bool, ok: bool, done: nat,
                            was: map<string, Pki.Certificate>, now: map<string, Pki.Certificate>)
  {
    var todo, toAdd := MissingAt(configHosts, currentHosts), Missing(configHosts, currentHosts);
    done <= |todo| == |toAdd| && (forall i :: 0 <= i < done ==> signing(i)) &&
    (if ok then done == |todo| else done < |todo| && !signing(done)) && now == Pki.Issued(was, toAdd[..done])
  }

  method FlagMissing(currentHosts: seq<Host>, configHosts: seq<Host>, store: Pki.CertStore, signing: nat -> bool)
    returns (ok: bool, toAdd: seq<Host>, ghost done: nat)
    requires Separate(configHosts)
    modifies configHosts`toAddEtcdMember, store
    ensures At(configHosts, MissingAt(configHosts, currentHosts), toAdd)
    ensures FlaggedTo(currentHosts, configHosts, signing, ok, done, old(store.entries), store.entries)
    ensures var todo := MissingAt(configHosts, currentHosts);
            Views(configHosts) == Flagged(old(Views(configHosts)), if ok then todo else todo[..done + 1])
  {
    toAdd := GetToAddHosts(currentHosts, configHosts);
    ghost var todo := MissingAt(configHosts, currentHosts);
    assert At(configHosts, todo, toAdd) by { MissingAtMissing(configHosts, currentHosts); }
    ok, done := FlagNew(configHosts, toAdd, todo, store, signing);
  }

  /** From `s` the hosts at `todo` were flagged and added or, when a certificate failed, only flagged up
      to the one it failed for. */
  ghost predicate AddedTo(s: State, todo: seq<nat>, build: Builder, signed: bool, done: nat, r: State, ok: bool) {
    (forall k :: 0 <= k < |todo| ==> todo[k] < |s.hosts|) &&
    if signed then (r, ok) == AddHosts(State(Flagged(s.hosts, todo), s.etcd), todo, build)
    else done < |todo| && !ok && r == State(Flagged(s.hosts, todo[..done + 1]), s.etcd)
  }

  /** The same after removals. */
  ghost predicate ReconciledTo(s: State, gone: seq<string>, todo: seq<nat>, build: Builder, signed: bool, done: nat,
                               r: State, ok: bool)
  {
    (forall k :: 0 <= k < |todo| ==> todo[k] < |s.hosts|) &&
    if signed then (r, ok) == ReconcileEtcd(State(Flagged(s.hosts, todo), s.etcd), gone, todo, build)
    else done < |todo| && !ok && r == State(Flagged(s.hosts, todo[..done + 1]), RemoveHosts(s.etcd, gone, |s.hosts|))
  }

  lemma AddedAfterRemovals(s: State, gone: seq<string>, todo: seq<nat>, build: Builder, signed: bool, done: nat,
                           r: State, ok: bool)
    requires AddedTo(State(s.hosts, RemoveHosts(s.etcd, gone, |s.hosts|)), todo, build, signed, done, r, ok)
    ensures ReconciledTo(s, gone, todo, build, signed, done, r, ok)
  {
  }

  /** reconcile.go:171-202 */
  method AddNew(currentHosts: seq<Host>, configHosts: seq<Host>, build: Builder, api: MembersApi,
                store: Pki.CertStore, signing: nat -> bool) returns (ok: bool, ghost signed: bool, ghost done: nat)
    requires Separate(configHosts)
    modifies configHosts`toAddEtcdMember, configHosts`existingEtcdCluster, Clients(configHosts), api, store
    ensures FlaggedTo(currentHosts, configHosts, signing, signed, done, old(store.entries), store.entries)
    ensures AddedTo(old(State(Views(configHosts), api.E())), MissingAt(configHosts, currentHosts), build, signed, done,
                    State(Views(configHosts), api.E()), ok)
  {
    var toAdd;
    ok, toAdd, done := FlagMissing(currentHosts, configHosts, store, signing);
    signed := ok;
    if !ok { return; }
    ok := AddEach(configHosts, toAdd, MissingAt(configHosts, currentHosts), build, api);
  }

  /** reconcile.go:149-205.  Where every certificate can be made the whole is the specified reconcile;
      otherwise the removals are done, the hosts reached are flagged and nothing is added. */
  method ReconcileEtcdPlane(currentHosts: seq<Host>, configHosts: seq<Host>, build: Builder, api: MembersApi,
                            store: Pki.CertStore, signing: nat -> bool)
    returns (ok: bool, ghost signed: bool, ghost done: nat)
    requires Separate(configHosts)
    modifies configHosts`toAddEtcdMember, configHosts`existingEtcdCluster, Clients(configHosts), api, store
    ensures FlaggedTo(currentHosts, configHosts, signing, signed, done, old(store.entries), store.entries)
    ensures ReconciledTo(old(State(Views(configHosts), api.E())),
                         MemberNames(PeersOf(Missing(currentHosts, configHosts))),
                         MissingAt(configHosts, currentHosts), build, signed, done,
                         State(Views(configHosts), api.E()), ok)
  {
    var toDelete := GetToDeleteHosts(currentHosts, configHosts);
    ghost var s := State(Views(configHosts), api.E());
    RemoveEach(toDelete, configHosts, api);
    assert Views(configHosts) == s.hosts;
    ok, signed, done := AddNew(currentHosts, configHosts, build, api, store, signing);
    AddedAfterRemovals(s, MemberNames(PeersOf(toDelete)), MissingAt(configHosts, currentHosts), build, signed, done,
                       State(Views(configHosts), api.E()), ok);
  }

  /** A host that both lists have is never removed: its member is in the list after every call. */
  lemma KeptHostStays(currentHosts: seq<Host>, configHosts: seq<Host>, h: Host, s: State, build: Builder, m: Member)
    requires h in currentHosts && Listed(h, configHosts) && |s.hosts| == |configHosts|
    requires forall i :: 0 <= i < |currentHosts| && currentHosts[i].hostnameOverride == h.hostnameOverride ==>
               currentHosts[i].address == h.address
    requires s.etcd.Valid() && m in s.etcd.members && m.name == MemberName(PeerOf(h))
    ensures var todo := MissingAt(configHosts, currentHosts);
            var gone := MemberNames(PeersOf(Missing(currentHosts, configHosts)));
            KeepsMember(s.etcd, ReconcileEtcd(s, gone, todo, build).0.etcd, m)
  {
    var gone := Missing(currentHosts, configHosts);
    MissingMembers(currentHosts, configHosts);
    forall k | 0 <= k < |gone| ensures MemberNames(PeersOf(gone))[k] != m.name {
      PrefixCancels("etcd-", gone[k].hostnameOverride, h.hostnameOverride);
      assert gone[k] in currentHosts && !Listed(gone[k], configHosts);
    }
    KeptMembersStay(s, MemberNames(PeersOf(gone)), MissingAt(configHosts, currentHosts), build, m);
  }
}
