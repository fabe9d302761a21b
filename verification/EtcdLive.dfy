/** What the reloads announce, told of the two host lists of a reconcile: when membership started as the
    current hosts and every removal succeeded, each reload names exactly the live members
    (cluster/reconcile.go:149-203, services/etcd.go:131-193). */
module EtcdLive {
  import opened Text
  import opened Hosts
  import opened Membership
  import opened EtcdReconcile
  import opened EtcdReload
  import opened EtcdPlane

  // ---------------------------------------------------------------- successful removals

  /** Every one of these removals succeeds. */
  predicate AllRemoved(e: Etcd, names: seq<string>, endpoints: nat)
    decreases |names|
  {
    names == [] ||
    var (e', ok) := RemoveMember(e, endpoints, names[0], NoId);
    ok && AllRemoved(e', names[1..], endpoints)
  }

  ghost predicate DistinctNames(ms: seq<Member>) { forall a, b :: a in ms && b in ms && a.name == b.name ==> a == b }

  lemma {:induction false} WithoutNobody(ms: seq<Member>, id: nat)
    requires forall i :: 0 <= i < |ms| ==> ms[i].id != id
    ensures Without(ms, id) == ms
  {
    if ms != [] { WithoutNobody(ms[1..], id); }
  }

  lemma {:induction false} WithoutCount(ms: seq<Member>, id: nat)
    requires forall i, j :: 0 <= i < j < |ms| ==> ms[i].id != ms[j].id
    requires exists i :: 0 <= i < |ms| && ms[i].id == id
    ensures |Without(ms, id)| == |ms| - 1
  {
    if ms[0].id == id {
      WithoutNobody(ms[1..], id);
    } else {
      var i :| 0 <= i < |ms| && ms[i].id == id;
      assert ms[1..][i - 1].id == id;
      WithoutCount(ms[1..], id);
    }
  }

  lemma RemovesNamed(e: Etcd, endpoints: nat, name: string)
    requires e.Valid() && DistinctNames(e.members) && RemoveMember(e, endpoints, name, NoId).1
    ensures var ms := RemoveMember(e, endpoints, name, NoId).0.members;
            |ms| == |e.members| - 1 && forall m :: m in ms <==> m in e.members && m.name != name
  {
    RemoveEffect(e, endpoints, name, NoId);
    FindIdFinds(e.members, name);
    var id := FindId(e.members, name, NoId).id;
    WithoutMembers(e.members, id);
    WithoutCount(e.members, id);
  }

  lemma {:induction false} RemovesAllNamed(e: Etcd, names: seq<string>, endpoints: nat)
    requires e.Valid() && DistinctNames(e.members) && AllRemoved(e, names, endpoints)
    ensures var ms := RemoveHosts(e, names, endpoints).members;
            |ms| == |e.members| - |names| && forall m :: m in ms <==> m in e.members && m.name !in names
    decreases |names|
  {
    if names != [] {
      var e' := RemoveMember(e, endpoints, names[0], NoId).0;
      assert e'.Valid() by { RemoveContinues(e, endpoints, names[0], NoId); }
      RemovesNamed(e, endpoints, names[0]);
      RemovesAllNamed(e', names[1..], endpoints);
      assert names == [names[0]] + names[1..];
    }
  }

  ghost predicate RunsOn(m: Member, ps: seq<Peer>) {
    exists i :: 0 <= i < |ps| && m.name == MemberName(ps[i]) && m.peer == PeerUrl(ps[i].address)
  }

  ghost predicate Serves(p: Peer, ms: seq<Member>) {
    exists i :: 0 <= i < |ms| && ms[i].name == MemberName(p) && ms[i].peer == PeerUrl(p.address)
  }

  /** These members are the started etcd processes of these hosts, one each. */
  ghost predicate Hosted(ms: seq<Member>, ps: seq<Peer>) {
    |ms| == |ps| && (forall m :: m in ms ==> RunsOn(m, ps)) && (forall p :: p in ps ==> Serves(p, ms))
  }

  /** Removing all the hosts that are gone leaves exactly the members of the others. */
  lemma RemovalsLeaveTheRest(e: Etcd, gone: seq<Peer>, rest: seq<Peer>, endpoints: nat)
    requires e.Valid() && DistinctNames(e.members) && Hosted(e.members, gone + rest)
    requires forall g, p :: g in gone && p in rest ==> MemberName(g) != MemberName(p)
    requires AllRemoved(e, MemberNames(gone), endpoints)
    ensures Lists(RemoveHosts(e, MemberNames(gone), endpoints).members, rest)
  {
    RemovesAllNamed(e, MemberNames(gone), endpoints);
    RestHosted(e.members, RemoveHosts(e, MemberNames(gone), endpoints).members, gone, rest);
  }

  lemma RestHosted(ms: seq<Member>, ms': seq<Member>, gone: seq<Peer>, rest: seq<Peer>)
    requires Hosted(ms, gone + rest)
    requires forall g, p :: g in gone && p in rest ==> MemberName(g) != MemberName(p)
    requires forall m :: m in ms' <==> m in ms && m.name !in MemberNames(gone)
    ensures MemberUrls(ms') == Urls(rest)
  {
    forall m | m in ms' ensures m.peer in Urls(rest) {
      RunsOnRest(m, gone, rest);
    }
    forall p | p in rest ensures PeerUrl(p.address) in MemberUrls(ms') {
      assert Serves(p, ms);
      var i :| 0 <= i < |ms| && ms[i].name == MemberName(p) && ms[i].peer == PeerUrl(p.address);
      assert ms[i] in ms';
    }
  }

  lemma RunsOnRest(m: Member, gone: seq<Peer>, rest: seq<Peer>)
    requires RunsOn(m, gone + rest) && m.name !in MemberNames(gone)
    ensures m.peer in Urls(rest)
  {
    var ps := gone + rest;
    var i :| 0 <= i < |ps| && m.name == MemberName(ps[i]) && m.peer == PeerUrl(ps[i].address);
    assert i >= |gone|;
    assert ps[i] in rest;
  }

  // ---------------------------------------------------------------- one member per peer

  lemma {:induction false} UrlsCount(ps: seq<Peer>)
    requires forall i, j :: 0 <= i < j < |ps| ==> PeerUrl(ps[i].address) != PeerUrl(ps[j].address)
    ensures |Urls(ps)| == |ps|
  {
    if ps != [] {
      var n := |ps| - 1;
      UrlsCount(ps[..n]);
      assert ps == ps[..n] + [ps[n]];
      assert Urls(ps) == Urls(ps[..n]) + {PeerUrl(ps[n].address)};
    }
  }

  lemma MemberUrlsSnoc(ms: seq<Member>)
    requires ms != []
    ensures MemberUrls(ms) == MemberUrls(ms[..|ms| - 1]) + {ms[|ms| - 1].peer}
  {
    assert ms == ms[..|ms| - 1] + [ms[|ms| - 1]];
  }

  lemma {:induction false} MemberUrlsCount(ms: seq<Member>)
    ensures |MemberUrls(ms)| <= |ms|
  {
    if ms != [] {
      MemberUrlsCount(ms[..|ms| - 1]);
      MemberUrlsSnoc(ms);
    }
  }

  lemma {:induction false} DistinctByCount(ms: seq<Member>, i: nat, j: nat)
    requires |MemberUrls(ms)| == |ms| && i < j < |ms|
    ensures ms[i].peer != ms[j].peer
  {
    var n := |ms| - 1;
    MemberUrlsSnoc(ms);
    MemberUrlsCount(ms[..n]);
    if j < n {
      DistinctByCount(ms[..n], i, j);
    } else {
      assert ms[..n][i] in ms[..n];
    }
  }

  /** Announced peers with distinct addresses have one member each. */
  lemma OneMemberPerPeer(ms: seq<Member>, ps: seq<Peer>)
    requires Lists(ms, ps)
    requires forall i, j :: 0 <= i < j < |ps| ==> PeerUrl(ps[i].address) != PeerUrl(ps[j].address)
    ensures forall i, j :: 0 <= i < j < |ms| ==> ms[i].peer != ms[j].peer
    ensures forall k :: 0 <= k < |ps| ==> exists i :: 0 <= i < |ms| && ms[i].peer == PeerUrl(ps[k].address)
  {
    UrlsCount(ps);
    forall i, j | 0 <= i < j < |ms| ensures ms[i].peer != ms[j].peer {
      DistinctByCount(ms, i, j);
    }
    forall k | 0 <= k < |ps| ensures exists i :: 0 <= i < |ms| && ms[i].peer == PeerUrl(ps[k].address) {
      assert ps[k] in ps;
      assert PeerUrl(ps[k].address) in MemberUrls(ms);
    }
  }

  // ---------------------------------------------------------------- the two host lists

  ghost predicate DistinctAddresses(hs: seq<Host>) {
    forall i, j :: 0 <= i < j < |hs| ==> hs[i].address != hs[j].address
  }

  lemma {:induction false} AddressCount(hs: seq<Host>)
    requires DistinctAddresses(hs)
    ensures |Addresses(hs)| == |hs|
  {
    if hs != [] {
      var n := |hs| - 1;
      AddressCount(hs[..n]);
      assert hs == hs[..n] + [hs[n]];
      assert Addresses(hs) == Addresses(hs[..n]) + {hs[n].address};
    }
  }

  lemma {:induction false} MissingKeepsDistinct(xs: seq<Host>, ys: seq<Host>)
    requires DistinctAddresses(xs)
    ensures DistinctAddresses(Missing(xs, ys))
  {
    if xs != [] {
      var n := |xs| - 1;
      MissingKeepsDistinct(xs[..n], ys);
      MissingMembers(xs[..n], ys);
      var rest := Missing(xs[..n], ys);
      forall i | 0 <= i < |rest| ensures rest[i].address != xs[n].address {
        var j :| 0 <= j < n && xs[..n][j] == rest[i];
        assert xs[j] == rest[i];
      }
    }
  }

  /** As many current hosts are wanted as wanted hosts are current. */
  lemma SharedCount(xs: seq<Host>, ys: seq<Host>)
    requires DistinctAddresses(xs) && DistinctAddresses(ys)
    ensures |xs| - |Missing(xs, ys)| == |ys| - |Missing(ys, xs)|
  {
    MissingShare(xs, ys);
    MissingShare(ys, xs);
    assert Addresses(xs) * Addresses(ys) == Addresses(ys) * Addresses(xs);
  }

  lemma MissingShare(xs: seq<Host>, ys: seq<Host>)
    requires DistinctAddresses(xs)
    ensures |xs| - |Missing(xs, ys)| == |Addresses(xs) * Addresses(ys)|
  {
    MissingKeepsDistinct(xs, ys);
    MissingAddresses(xs, ys);
    AddressCount(xs);
    AddressCount(Missing(xs, ys));
    var a, b := Addresses(xs), Addresses(ys);
    assert a == (a - b) + a * b;
    assert |a| == |a - b| + |a * b|;
  }

  /** What the phase sees of the wanted hosts before it starts: nobody is flagged. */
  ghost predicate Fresh(cfg: seq<Host>, vs: seq<EtcdHost>) {
    |vs| == |cfg| && forall i :: 0 <= i < |cfg| ==> vs[i].peer == PeerOf(cfg[i]) && !vs[i].toAdd
  }

  /** The wanted hosts with the new ones flagged. */
  function NewFlagged(cur: seq<Host>, cfg: seq<Host>, vs: seq<EtcdHost>): (r: seq<EtcdHost>)
    ensures |r| == |vs|
  {
    Flagged(vs, MissingAt(cfg, cur))
  }

  lemma NewFlaggedPrefix(cur: seq<Host>, cfg: seq<Host>, vs: seq<EtcdHost>)
    requires cfg != [] && Fresh(cfg, vs)
    ensures var n := |cfg| - 1; var hs := NewFlagged(cur, cfg, vs);
            hs[..n] == NewFlagged(cur, cfg[..n], vs[..n]) && (hs[n].toAdd <==> !Listed(cfg[n], cur))
  {
    var n := |cfg| - 1;
    MissingAtMissing(cfg, cur);
    MissingAtMissing(cfg[..n], cur);
    forall i | 0 <= i < n ensures NewFlagged(cur, cfg, vs)[i] == NewFlagged(cur, cfg[..n], vs[..n])[i] {
      assert Listed(cfg[i], cur) <==> Listed(cfg[..n][i], cur);
    }
  }

  lemma {:induction false} ReadyCount(cur: seq<Host>, cfg: seq<Host>, vs: seq<EtcdHost>)
    requires Fresh(cfg, vs)
    ensures |Ready(NewFlagged(cur, cfg, vs))| == |cfg| - |Missing(cfg, cur)|
  {
    if cfg != [] {
      var n := |cfg| - 1;
      ReadyCount(cur, cfg[..n], vs[..n]);
      NewFlaggedPrefix(cur, cfg, vs);
      var hs := NewFlagged(cur, cfg, vs);
      assert |Ready(hs)| == |Ready(hs[..n])| + if hs[n].toAdd then 0 else 1;
    }
  }

  lemma ReadyHolds(hs: seq<EtcdHost>, p: Peer)
    ensures p in ReadyPeers(hs) <==> exists j :: 0 <= j < |hs| && !hs[j].toAdd && hs[j].peer == p
  {
    ReadyExactly(hs);
    var at, ps := Ready(hs), ReadyPeers(hs);
    if p in ps {
      var a :| 0 <= a < |ps| && ps[a] == p;
      assert at[a] in at;
    }
    if exists j :: 0 <= j < |hs| && !hs[j].toAdd && hs[j].peer == p {
      var j :| 0 <= j < |hs| && !hs[j].toAdd && hs[j].peer == p;
      assert j in at;
      var a :| 0 <= a < |at| && at[a] == j;
      assert ps[a] == p;
    }
  }

  /** The ready hosts are the wanted ones that are current already. */
  lemma ReadyListed(cur: seq<Host>, cfg: seq<Host>, vs: seq<EtcdHost>, p: Peer)
    requires Fresh(cfg, vs)
    ensures p in ReadyPeers(NewFlagged(cur, cfg, vs)) <==>
            exists j :: 0 <= j < |cfg| && Listed(cfg[j], cur) && PeerOf(cfg[j]) == p
  {
    var hs := NewFlagged(cur, cfg, vs);
    ReadyHolds(hs, p);
    assert forall j :: 0 <= j < |cfg| ==> (hs[j].toAdd <==> !Listed(cfg[j], cur)) && hs[j].peer == PeerOf(cfg[j]) by {
      MissingAtMissing(cfg, cur);
    }
  }

  /** Hosts that stay keep their name and internal address. */
  ghost predicate KeepPeers(cur: seq<Host>, cfg: seq<Host>) {
    forall i, j :: 0 <= i < |cur| && 0 <= j < |cfg| && cur[i].address == cfg[j].address ==>
      PeerOf(cur[i]) == PeerOf(cfg[j])
  }

  lemma CurrentIsGoneOrReady(cur: seq<Host>, cfg: seq<Host>, vs: seq<EtcdHost>, i: nat)
    requires Fresh(cfg, vs) && KeepPeers(cur, cfg) && i < |cur|
    ensures PeerOf(cur[i]) in PeersOf(Missing(cur, cfg)) + ReadyPeers(NewFlagged(cur, cfg, vs))
  {
    var gone := Missing(cur, cfg);
    if Listed(cur[i], cfg) {
      var j :| 0 <= j < |cfg| && cfg[j].address == cur[i].address;
      ReadyListed(cur, cfg, vs, PeerOf(cur[i]));
      assert Listed(cfg[j], cur) && PeerOf(cfg[j]) == PeerOf(cur[i]);
    } else {
      MissingMembers(cur, cfg);
      var k :| 0 <= k < |gone| && gone[k] == cur[i];
      assert PeersOf(gone)[k] == PeerOf(cur[i]);
    }
  }

  lemma GoneIsCurrent(cur: seq<Host>, cfg: seq<Host>, p: Peer) returns (i: nat)
    requires p in PeersOf(Missing(cur, cfg))
    ensures i < |cur| && PeerOf(cur[i]) == p && !Listed(cur[i], cfg)
  {
    var gone := Missing(cur, cfg);
    MissingMembers(cur, cfg);
    var k :| 0 <= k < |gone| && PeersOf(gone)[k] == p;
    i :| 0 <= i < |cur| && cur[i] == gone[k];
  }

  lemma ReadyIsCurrent(cur: seq<Host>, cfg: seq<Host>, vs: seq<EtcdHost>, p: Peer) returns (i: nat)
    requires Fresh(cfg, vs) && KeepPeers(cur, cfg) && p in ReadyPeers(NewFlagged(cur, cfg, vs))
    ensures i < |cur| && PeerOf(cur[i]) == p && Listed(cur[i], cfg)
  {
    ReadyListed(cur, cfg, vs, p);
    var j :| 0 <= j < |cfg| && Listed(cfg[j], cur) && PeerOf(cfg[j]) == p;
    i :| 0 <= i < |cur| && cur[i].address == cfg[j].address;
  }

  /** Members that run on the current hosts run on the ones that are gone and the ready ones. */
  lemma HostedSplit(cur: seq<Host>, cfg: seq<Host>, vs: seq<EtcdHost>, ms: seq<Member>)
    requires Fresh(cfg, vs) && KeepPeers(cur, cfg) && DistinctAddresses(cur) && DistinctAddresses(cfg)
    requires Hosted(ms, PeersOf(cur))
    ensures Hosted(ms, PeersOf(Missing(cur, cfg)) + ReadyPeers(NewFlagged(cur, cfg, vs)))
  {
    var gone, ready := PeersOf(Missing(cur, cfg)), ReadyPeers(NewFlagged(cur, cfg, vs));
    SharedCount(cur, cfg);
    ReadyCount(cur, cfg, vs);
    forall m | m in ms ensures RunsOn(m, gone + ready) {
      var i :| 0 <= i < |cur| && m.name == MemberName(PeersOf(cur)[i]) && m.peer == PeerUrl(PeersOf(cur)[i].address);
      CurrentIsGoneOrReady(cur, cfg, vs, i);
      var k :| 0 <= k < |gone + ready| && (gone + ready)[k] == PeerOf(cur[i]);
    }
    forall p | p in gone + ready ensures Serves(p, ms) {
      var i;
      if p in gone { i := GoneIsCurrent(cur, cfg, p); } else { i := ReadyIsCurrent(cur, cfg, vs, p); }
      assert PeersOf(cur)[i] in PeersOf(cur);
    }
  }

  /** No two current hosts have one name. */
  ghost predicate DistinctHostnames(hs: seq<Host>) {
    forall i, j :: 0 <= i < j < |hs| ==> hs[i].hostnameOverride != hs[j].hostnameOverride
  }

  lemma GoneNamesDiffer(cur: seq<Host>, cfg: seq<Host>, vs: seq<EtcdHost>, g: Peer, p: Peer)
    requires Fresh(cfg, vs) && KeepPeers(cur, cfg) && DistinctHostnames(cur)
    requires g in PeersOf(Missing(cur, cfg)) && p in ReadyPeers(NewFlagged(cur, cfg, vs))
    ensures MemberName(g) != MemberName(p)
  {
    var i := GoneIsCurrent(cur, cfg, g);
    var j := ReadyIsCurrent(cur, cfg, vs, p);
    assert i != j;
    PrefixCancels("etcd-", g.name, p.name);
  }

  lemma {:induction false} MissingAtDistinct(xs: seq<Host>, ys: seq<Host>)
    ensures forall k, l :: 0 <= k < l < |MissingAt(xs, ys)| ==> MissingAt(xs, ys)[k] < MissingAt(xs, ys)[l]
  {
    if xs != [] {
      var n := |xs| - 1;
      MissingAtDistinct(xs[..n], ys);
      var rest := MissingAt(xs[..n], ys);
      assert forall k :: 0 <= k < |rest| ==> rest[k] < n;
    }
  }

  lemma NewAwaited(cur: seq<Host>, cfg: seq<Host>, vs: seq<EtcdHost>)
    requires Fresh(cfg, vs)
    ensures Awaited(NewFlagged(cur, cfg, vs), MissingAt(cfg, cur))
  {
    MissingAtDistinct(cfg, cur);
    var todo := MissingAt(cfg, cur);
    forall k | 0 <= k < |todo| ensures NewFlagged(cur, cfg, vs)[todo[k]].toAdd {
      assert todo[k] in todo;
    }
  }

  /** The names to remove. */
  function GoneNames(cur: seq<Host>, cfg: seq<Host>): seq<string> { MemberNames(PeersOf(Missing(cur, cfg))) }

  /** When the adds begin the members are exactly the ready hosts. */
  lemma MatchedBeforeAdds(cur: seq<Host>, cfg: seq<Host>, vs: seq<EtcdHost>, e: Etcd)
    requires Fresh(cfg, vs) && KeepPeers(cur, cfg) && DistinctAddresses(cur) && DistinctAddresses(cfg) &&
             DistinctHostnames(cur)
    requires e.Valid() && DistinctNames(e.members) && Hosted(e.members, PeersOf(cur))
    requires AllRemoved(e, GoneNames(cur, cfg), |cfg|)
    ensures Matched(State(NewFlagged(cur, cfg, vs), RemoveHosts(e, GoneNames(cur, cfg), |cfg|)))
  {
    var gone, ready := PeersOf(Missing(cur, cfg)), ReadyPeers(NewFlagged(cur, cfg, vs));
    HostedSplit(cur, cfg, vs, e.members);
    forall g, p | g in gone && p in ready ensures MemberName(g) != MemberName(p) {
      GoneNamesDiffer(cur, cfg, vs, g, p);
    }
    RemovalsLeaveTheRest(e, gone, ready, |cfg|);
  }

  /** The entry names the hosts that are ready after the first `k` adds, in configuration order, and the
      live members are exactly these. */
  ghost predicate LiveNote(hs: seq<EtcdHost>, todo: seq<nat>, k: nat, note: Note)
    requires k <= |todo| && forall j :: 0 <= j < |todo| ==> todo[j] < |hs|
  {
    var peers := ReadyPeers(Clear(hs, todo[..k]));
    note.event == Reloading(peers) && Lists(note.members, peers)
  }

  /** The reload entries of the adds: the k-th is for the hosts that stay plus the first k new ones. */
  ghost predicate AnnouncesLive(start: State, todo: seq<nat>, end: State)
    requires forall j :: 0 <= j < |todo| ==> todo[j] < |start.hosts|
  {
    var past, now := Reloads(start.etcd.log), Reloads(end.etcd.log);
    |past| <= |now| <= |past| + |todo| && now[..|past|] == past &&
    var notes := now[|past|..];
    forall k :: 0 <= k < |notes| ==> LiveNote(start.hosts, todo, k + 1, notes[k])
  }

  lemma AnnouncedLive(start: State, todo: seq<nat>, end: State)
    requires forall j :: 0 <= j < |todo| ==> todo[j] < |start.hosts|
    requires Matched(start) && Awaited(start.hosts, todo) && Announced(start, todo, end)
    ensures AnnouncesLive(start, todo, end)
  {
    var past, now := Reloads(start.etcd.log), Reloads(end.etcd.log);
    var notes := now[|past|..];
    forall k | 0 <= k < |notes| ensures LiveNote(start.hosts, todo, k + 1, notes[k]) {
      assert Announces(start, todo, k + 1, notes[k]);
    }
  }

  /** reconcile.go:149-203 from the two host lists, as `ReconcileEtcdPlane` runs it. */
  lemma ReloadsAnnounceLiveMembers(cur: seq<Host>, cfg: seq<Host>, vs: seq<EtcdHost>, e: Etcd, build: Builder)
    requires Fresh(cfg, vs) && KeepPeers(cur, cfg) && DistinctAddresses(cur) && DistinctAddresses(cfg) &&
             DistinctHostnames(cur)
    requires e.Valid() && DistinctNames(e.members) && Hosted(e.members, PeersOf(cur))
    requires AllRemoved(e, GoneNames(cur, cfg), |cfg|)
    ensures var todo, hs := MissingAt(cfg, cur), Flagged(vs, MissingAt(cfg, cur));
            AnnouncesLive(State(hs, RemoveHosts(e, GoneNames(cur, cfg), |cfg|)), todo,
                          ReconcileEtcd(State(hs, e), GoneNames(cur, cfg), todo, build).0)
  {
    var todo, hs := MissingAt(cfg, cur), NewFlagged(cur, cfg, vs);
    var start := State(hs, RemoveHosts(e, GoneNames(cur, cfg), |cfg|));
    MatchedBeforeAdds(cur, cfg, vs, e);
    NewAwaited(cur, cfg, vs);
    ReloadsAnnounce(start, todo, build);
    AnnouncedLive(start, todo, AddHosts(start, todo, build).0);
  }
}
