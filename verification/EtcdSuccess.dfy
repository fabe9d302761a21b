/** When the etcd operations succeed: exact conditions on the answers to their calls, and that a reconcile
    whose calls all go well adds every new member (services/etcd.go:106-193, cluster/reconcile.go:149-205). */
module EtcdSuccess {
  import opened Text
  import opened Docker
  import opened Services
  import opened Quiet
  import opened Membership
  import opened EtcdReconcile
  import opened EtcdReload

  // ---------------------------------------------------------------- adding a member

  /** The call that begins the turn of endpoint `i` when the ones before it failed: an add dials, then
      adds. */
  function AddTurn(e: Etcd, i: nat): nat {
    if i == 0 then e.calls
    else
      var t := AddTurn(e, i - 1);
      t + if e.replies(t) == Good then 2 else 1
  }

  /** Endpoint `i` answers both calls of its turn. */
  predicate Adds(e: Etcd, i: nat) { e.replies(AddTurn(e, i)) == Good && e.replies(AddTurn(e, i) + 1) == Good }

  lemma {:induction false} AddTurnShift(e: Etcd, f: Etcd, i: nat)
    requires f.replies == e.replies && f.calls == AddTurn(e, 1)
    ensures AddTurn(f, i) == AddTurn(e, i + 1)
  {
    if i > 0 { AddTurnShift(e, f, i - 1); }
  }

  /** etcd.go:110-129: an add succeeds exactly when some endpoint answers both its calls. */
  lemma {:induction false} AddSucceeds(e: Etcd, n: nat, peer: string)
    ensures AddMember(e, n, peer).1 <==> exists i :: 0 <= i < n && Adds(e, i)
    decreases n
  {
    if n > 0 {
      var c := e.Pass(Called);
      if Adds(e, 0) {
        assert AddMember(e, n, peer).1;
      } else {
        var f := if e.Answers() then c.Pass(AddTried) else c;
        AddSucceeds(f, n - 1, peer);
        assert AddMember(e, n, peer) == AddMember(f, n - 1, peer);
        assert f.calls == AddTurn(e, 1);
        forall i: nat ensures Adds(f, i) <==> Adds(e, i + 1) { AddTurnShift(e, f, i); }
        if exists i :: 0 <= i < n && Adds(e, i) {
          var i :| 0 <= i < n && Adds(e, i);
          assert Adds(f, i - 1);
        }
      }
    }
  }

  // ---------------------------------------------------------------- removing a member

  /** The same for a removal: it dials, lists, then removes. */
  function RemoveTurn(e: Etcd, i: nat): nat {
    if i == 0 then e.calls
    else
      var t := RemoveTurn(e, i - 1);
      t + if e.replies(t) != Good then 1 else if e.replies(t + 1) != Good then 2 else 3
  }

  predicate Removes(e: Etcd, i: nat) {
    var t := RemoveTurn(e, i);
    e.replies(t) == Good && e.replies(t + 1) == Good && e.replies(t + 2) == Good
  }

  lemma {:induction false} RemoveTurnShift(e: Etcd, f: Etcd, i: nat)
    requires f.replies == e.replies && f.calls == RemoveTurn(e, 1)
    ensures RemoveTurn(f, i) == RemoveTurn(e, i + 1)
  {
    if i > 0 { RemoveTurnShift(e, f, i - 1); }
  }

  predicate HasMember(ms: seq<Member>, name: string) { exists i :: 0 <= i < |ms| && ms[i].name == name }

  /** The search stops at the first member of that name and otherwise keeps what was known. */
  lemma {:induction false} FindIdFirst(ms: seq<Member>, name: string, before: MaybeId)
    ensures if HasMember(ms, name) then
              exists i :: 0 <= i < |ms| && ms[i].name == name && FindId(ms, name, before) == Id(ms[i].id) &&
                forall j :: 0 <= j < i ==> ms[j].name != name
            else FindId(ms, name, before) == before
  {
    if ms != [] {
      FindIdFirst(ms[1..], name, before);
      if ms[0].name != name {
        if HasMember(ms, name) {
          var k :| 0 <= k < |ms| && ms[k].name == name;
          assert ms[1..][k - 1].name == name;
          var i :| 0 <= i < |ms[1..]| && ms[1..][i].name == name &&
                   FindId(ms[1..], name, before) == Id(ms[1..][i].id) &&
            forall j :: 0 <= j < i ==> ms[1..][j].name != name;
          forall j | 0 <= j < i + 1 ensures ms[j].name != name {
            if j > 0 { assert ms[1..][j - 1].name != name; }
          }
          assert ms[i + 1].name == name;
        }
      }
    }
  }

  lemma MemberFound(e: Etcd, name: string, mid: MaybeId)
    requires mid == NoId || mid == FindId(e.members, name, NoId)
    ensures var found := FindId(e.members, name, mid);
            (found.Id? && found.id in Ids(e.members) <==> HasMember(e.members, name)) &&
            found == FindId(e.members, name, NoId)
  {
    FindIdFirst(e.members, name, mid);
    FindIdFirst(e.members, name, NoId);
    if HasMember(e.members, name) {
      var i :| 0 <= i < |e.members| && e.members[i].name == name &&
               FindId(e.members, name, mid) == Id(e.members[i].id) &&
        forall j :: 0 <= j < i ==> e.members[j].name != name;
      assert e.members[i] in e.members;
    }
  }

  /** After a turn in which nothing was removed. */
  function AfterTurn(e: Etcd): Etcd {
    var c := e.Pass(Called);
    var l := c.Pass(Called);
    if !e.Answers() then c else if !c.Answers() then l else l.Pass(Called)
  }

  function Known(e: Etcd, name: string, mid: MaybeId): MaybeId {
    if e.Answers() && e.Pass(Called).Answers() then FindId(e.members, name, mid) else mid
  }

  lemma FailedTurn(e: Etcd, n: nat, name: string, mid: MaybeId)
    requires n > 0 && (mid == NoId || mid == FindId(e.members, name, NoId))
    requires !(HasMember(e.members, name) && Removes(e, 0))
    ensures RemoveMember(e, n, name, mid) == RemoveMember(AfterTurn(e), n - 1, name, Known(e, name, mid))
    ensures AfterTurn(e).calls == RemoveTurn(e, 1)
  {
    MemberFound(e, name, mid);
  }

  lemma ShiftedTurns(e: Etcd, f: Etcd, n: nat)
    requires n > 0 && !Removes(e, 0) && f.replies == e.replies && f.calls == RemoveTurn(e, 1)
    ensures (exists i :: 0 <= i < n && Removes(e, i)) <==> exists i :: 0 <= i < n - 1 && Removes(f, i)
  {
    forall i: nat ensures Removes(f, i) <==> Removes(e, i + 1) { RemoveTurnShift(e, f, i); }
    if i :| 0 <= i < n && Removes(e, i) { assert Removes(f, i - 1); }
  }

  /** etcd.go:135-165: a removal succeeds exactly when a member has the name and some endpoint answers all
      three calls. */
  lemma {:induction false} RemoveSucceeds(e: Etcd, n: nat, name: string, mid: MaybeId)
    requires mid == NoId || mid == FindId(e.members, name, NoId)
    ensures RemoveMember(e, n, name, mid).1 <==> HasMember(e.members, name) && exists i :: 0 <= i < n && Removes(e, i)
    decreases n
  {
    if n > 0 {
      MemberFound(e, name, mid);
      if HasMember(e.members, name) && Removes(e, 0) {
        assert RemoveMember(e, n, name, mid).1;
      } else {
        FailedTurn(e, n, name, mid);
        RemoveSucceeds(AfterTurn(e), n - 1, name, Known(e, name, mid));
        if HasMember(e.members, name) { ShiftedTurns(e, AfterTurn(e), n); }
      }
    }
  }

  // ---------------------------------------------------------------- the health loop

  /** No answer to these calls is good. */
  ghost predicate NoGood(replies: nat -> Reply, from: nat, to: nat) {
    forall u :: from <= u < to ==> replies(u) != Good
  }

  lemma {:induction false} ProbeAnswers(e: Etcd, tries: nat)
    ensures var (r, ok) := Membership.Probe(e, tries);
            e.calls <= r.calls <= e.calls + tries && r.replies == e.replies && (tries > 0 ==> e.calls < r.calls) &&
            (ok ==> e.calls < r.calls && e.replies(r.calls - 1) == Good && NoGood(e.replies, e.calls, r.calls - 1)) &&
            (!ok ==> NoGood(e.replies, e.calls, r.calls))
    decreases tries
  {
    if tries > 0 && e.replies(e.calls) == Bad { ProbeAnswers(e.Pass(Probed(false)), tries - 1); }
  }

  /** Calls `begin` to `end` asked `n` hosts, each at most three times, until the first good answer: there was
      one, the last, or no answer was good and each host was asked. */
  ghost predicate Asked(replies: nat -> Reply, begin: nat, end: nat, n: nat, ok: bool) {
    begin <= end <= begin + 3 * n &&
    (ok ==> begin < end && replies(end - 1) == Good && NoGood(replies, begin, end - 1)) &&
    (!ok ==> begin + n <= end && NoGood(replies, begin, end))
  }

  /** etcd.go:183-191: the loop over the ready hosts ends at the first good answer; it fails only after
      each of them was asked, at most three times, and none of the answers was good. */
  lemma {:induction false} AnyHealthyExactly(e: Etcd, n: nat)
    ensures var (r, ok) := AnyHealthy(e, n);
            r.replies == e.replies && Asked(e.replies, e.calls, r.calls, n, ok)
    decreases n
  {
    if n > 0 {
      ProbeAnswers(e, 3);
      AnyHealthyExactly(Membership.Probe(e, 3).0, n - 1);
    }
  }

  /** etcd.go:167-193: a reload checks health only after every ready host's container was run; it succeeds with
      the first good answer and fails when a run does or no answer is good. */
  lemma ReloadExactly(s: State, build: Builder)
    ensures var (r, ok) := Reload(s, build);
            var hs, at, cluster := MarkReady(s.hosts), Ready(s.hosts), InitialCluster(ReadyPeers(s.hosts));
            Increasing(at, |hs|) &&
            if RunsUpTo(hs, at, |at|, build, cluster)
            then Asked(s.etcd.replies, s.etcd.calls + 1, r.etcd.calls, |at|, ok)
            else !ok && r.etcd.calls == s.etcd.calls + 1
  {
    var hs, at, cluster := MarkReady(s.hosts), Ready(s.hosts), InitialCluster(ReadyPeers(s.hosts));
    ReadyExactly(s.hosts);
    RunEtcdsSucceeds(hs, at, build, cluster);
    AnyHealthyExactly(s.etcd.Pass(Reloading(ReadyPeers(s.hosts))), |at|);
  }

  // ---------------------------------------------------------------- a reconcile that goes well

  /** From now on every call is answered. */
  ghost predicate AllGood(e: Etcd) { forall n :: e.calls <= n ==> e.replies(n) == Good }

  /** No Docker call is going to fail, and no leftover of an update is in the way. */
  ghost predicate Unhindered(hs: seq<EtcdHost>) {
    forall i :: 0 <= i < |hs| ==> hs[i].daemon.Quiet() && OldName(ETCD) !in hs[i].daemon.containers
  }

  lemma {:induction false} GoodRuns(hs: seq<EtcdHost>, at: seq<nat>, build: Builder, cluster: string)
    requires Unhindered(hs) && forall i :: 0 <= i < |at| ==> at[i] < |hs|
    ensures RunEtcds(hs, at, build, cluster).1 && Unhindered(RunEtcds(hs, at, build, cluster).0)
    decreases |at|
  {
    if at != [] {
      var h := hs[at[0]];
      var cfg := ConfigFor(h, build, cluster);
      QuietRun(h.daemon, ETCD, cfg, false);
      RunLeavesNoOld(h.daemon.containers, h.daemon.calls, ETCD, cfg, ETCD);
      var d := RunContainer(h.daemon, ETCD, cfg).0;
      GoodRuns(hs[at[0] := h.(daemon := d)], at[1..], build, cluster);
    }
  }

  lemma GoodReload(s: State, build: Builder)
    requires AllGood(s.etcd) && Unhindered(s.hosts) && exists i :: 0 <= i < |s.hosts| && !s.hosts[i].toAdd
    ensures var (r, ok) := Reload(s, build); ok && AllGood(r.etcd) && Unhindered(r.hosts)
  {
    ReadyExactly(s.hosts);
    assert |Ready(s.hosts)| > 0 by {
      var i :| 0 <= i < |s.hosts| && !s.hosts[i].toAdd;
      assert i in Ready(s.hosts);
    }
    GoodRuns(MarkReady(s.hosts), Ready(s.hosts), build, InitialCluster(ReadyPeers(s.hosts)));
    AnyHealthyExactly(s.etcd.Pass(Reloading(ReadyPeers(s.hosts))), |Ready(s.hosts)|);
  }

  lemma GoodAdd(s: State, i: nat, build: Builder)
    requires AllGood(s.etcd) && Unhindered(s.hosts) && i < |s.hosts|
    ensures var (r, ok) := AddHost(s, i, build); ok && AllGood(r.etcd) && Unhindered(r.hosts)
  {
    var e := s.etcd.Pass(Called);
    var url := PeerUrl(s.hosts[i].peer.address);
    assert Adds(e, 0);
    AddSucceeds(e, |s.hosts|, url);
    AddContinues(e, |s.hosts|, url);
    var t := State(s.hosts[i := s.hosts[i].(toAdd := false)], AddMember(e, |s.hosts|, url).0);
    assert !t.hosts[i].toAdd;
    GoodReload(t, build);
  }

  lemma {:induction false} GoodAdds(s: State, todo: seq<nat>, build: Builder)
    requires AllGood(s.etcd) && Unhindered(s.hosts) && forall k :: 0 <= k < |todo| ==> todo[k] < |s.hosts|
    ensures AddHosts(s, todo, build).1
    decreases |todo|
  {
    if todo != [] {
      GoodAdd(s, todo[0], build);
      GoodAdds(AddHost(s, todo[0], build).0, todo[1..], build);
    }
  }

  /** reconcile.go:149-205: a reconcile whose calls all go well succeeds. */
  lemma GoodReconcileSucceeds(s: State, gone: seq<string>, todo: seq<nat>, build: Builder)
    requires AllGood(s.etcd) && Unhindered(s.hosts) && forall k :: 0 <= k < |todo| ==> todo[k] < |s.hosts|
    ensures ReconcileEtcd(s, gone, todo, build).1
  {
    RemoveHostsContinue(s.etcd, gone, |s.hosts|);
    GoodAdds(s.(etcd := RemoveHosts(s.etcd, gone, |s.hosts|)), todo, build);
  }

  function PeersOfMembers(ms: seq<Member>): (r: seq<string>)
    ensures |r| == |ms| && forall i :: 0 <= i < |ms| ==> r[i] == ms[i].peer
  {
    seq(|ms|, i requires 0 <= i < |ms| => ms[i].peer)
  }

  function UrlsAt(hs: seq<EtcdHost>, todo: seq<nat>): (r: seq<string>)
    requires forall k :: 0 <= k < |todo| ==> todo[k] < |hs|
    ensures |r| == |todo| && forall k :: 0 <= k < |todo| ==> r[k] == PeerUrl(hs[todo[k]].peer.address)
  {
    seq(|todo|, k requires 0 <= k < |todo| => PeerUrl(hs[todo[k]].peer.address))
  }

  /** From `s` to `r` exactly the peers of these hosts were appended, in order; the hosts kept theirs. */
  ghost predicate Appended(s: State, todo: seq<nat>, r: State)
    requires forall k :: 0 <= k < |todo| ==> todo[k] < |s.hosts|
  {
    PeersOfMembers(r.etcd.members) == PeersOfMembers(s.etcd.members) + UrlsAt(s.hosts, todo) &&
    |r.hosts| == |s.hosts| && forall j :: 0 <= j < |s.hosts| ==> r.hosts[j].peer == s.hosts[j].peer
  }

  lemma AddAppends(s: State, i: nat, build: Builder)
    requires i < |s.hosts| && AddHost(s, i, build).1
    ensures Appended(s, [i], AddHost(s, i, build).0)
  {
    var r := AddHost(s, i, build).0;
    AddHostReloads(s, i, build);
    AddHostFlags(s, i, build);
    ClearFlags(s.hosts, [i]);
    assert OneMore(s.etcd.members, r.etcd.members, PeerUrl(s.hosts[i].peer.address));
  }

  lemma AppendedCompose(s: State, s': State, r: State, todo: seq<nat>)
    requires todo != [] && forall k :: 0 <= k < |todo| ==> todo[k] < |s.hosts|
    requires Appended(s, [todo[0]], s') && Appended(s', todo[1..], r)
    ensures Appended(s, todo, r)
  {
    UrlsCons(s.hosts, s'.hosts, todo);
    Regroup(PeersOfMembers(s.etcd.members), UrlsAt(s.hosts, [todo[0]]), UrlsAt(s'.hosts, todo[1..]));
  }

  lemma Regroup(a: seq<string>, b: seq<string>, c: seq<string>)
    ensures a + b + c == a + (b + c)
  {
  }

  lemma UrlsCons(hs: seq<EtcdHost>, hs': seq<EtcdHost>, todo: seq<nat>)
    requires |hs'| == |hs| && todo != [] && forall k :: 0 <= k < |todo| ==> todo[k] < |hs|
    requires forall j :: 0 <= j < |hs| ==> hs'[j].peer == hs[j].peer
    ensures UrlsAt(hs, todo) == UrlsAt(hs, [todo[0]]) + UrlsAt(hs', todo[1..])
  {
    var a, b, c := UrlsAt(hs, todo), UrlsAt(hs, [todo[0]]), UrlsAt(hs', todo[1..]);
    forall k | 0 <= k < |a| ensures a[k] == (b + c)[k] {
      if k > 0 { assert todo[1..][k - 1] == todo[k]; }
    }
  }

  /** A successful run of adds appended exactly the new hosts' peers, in order. */
  lemma {:induction false} AddsAppend(s: State, todo: seq<nat>, build: Builder)
    requires (forall k :: 0 <= k < |todo| ==> todo[k] < |s.hosts|) && AddHosts(s, todo, build).1
    ensures Appended(s, todo, AddHosts(s, todo, build).0)
    decreases |todo|
  {
    if todo != [] {
      var s' := AddHost(s, todo[0], build).0;
      AddAppends(s, todo[0], build);
      AddsAppend(s', todo[1..], build);
      AppendedCompose(s, s', AddHosts(s', todo[1..], build).0, todo);
    }
  }
}
