/** Etcd membership changes (services/etcd.go:106-165, services/etcd_util.go:42-74): the live member
    list, the client calls that change it, and a log of every call.

    The answer to each call is part of the state, so a claim about every `Etcd` is a claim about
    every pattern of failures; a failed call has no effect.  The log holds the member list after
    each call. */
module Membership {
  import opened Text

  /** A member that was added but has not started yet has the empty name. */
  datatype Member = Member(id: nat, name: string, peer: string)

  datatype Reply = Good | Bad | NoDial

  datatype Event = Called | AddTried | Added | Removed | Probed(healthy: bool) | Reloading(peers: seq<Peer>)

  datatype Note = Note(event: Event, members: seq<Member>)

  datatype Etcd = Etcd(members: seq<Member>, calls: nat, replies: nat -> Reply, log: seq<Note>) {
    predicate Answers() { replies(calls) == Good }

    function Record(event: Event, ms: seq<Member>): Etcd { Etcd(ms, calls + 1, replies, log + [Note(event, ms)]) }

    function Pass(event: Event): Etcd { Record(event, members) }

    /** Member ids are distinct and already handed out. */
    ghost predicate Valid() {
      (forall i :: 0 <= i < |members| ==> members[i].id < calls) &&
      (forall i, j :: 0 <= i < j < |members| ==> members[i].id != members[j].id)
    }
  }

  function Ids(ms: seq<Member>): set<nat> { set m | m in ms :: m.id }

  function Without(ms: seq<Member>, id: nat): seq<Member> {
    if ms == [] then [] else if ms[0].id == id then Without(ms[1..], id) else [ms[0]] + Without(ms[1..], id)
  }

  // ---------------------------------------------------------------- the operations

  /** etcd.go:110-123: try `n` endpoints in turn. */
  function AddMember(e: Etcd, n: nat, peer: string): (Etcd, bool)
    decreases n
  {
    if n == 0 then (e, false)
    else if !e.Answers() then AddMember(e.Pass(Called), n - 1, peer)
    else
      var c := e.Pass(Called);
      if !c.Answers() then AddMember(c.Pass(AddTried), n - 1, peer)
      else (c.Record(Added, c.members + [Member(c.calls, "", peer)]), true)
  }

  datatype MaybeId = NoId | Id(id: nat)

  /** etcd.go:147-152: the first member with that name, else what an earlier endpoint reported. */
  function FindId(ms: seq<Member>, name: string, before: MaybeId): MaybeId {
    if ms == [] then before else if ms[0].name == name then Id(ms[0].id) else FindId(ms[1..], name, before)
  }

  /** etcd.go:135-159 */
  function RemoveMember(e: Etcd, n: nat, name: string, mid: MaybeId): (Etcd, bool)
    decreases n
  {
    if n == 0 then (e, false)
    else if !e.Answers() then RemoveMember(e.Pass(Called), n - 1, name, mid)
    else
      var c := e.Pass(Called);
      if !c.Answers() then RemoveMember(c.Pass(Called), n - 1, name, mid)
      else
        var l := c.Pass(Called);
        var found := FindId(l.members, name, mid);
        if !l.Answers() || found.NoId? || found.id !in Ids(l.members) then
          RemoveMember(l.Pass(Called), n - 1, name, found)
        else
          (l.Record(Removed, Without(l.members, found.id)), true)
  }

  /** etcd_util.go:44-73: at most three probes; without a connection there is no second try. */
  function Probe(e: Etcd, tries: nat): (Etcd, bool)
    decreases tries
  {
    if tries == 0 then (e, false)
    else match e.replies(e.calls)
      case NoDial => (e.Pass(Probed(false)), false)
      case Bad => Probe(e.Pass(Probed(false)), tries - 1)
      case Good => (e.Pass(Probed(true)), true)
  }

  /** etcd.go:183-188: some ready host reports a healthy cluster. */
  function AnyHealthy(e: Etcd, n: nat): (Etcd, bool)
    decreases n
  {
    if n == 0 then (e, false)
    else
      var (p, healthy) := Probe(e, 3);
      if healthy then (p, true) else AnyHealthy(p, n - 1)
  }

  // ---------------------------------------------------------------- one member at a time

  /** The two lists differ by at most one member. */
  ghost predicate OneStep(a: seq<Member>, b: seq<Member>) {
    a == b || (exists x :: x !in Ids(a) && Ids(b) == Ids(a) + {x}) ||
    (exists x :: x in Ids(a) && Ids(b) == Ids(a) - {x})
  }

  /** The member list just before entry `k` of a log that started with `from`. */
  function Before(log: seq<Note>, from: nat, start: seq<Member>, k: nat): seq<Member>
    requires from <= k <= |log|
  {
    if k == from then start else log[k - 1].members
  }

  /** From `e` on, the member list changed by at most one member at each call. */
  ghost predicate Gradual(e: Etcd, e': Etcd) {
    |e.log| <= |e'.log| && e'.Valid() && e'.members == Before(e'.log, |e.log|, e.members, |e'.log|) &&
    forall k :: |e.log| <= k < |e'.log| ==> OneStep(Before(e'.log, |e.log|, e.members, k), e'.log[k].members)
  }

  /** The log of `e'` goes on from that of `e`, one member at a time, and ends in `e'`. */
  ghost predicate Extends(e: Etcd, e': Etcd) {
    |e.log| <= |e'.log| && e'.log[..|e.log|] == e.log && e.calls <= e'.calls && e'.replies == e.replies &&
    (e.Valid() ==> Gradual(e, e'))
  }

  /** `e'` continues `e`, and the log tells how its calls were answered. */
  ghost predicate Continues(e: Etcd, e': Etcd) { Extends(e, e') && Told(e, e') }

  /** What an entry says agrees with the answer to its call: a probe is healthy exactly when the answer is
      good, and only a good answer changes the member list. */
  predicate Honest(event: Event, reply: Reply) {
    match event
    case Probed(healthy) => healthy <==> reply == Good
    case Added => reply == Good
    case Removed => reply == Good
    case _ => true
  }

  /** From `e` on there is one entry for each call, and it tells the answer. */
  ghost predicate Told(e: Etcd, e': Etcd) {
    |e.log| <= |e'.log| && e'.calls - e.calls == |e'.log| - |e.log| &&
    forall k :: |e.log| <= k < |e'.log| ==> Honest(e'.log[k].event, e.replies(e.calls + k - |e.log|))
  }

  lemma ToldTransitive(a: Etcd, b: Etcd, c: Etcd)
    requires Told(a, b) && Told(b, c) && b.replies == a.replies && |b.log| <= |c.log| && c.log[..|b.log|] == b.log
    ensures Told(a, c)
  {
    forall k | |a.log| <= k < |c.log| ensures Honest(c.log[k].event, a.replies(a.calls + k - |a.log|)) {
      if k < |b.log| {
        assert c.log[k] == c.log[..|b.log|][k];
      } else {
        assert b.calls + k - |b.log| == a.calls + k - |a.log|;
      }
    }
  }

  lemma ContinuesTransitive(a: Etcd, b: Etcd, c: Etcd)
    requires Continues(a, b) && Continues(b, c)
    ensures Continues(a, c)
  {
    ToldTransitive(a, b, c);
    ExtendsTransitive(a, b, c);
  }

  lemma ExtendsTransitive(a: Etcd, b: Etcd, c: Etcd)
    requires Extends(a, b) && Extends(b, c)
    ensures Extends(a, c)
  {
    assert c.log[..|a.log|] == c.log[..|b.log|][..|a.log|];
    if a.Valid() {
      forall k | |a.log| <= k < |c.log|
        ensures OneStep(Before(c.log, |a.log|, a.members, k), c.log[k].members)
      {
        if k < |b.log| {
          assert c.log[k] == c.log[..|b.log|][k];
          if k > |a.log| { assert c.log[k - 1] == c.log[..|b.log|][k - 1]; }
        } else if k == |b.log| && k > |a.log| {
          assert c.log[k - 1] == c.log[..|b.log|][k - 1];
        }
      }
      if |c.log| == |b.log| && |b.log| > |a.log| {
        assert c.log[|c.log| - 1] == c.log[..|b.log|][|c.log| - 1];
      }
    }
  }

  lemma PassContinues(e: Etcd, event: Event)
    requires Honest(event, e.replies(e.calls))
    ensures Continues(e, e.Pass(event))
  {
  }

  lemma IdsSnoc(ms: seq<Member>, m: Member)
    ensures Ids(ms + [m]) == Ids(ms) + {m.id}
  {
    assert m in ms + [m];
    forall x | x in ms ensures x in ms + [m] {
    }
  }

  lemma AppendContinues(e: Etcd, peer: string)
    requires e.Answers()
    ensures Continues(e, e.Record(Added, e.members + [Member(e.calls, "", peer)]))
  {
    IdsSnoc(e.members, Member(e.calls, "", peer));
    if e.Valid() {
      assert e.calls !in Ids(e.members);
    }
  }

  lemma {:induction false} WithoutMembers(ms: seq<Member>, id: nat)
    ensures forall m :: m in Without(ms, id) <==> m in ms && m.id != id
    ensures Ids(Without(ms, id)) == Ids(ms) - {id}
  {
    if ms != [] {
      WithoutMembers(ms[1..], id);
      assert ms == [ms[0]] + ms[1..];
    }
  }

  lemma {:induction false} WithoutDistinct(ms: seq<Member>, id: nat)
    requires forall i, j :: 0 <= i < j < |ms| ==> ms[i].id != ms[j].id
    ensures var r := Without(ms, id); forall i, j :: 0 <= i < j < |r| ==> r[i].id != r[j].id
  {
    if ms != [] {
      WithoutDistinct(ms[1..], id);
      WithoutMembers(ms[1..], id);
      var rest := Without(ms[1..], id);
      forall j | 0 <= j < |rest| ensures rest[j].id != ms[0].id {
        assert rest[j] in ms[1..];
      }
    }
  }

  lemma DropContinues(e: Etcd, id: nat)
    requires id in Ids(e.members) && e.Answers()
    ensures Continues(e, e.Record(Removed, Without(e.members, id)))
  {
    WithoutMembers(e.members, id);
    if e.Valid() {
      WithoutDistinct(e.members, id);
      var r := Without(e.members, id);
      forall i | 0 <= i < |r| ensures r[i].id < e.calls {
        assert r[i] in e.members;
      }
    }
  }

  lemma {:induction false} AddContinues(e: Etcd, n: nat, peer: string)
    ensures Continues(e, AddMember(e, n, peer).0)
    decreases n
  {
    if n > 0 {
      var c := e.Pass(Called);
      PassContinues(e, Called);
      if !e.Answers() {
        AddContinues(c, n - 1, peer);
        ContinuesTransitive(e, c, AddMember(c, n - 1, peer).0);
      } else if !c.Answers() {
        var t := c.Pass(AddTried);
        PassContinues(c, AddTried);
        AddContinues(t, n - 1, peer);
        ContinuesTransitive(e, c, t);
        ContinuesTransitive(e, t, AddMember(t, n - 1, peer).0);
      } else {
        AppendContinues(c, peer);
        ContinuesTransitive(e, c, AddMember(e, n, peer).0);
      }
    }
  }

  lemma {:induction false} RemoveContinues(e: Etcd, n: nat, name: string, mid: MaybeId)
    ensures Continues(e, RemoveMember(e, n, name, mid).0)
    decreases n
  {
    if n > 0 {
      var c := e.Pass(Called);
      PassContinues(e, Called);
      if !e.Answers() {
        RemoveContinues(c, n - 1, name, mid);
        ContinuesTransitive(e, c, RemoveMember(c, n - 1, name, mid).0);
      } else {
        var l := c.Pass(Called);
        PassContinues(c, Called);
        ContinuesTransitive(e, c, l);
        if !c.Answers() {
          RemoveContinues(l, n - 1, name, mid);
          ContinuesTransitive(e, l, RemoveMember(l, n - 1, name, mid).0);
        } else {
          var found := FindId(l.members, name, mid);
          if !l.Answers() || found.NoId? || found.id !in Ids(l.members) {
            var r := l.Pass(Called);
            PassContinues(l, Called);
            RemoveContinues(r, n - 1, name, found);
            ContinuesTransitive(e, l, r);
            ContinuesTransitive(e, r, RemoveMember(r, n - 1, name, found).0);
          } else {
            DropContinues(l, found.id);
            ContinuesTransitive(e, l, RemoveMember(e, n, name, mid).0);
          }
        }
      }
    }
  }

  lemma {:induction false} ProbeContinues(e: Etcd, tries: nat)
    ensures Continues(e, Probe(e, tries).0) && Probe(e, tries).0.members == e.members
    decreases tries
  {
    if tries > 0 {
      PassContinues(e, Probed(e.replies(e.calls) == Good));
      if e.replies(e.calls) == Bad {
        ProbeContinues(e.Pass(Probed(false)), tries - 1);
        ContinuesTransitive(e, e.Pass(Probed(false)), Probe(e, tries).0);
      }
    }
  }

  /** The first answer from call `from` on that is not bad is the good one to call `t`. */
  ghost predicate GoodAt(replies: nat -> Reply, from: nat, t: nat) {
    from <= t && replies(t) == Good && forall u :: from <= u < t ==> replies(u) == Bad
  }

  /** etcd_util.go:44-73: healthy exactly when among the next answers, as many as there are tries, a good
      one comes with only bad ones before it. */
  lemma {:induction false} ProbeExactly(e: Etcd, tries: nat)
    ensures Probe(e, tries).1 <==> exists t: nat :: t < e.calls + tries && GoodAt(e.replies, e.calls, t)
    decreases tries
  {
    if tries > 0 {
      if e.replies(e.calls) == Good {
        assert GoodAt(e.replies, e.calls, e.calls);
      } else if e.replies(e.calls) == Bad {
        var f := e.Pass(Probed(false));
        ProbeExactly(f, tries - 1);
        if t: nat :| t < e.calls + tries && GoodAt(f.replies, f.calls, t) {
          assert GoodAt(e.replies, e.calls, t);
        }
        if t: nat :| t < e.calls + tries && GoodAt(e.replies, e.calls, t) {
          assert GoodAt(f.replies, f.calls, t);
        }
      }
    }
  }

  lemma {:induction false} AnyHealthyContinues(e: Etcd, n: nat)
    ensures Continues(e, AnyHealthy(e, n).0) && AnyHealthy(e, n).0.members == e.members
    decreases n
  {
    if n > 0 {
      ProbeContinues(e, 3);
      var p := Probe(e, 3).0;
      AnyHealthyContinues(p, n - 1);
      ContinuesTransitive(e, p, AnyHealthy(p, n - 1).0);
    }
  }

  // ---------------------------------------------------------------- quorums

  predicate Majority(q: set<nat>, of: set<nat>) { q <= of && 2 * |q| > |of| }

  lemma DisjointSizes(a: set<nat>, b: set<nat>, u: set<nat>)
    requires a !! b && a <= u && b <= u
    ensures |a| + |b| <= |u|
  {
    assert |a + b| == |a| + |b|;
    SubsetSize(a + b, u);
  }

  lemma SubsetSize(a: set<nat>, b: set<nat>)
    requires a <= b
    ensures |a| <= |b|
  {
    assert b == a + (b - a);
    assert |b| == |a| + |b - a|;
  }

  /** Section 4.1 of Ongaro's dissertation: majorities before and after a one-member change share a
      member. */
  lemma QuorumsMeet(a: seq<Member>, b: seq<Member>, q: set<nat>, r: set<nat>)
    requires OneStep(a, b) && Majority(q, Ids(a)) && Majority(r, Ids(b))
    ensures q * r != {}
  {
    if q !! r {
      if a == b {
        DisjointSizes(q, r, Ids(a));
      } else if exists x :: x !in Ids(a) && Ids(b) == Ids(a) + {x} {
        var x :| x !in Ids(a) && Ids(b) == Ids(a) + {x};
        assert |Ids(b)| == |Ids(a)| + 1;
        DisjointSizes(q, r, Ids(b));
      } else {
        var x :| x in Ids(a) && Ids(b) == Ids(a) - {x};
        assert |Ids(a)| == |Ids(b)| + 1;
        DisjointSizes(q, r, Ids(a));
      }
    }
  }

  // ---------------------------------------------------------------- what the operations change

  /** etcd.go:106-129: success adds exactly one member, with that peer URL and a new id; failure
      leaves the list alone. */
  lemma {:induction false} AddEffect(e: Etcd, n: nat, peer: string)
    ensures var (r, ok) := AddMember(e, n, peer);
            (ok ==> e.calls < r.calls && r.members == e.members + [Member(r.calls - 1, "", peer)]) &&
            (!ok ==> r.members == e.members)
    decreases n
  {
    if n > 0 {
      var c := e.Pass(Called);
      if !e.Answers() { AddEffect(c, n - 1, peer); }
      else if !c.Answers() { AddEffect(c.Pass(AddTried), n - 1, peer); }
    }
  }

  lemma {:induction false} FindIdStable(ms: seq<Member>, name: string, before: MaybeId)
    requires before == NoId || before == FindId(ms, name, NoId)
    ensures FindId(ms, name, before) == FindId(ms, name, NoId)
    decreases |ms|
  {
    if ms != [] && ms[0].name != name {
      FindIdStable(ms[1..], name, before);
    }
  }

  lemma {:induction false} FindIdFinds(ms: seq<Member>, name: string)
    ensures FindId(ms, name, NoId).NoId? <==> forall m :: m in ms ==> m.name != name
    ensures var f := FindId(ms, name, NoId); f.Id? ==> exists m :: m in ms && m.name == name && m.id == f.id
  {
    if ms != [] {
      assert ms == [ms[0]] + ms[1..];
      assert ms[0] in ms;
      FindIdFinds(ms[1..], name);
    }
  }

  /** etcd.go:131-165: success removes exactly the first member of that name; failure, which
      includes a name nobody has, leaves the list alone. */
  lemma {:induction false} RemoveEffect(e: Etcd, n: nat, name: string, mid: MaybeId)
    requires mid == NoId || mid == FindId(e.members, name, NoId)
    ensures var (r, ok) := RemoveMember(e, n, name, mid);
            var found := FindId(e.members, name, NoId);
            (ok ==> found.Id? && r.members == Without(e.members, found.id)) && (!ok ==> r.members == e.members)
    decreases n
  {
    if n > 0 {
      FindIdStable(e.members, name, mid);
      var c := e.Pass(Called);
      var l := c.Pass(Called);
      if !e.Answers() { RemoveEffect(c, n - 1, name, mid); }
      else if !c.Answers() { RemoveEffect(l, n - 1, name, mid); }
      else {
        var found := FindId(l.members, name, mid);
        if !l.Answers() || found.NoId? || found.id !in Ids(l.members) {
          RemoveEffect(l.Pass(Called), n - 1, name, found);
        }
      }
    }
  }

  // ---------------------------------------------------------------- the health gate

  /** Between an add and any later attempt to add there is a successful health check. */
  ghost predicate Gated(log: seq<Note>, from: nat) {
    forall i, j :: from <= i < j < |log| && log[i].event.Added? && (log[j].event.Added? || log[j].event.AddTried?) ==>
      HealthyBetween(log, i, j)
  }

  ghost predicate HealthyBetween(log: seq<Note>, i: nat, j: nat) {
    exists k :: i < k < j && k < |log| && log[k].event == Probed(true)
  }

  /** Every add was followed by a successful health check. */
  ghost predicate Open(log: seq<Note>, from: nat) {
    forall i :: from <= i < |log| && log[i].event.Added? ==> HealthyBetween(log, i, |log|)
  }

  lemma HealthyExtends(log: seq<Note>, note: Note, i: nat, j: nat, j': nat)
    requires HealthyBetween(log, i, j) && j <= j'
    ensures HealthyBetween(log + [note], i, j')
  {
    var k :| i < k < j && k < |log| && log[k].event == Probed(true);
    assert (log + [note])[k] == log[k];
  }

  lemma GateStep(log: seq<Note>, from: nat, note: Note)
    requires from <= |log| && Gated(log, from)
    requires (note.event.Added? || note.event.AddTried?) ==> Open(log, from)
    ensures Gated(log + [note], from)
    ensures Open(log, from) && !note.event.Added? ==> Open(log + [note], from)
    ensures note.event == Probed(true) ==> Open(log + [note], from)
  {
    var log' := log + [note];
    forall i, j | from <= i < j < |log'| && log'[i].event.Added? && (log'[j].event.Added? || log'[j].event.AddTried?)
      ensures HealthyBetween(log', i, j)
    {
      HealthyExtends(log, note, i, j, j);
    }
    if Open(log, from) {
      forall i | from <= i < |log| && log[i].event.Added? ensures HealthyBetween(log', i, |log'|) {
        HealthyExtends(log, note, i, |log|, |log'|);
      }
    }
    if note.event == Probed(true) {
      assert log'[|log|].event == Probed(true);
    }
  }

  lemma {:induction false} AddGate(e: Etcd, n: nat, peer: string, from: nat)
    requires from <= |e.log| && Gated(e.log, from) && Open(e.log, from)
    ensures Gated(AddMember(e, n, peer).0.log, from)
    decreases n
  {
    if n > 0 {
      var c := e.Pass(Called);
      GateStep(e.log, from, Note(Called, e.members));
      if !e.Answers() { AddGate(c, n - 1, peer, from); }
      else if !c.Answers() {
        GateStep(c.log, from, Note(AddTried, c.members));
        AddGate(c.Pass(AddTried), n - 1, peer, from);
      } else {
        GateStep(c.log, from, Note(Added, c.members + [Member(c.calls, "", peer)]));
      }
    }
  }

  lemma {:induction false} RemoveGate(e: Etcd, n: nat, name: string, mid: MaybeId, from: nat)
    requires from <= |e.log| && Gated(e.log, from) && Open(e.log, from)
    ensures var r := RemoveMember(e, n, name, mid).0; Gated(r.log, from) && Open(r.log, from)
    decreases n
  {
    if n > 0 {
      var c := e.Pass(Called);
      var l := c.Pass(Called);
      GateStep(e.log, from, Note(Called, e.members));
      GateStep(c.log, from, Note(Called, c.members));
      if !e.Answers() { RemoveGate(c, n - 1, name, mid, from); }
      else if !c.Answers() { RemoveGate(l, n - 1, name, mid, from); }
      else {
        var found := FindId(l.members, name, mid);
        GateStep(l.log, from, Note(Called, l.members));
        if !l.Answers() || found.NoId? || found.id !in Ids(l.members) {
          RemoveGate(l.Pass(Called), n - 1, name, found, from);
        } else {
          GateStep(l.log, from, Note(Removed, Without(l.members, found.id)));
        }
      }
    }
  }

  lemma {:induction false} ProbeGate(e: Etcd, tries: nat, from: nat)
    requires from <= |e.log| && Gated(e.log, from)
    ensures var (r, ok) := Probe(e, tries); |e.log| <= |r.log| && Gated(r.log, from) && (ok ==> Open(r.log, from))
    decreases tries
  {
    if tries > 0 {
      GateStep(e.log, from, Note(Probed(false), e.members));
      GateStep(e.log, from, Note(Probed(true), e.members));
      if e.replies(e.calls) == Bad { ProbeGate(e.Pass(Probed(false)), tries - 1, from); }
    }
  }

  lemma {:induction false} AnyHealthyGate(e: Etcd, n: nat, from: nat)
    requires from <= |e.log| && Gated(e.log, from)
    ensures var (r, ok) := AnyHealthy(e, n); Gated(r.log, from) && (ok ==> Open(r.log, from))
    decreases n
  {
    if n > 0 {
      ProbeGate(e, 3, from);
      AnyHealthyGate(Probe(e, 3).0, n - 1, from);
    }
  }

  // ---------------------------------------------------------------- kept members

  /** From `e` on, `m` is in the member list after every call. */
  ghost predicate KeepsMember(e: Etcd, e': Etcd, m: Member) {
    |e.log| <= |e'.log| && e'.log[..|e.log|] == e.log && m in e'.members &&
    forall k :: |e.log| <= k < |e'.log| ==> m in e'.log[k].members
  }

  lemma KeepsTransitive(a: Etcd, b: Etcd, c: Etcd, m: Member)
    requires KeepsMember(a, b, m) && KeepsMember(b, c, m)
    ensures KeepsMember(a, c, m)
  {
    assert c.log[..|a.log|] == c.log[..|b.log|][..|a.log|];
    forall k | |a.log| <= k < |c.log| ensures m in c.log[k].members {
      if k < |b.log| { assert c.log[k] == c.log[..|b.log|][k]; }
    }
  }

  lemma {:induction false} AddKeeps(e: Etcd, n: nat, peer: string, m: Member)
    requires m in e.members
    ensures KeepsMember(e, AddMember(e, n, peer).0, m)
    decreases n
  {
    if n > 0 {
      var c := e.Pass(Called);
      assert KeepsMember(e, c, m);
      if !e.Answers() {
        AddKeeps(c, n - 1, peer, m);
        KeepsTransitive(e, c, AddMember(c, n - 1, peer).0, m);
      } else if !c.Answers() {
        var t := c.Pass(AddTried);
        assert KeepsMember(c, t, m);
        AddKeeps(t, n - 1, peer, m);
        KeepsTransitive(e, c, t, m);
        KeepsTransitive(e, t, AddMember(t, n - 1, peer).0, m);
      } else {
        assert KeepsMember(c, AddMember(e, n, peer).0, m);
        KeepsTransitive(e, c, AddMember(e, n, peer).0, m);
      }
    }
  }

  /** Removing by name spares every member of another name. */
  lemma {:induction false} RemoveKeeps(e: Etcd, n: nat, name: string, mid: MaybeId, m: Member)
    requires e.Valid() && m in e.members && m.name != name
    requires mid == NoId || mid == FindId(e.members, name, NoId)
    ensures KeepsMember(e, RemoveMember(e, n, name, mid).0, m)
    decreases n
  {
    if n > 0 {
      var c := e.Pass(Called);
      assert KeepsMember(e, c, m);
      var l := c.Pass(Called);
      assert KeepsMember(c, l, m);
      KeepsTransitive(e, c, l, m);
      FindIdStable(e.members, name, mid);
      FindIdFinds(e.members, name);
      if !e.Answers() {
        RemoveKeeps(c, n - 1, name, mid, m);
        KeepsTransitive(e, c, RemoveMember(c, n - 1, name, mid).0, m);
      } else if !c.Answers() {
        RemoveKeeps(l, n - 1, name, mid, m);
        KeepsTransitive(e, l, RemoveMember(l, n - 1, name, mid).0, m);
      } else {
        var found := FindId(l.members, name, mid);
        if !l.Answers() || found.NoId? || found.id !in Ids(l.members) {
          var r := l.Pass(Called);
          assert KeepsMember(l, r, m);
          RemoveKeeps(r, n - 1, name, found, m);
          KeepsTransitive(e, l, r, m);
          KeepsTransitive(e, r, RemoveMember(r, n - 1, name, found).0, m);
        } else {
          WithoutMembers(l.members, found.id);
          assert m.id != found.id;
          assert KeepsMember(l, l.Record(Removed, Without(l.members, found.id)), m);
          KeepsTransitive(e, l, RemoveMember(e, n, name, mid).0, m);
        }
      }
    }
  }

  lemma {:induction false} ProbeKeeps(e: Etcd, tries: nat, m: Member)
    requires m in e.members
    ensures KeepsMember(e, Probe(e, tries).0, m)
    decreases tries
  {
    if tries > 0 {
      assert KeepsMember(e, e.Pass(Probed(false)), m) && KeepsMember(e, e.Pass(Probed(true)), m);
      if e.replies(e.calls) == Bad {
        ProbeKeeps(e.Pass(Probed(false)), tries - 1, m);
        KeepsTransitive(e, e.Pass(Probed(false)), Probe(e, tries).0, m);
      }
    }
  }

  lemma {:induction false} AnyHealthyKeeps(e: Etcd, n: nat, m: Member)
    requires m in e.members
    ensures KeepsMember(e, AnyHealthy(e, n).0, m)
    decreases n
  {
    if n > 0 {
      ProbeKeeps(e, 3, m);
      var p := Probe(e, 3).0;
      AnyHealthyKeeps(p, n - 1, m);
      KeepsTransitive(e, p, AnyHealthy(p, n - 1).0, m);
    }
  }
}
