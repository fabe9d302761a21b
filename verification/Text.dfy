/** The separator-joined strings that RKE passes to containers, and their parsers. */
module Text {

  /** Comma-separated, as the source's loops build it. */
  function Join(xs: seq<string>): string {
    if |xs| == 0 then "" else if |xs| == 1 then xs[0] else xs[0] + "," + Join(xs[1..])
  }

  lemma {:induction false} JoinSnoc(xs: seq<string>, x: string)
    ensures Join(xs + [x]) == if xs == [] then x else Join(xs) + "," + x
  {
    if |xs| > 1 {
      assert (xs + [x])[1..] == xs[1..] + [x];
      JoinSnoc(xs[1..], x);
    } else if |xs| == 1 {
      assert (xs + [x])[1..] == [x];
    }
  }

  /** What the source's loops hold after `i` of the fields: a comma follows each but the last. */
  function Accumulated(xs: seq<string>, i: nat): string
    requires i <= |xs|
  {
    Join(xs[..i]) + if 0 < i < |xs| then "," else ""
  }

  lemma AccumulateOne(xs: seq<string>, i: nat)
    requires i < |xs|
    ensures Accumulated(xs, i + 1) == Accumulated(xs, i) + xs[i] + if i < |xs| - 1 then "," else ""
  {
    assert xs[..i + 1] == xs[..i] + [xs[i]];
    JoinSnoc(xs[..i], xs[i]);
  }

  lemma AccumulateAll(xs: seq<string>)
    ensures Accumulated(xs, 0) == "" && Accumulated(xs, |xs|) == Join(xs)
  {
    assert xs[..|xs|] == xs;
  }

  /** strings.Split for a one-character separator. */
  function Split(s: string, c: char): (r: seq<string>)
    ensures |r| >= 1
  {
    if s == "" then [""]
    else
      var r := Split(s[1..], c);
      if s[0] == c then [""] + r else [[s[0]] + r[0]] + r[1..]
  }

  lemma {:induction false} SplitFree(s: string, c: char)
    requires c !in s
    ensures Split(s, c) == [s]
  {
    if s != "" {
      SplitFree(s[1..], c);
      assert [s[0]] + s[1..] == s;
    }
  }

  /** The first separator ends the first field. */
  lemma {:induction false} SplitFirst(a: string, c: char, b: string)
    requires c !in a
    ensures Split(a + [c] + b, c) == [a] + Split(b, c)
  {
    var s := a + [c] + b;
    if a == "" {
      assert s[1..] == b;
    } else {
      assert s[1..] == a[1..] + [c] + b;
      SplitFirst(a[1..], c, b);
      assert [a[0]] + a[1..] == a;
    }
  }

  predicate Free(xs: seq<string>, c: char) { forall i :: 0 <= i < |xs| ==> c !in xs[i] }

  lemma {:induction false} SplitJoin(xs: seq<string>)
    requires xs != [] && Free(xs, ',')
    ensures Split(Join(xs), ',') == xs
  {
    if |xs| == 1 {
      SplitFree(xs[0], ',');
    } else {
      SplitJoin(xs[1..]);
      SplitFirst(xs[0], ',', Join(xs[1..]));
      assert xs[0] + "," + Join(xs[1..]) == xs[0] + [','] + Join(xs[1..]);
    }
  }

  /** On comma-free fields the joined string determines the list, except that it cannot tell the
      empty list from a single empty field. */
  lemma JoinInjective(xs: seq<string>, ys: seq<string>)
    requires Free(xs, ',') && Free(ys, ',')
    ensures Join(xs) == Join(ys) <==> xs == ys || (xs in {[], [""]} && ys in {[], [""]})
  {
    if xs != [] { SplitJoin(xs); }
    if ys != [] { SplitJoin(ys); }
    SplitFree("", ',');
  }

  predicate NonEmpty(xs: seq<string>) { forall i :: 0 <= i < |xs| ==> xs[i] != "" }

  lemma PrefixCancels(p: string, a: string, b: string)
    ensures p + a == p + b <==> a == b
  {
    assert (p + a)[|p|..] == a && (p + b)[|p|..] == b;
  }

  // ---------------------------------------------------------------- etcd peers

  datatype Peer = Peer(name: string, address: string)

  function Entry(p: Peer): string { "etcd-" + p.name + "=https://" + p.address + ":2380" }

  function Entries(ps: seq<Peer>): (r: seq<string>)
    ensures |r| == |ps| && forall i :: 0 <= i < |ps| ==> r[i] == Entry(ps[i])
  {
    seq(|ps|, i requires 0 <= i < |ps| => Entry(ps[i]))
  }

  /** etcd_util.go:93-102 */
  function InitialCluster(ps: seq<Peer>): string { Join(Entries(ps)) }

  function FirstIndex(s: string, c: char): (k: nat)
    ensures k <= |s| && (k < |s| ==> s[k] == c) && forall i :: 0 <= i < k ==> s[i] != c
  {
    if s == "" || s[0] == c then 0 else 1 + FirstIndex(s[1..], c)
  }

  /** The reader's side of `--initial-cluster`: name=URL with the scheme and port RKE uses. */
  function ParseEntry(s: string): Peer {
    var k := FirstIndex(s, '=');
    if 5 <= k && k + 9 <= |s| - 5 then Peer(s[5..k], s[k + 9..|s| - 5]) else Peer("", "")
  }

  function ParseCluster(s: string): seq<Peer> {
    var fields := Split(s, ',');
    seq(|fields|, i requires 0 <= i < |fields| => ParseEntry(fields[i]))
  }

  lemma EntryRoundTrip(p: Peer)
    requires '=' !in p.name
    ensures ParseEntry(Entry(p)) == p
  {
    var s, n := Entry(p), |p.name|;
    assert s[..5] == "etcd-" && s[5..5 + n] == p.name && s[5 + n] == '=';
    assert s[5 + n..14 + n] == "=https://" && s[14 + n..|s| - 5] == p.address;
    assert FirstIndex(s, '=') == 5 + n;
  }

  predicate PlainPeers(ps: seq<Peer>) {
    forall i :: 0 <= i < |ps| ==> '=' !in ps[i].name && ',' !in ps[i].name && ',' !in ps[i].address
  }

  lemma EntriesFree(ps: seq<Peer>)
    requires PlainPeers(ps)
    ensures Free(Entries(ps), ',') && NonEmpty(Entries(ps))
  {
    forall i | 0 <= i < |ps| ensures ',' !in Entries(ps)[i] && Entries(ps)[i] != "" {
      assert ',' !in "etcd-" && ',' !in "=https://" && ',' !in ":2380";
      assert |Entry(ps[i])| >= 5;
    }
  }

  /** The member list can be read back from `--initial-cluster`. */
  lemma InitialClusterRoundTrip(ps: seq<Peer>)
    requires ps != [] && PlainPeers(ps)
    ensures ParseCluster(InitialCluster(ps)) == ps
  {
    EntriesFree(ps);
    SplitJoin(Entries(ps));
    forall i | 0 <= i < |ps| ensures ParseCluster(InitialCluster(ps))[i] == ps[i] {
      EntryRoundTrip(ps[i]);
    }
  }

  lemma InitialClusterInjective(ps: seq<Peer>, qs: seq<Peer>)
    requires PlainPeers(ps) && PlainPeers(qs) && InitialCluster(ps) == InitialCluster(qs)
    ensures ps == qs
  {
    EntriesFree(ps);
    EntriesFree(qs);
    JoinInjective(Entries(ps), Entries(qs));
    if ps != [] && qs != [] {
      InitialClusterRoundTrip(ps);
      InitialClusterRoundTrip(qs);
    } else {
      assert Entries(ps) == Entries(qs);
      assert |ps| == |qs|;
    }
  }
}
