/** pki/: certificate names, and the certificate map that the current and the wanted cluster share.

    Keys and certificates are uninterpreted; only which entry holds which one matters. */
module Pki {
  import opened Hosts

  /** `serial` stands for the generated certificate and key. */
  datatype Certificate = Certificate(name: string, serial: nat)

  /** A Go map is shared by reference: both clusters of a reconcile hold the same store. */
  class CertStore {
    var entries: map<string, Certificate>

    constructor (entries: map<string, Certificate>)
      ensures this.entries == entries
    {
      this.entries := entries;
    }
  }

  const CA := "kube-ca"
  const API := "kube-apiserver"
  const CONTROLLER := "kube-controller-manager"
  const SCHED := "kube-scheduler"
  const PROXY := "kube-proxy"
  const NODE := "kube-node"
  const ADMIN := "kube-admin"

  const FIXED: seq<string> := [CA, API, NODE, PROXY, CONTROLLER, SCHED, ADMIN]

  // ---------------------------------------------------------------- names

  /** strings.Replace(address, ".", "-", -1) */
  function Dashed(address: string): (r: string)
    ensures |r| == |address| && forall i :: 0 <= i < |r| ==> r[i] == if address[i] == '.' then '-' else address[i]
  {
    seq(|address|, i requires 0 <= i < |address| => if address[i] == '.' then '-' else address[i])
  }

  /** util.go:144-147 */
  function EtcdCrtName(address: string): string { "kube-etcd-" + Dashed(address) }

  /** Two addresses that differ only where one has a dot and the other a hyphen. */
  predicate Confusable(a: string, b: string) {
    |a| == |b| && forall i :: 0 <= i < |a| ==> a[i] == b[i] || (a[i] in ".-" && b[i] in ".-")
  }

  lemma EtcdCrtNameCollides(a: string, b: string)
    ensures EtcdCrtName(a) == EtcdCrtName(b) <==> Confusable(a, b)
  {
    assert EtcdCrtName(a)[10..] == Dashed(a) && EtcdCrtName(b)[10..] == Dashed(b);
    if EtcdCrtName(a) == EtcdCrtName(b) {
      assert Dashed(a) == Dashed(b);
      forall i | 0 <= i < |a| ensures a[i] == b[i] || (a[i] in ".-" && b[i] in ".-") {
        assert Dashed(a)[i] == Dashed(b)[i];
      }
    }
    if Confusable(a, b) {
      assert Dashed(a) == Dashed(b);
    }
  }

  /** Hyphen-free addresses get distinct entries. */
  lemma EtcdCrtNameInjective(a: string, b: string)
    requires '-' !in a && '-' !in b
    ensures EtcdCrtName(a) == EtcdCrtName(b) <==> a == b
  {
    EtcdCrtNameCollides(a, b);
  }

  /** Two host names for which the code uses one and the same entry. */
  lemma EtcdCrtNameCollisionExample()
    ensures "n.a" != "n-a" && EtcdCrtName("n.a") == EtcdCrtName("n-a")
  {
    EtcdCrtNameCollides("n.a", "n-a");
  }

  lemma FixedNamesAreNotEtcd(f: string, address: string)
    requires f in FIXED
    ensures EtcdCrtName(address) != f
  {
    assert EtcdCrtName(address)[5] == 'e';
    assert f in [CA, API, NODE, PROXY, CONTROLLER, SCHED, ADMIN];
  }

  function EtcdNames(hs: seq<Host>): set<string> { set h | h in hs :: EtcdCrtName(h.internalAddress) }

  function AsSet(xs: seq<string>): set<string> { set x | x in xs }

  lemma AsSetSnoc(xs: seq<string>, x: string)
    ensures AsSet(xs + [x]) == AsSet(xs) + {x}
  {
    assert x in xs + [x];
  }

  lemma EtcdNamesSnoc(hs: seq<Host>, h: Host)
    ensures EtcdNames(hs + [h]) == EtcdNames(hs) + {EtcdCrtName(h.internalAddress)}
  {
    assert h in hs + [h];
    forall g | g in hs ensures g in hs + [h] {
    }
  }

  function FixedNames(): set<string> { AsSet(FIXED) }

  /** pki/constants.go:11-22 as they are spelled, and an etcd host's name spelled from its address. */
  lemma NamesSpelled()
    ensures FixedNames() == {"kube-ca", "kube-apiserver", "kube-node", "kube-proxy", "kube-controller-manager",
                             "kube-scheduler", "kube-admin"}
    ensures EtcdCrtName("10.0.0.1") == "kube-etcd-10-0-0-1"
  {
    assert forall x :: x in FIXED <==> x in {CA, API, NODE, PROXY, CONTROLLER, SCHED, ADMIN} by {
      assert FIXED == [CA, API, NODE, PROXY, CONTROLLER, SCHED, ADMIN];
      assert FIXED[0] == CA && FIXED[1] == API && FIXED[2] == NODE && FIXED[3] == PROXY && FIXED[4] == CONTROLLER &&
             FIXED[5] == SCHED && FIXED[6] == ADMIN;
    }
    assert Dashed("10.0.0.1") == "10-0-0-1";
  }

  // ---------------------------------------------------------------- loading

  /** certificates.go:71-106: the names to fetch, then one secret after another. */
  method GetClusterCerts(etcdHosts: seq<Host>, secrets: map<string, Certificate>)
    returns (ok: bool, certs: map<string, Certificate>)
    ensures ok <==> FixedNames() + EtcdNames(etcdHosts) <= secrets.Keys
    ensures ok ==> certs.Keys == FixedNames() + EtcdNames(etcdHosts)
    ensures ok ==> forall n :: n in certs ==> certs[n] == secrets[n]
  {
    var names := FIXED;
    for i := 0 to |etcdHosts|
      invariant AsSet(names) == FixedNames() + EtcdNames(etcdHosts[..i])
    {
      AsSetSnoc(names, EtcdCrtName(etcdHosts[i].internalAddress));
      names := names + [EtcdCrtName(etcdHosts[i].internalAddress)];
      assert etcdHosts[..i + 1] == etcdHosts[..i] + [etcdHosts[i]];
      EtcdNamesSnoc(etcdHosts[..i], etcdHosts[i]);
    }
    assert etcdHosts[..|etcdHosts|] == etcdHosts;
    certs := map[];
    for i := 0 to |names|
      invariant certs.Keys == AsSet(names[..i]) && certs.Keys <= secrets.Keys
      invariant forall n :: n in certs ==> certs[n] == secrets[n]
    {
      if names[i] !in secrets {
        assert names[i] in AsSet(names);
        return false, certs;
      }
      certs := certs[names[i] := secrets[names[i]]];
      assert names[..i + 1] == names[..i] + [names[i]];
      AsSetSnoc(names[..i], names[i]);
    }
    assert names[..|names|] == names;
    ok := true;
  }

  // ---------------------------------------------------------------- the certificate loop

  /** pki.go:122-143: a failed generation changes nothing. */
  method RegenerateEtcdCertificate(store: CertStore, etcdHost: Host, signed: bool, serial: nat) returns (ok: bool)
    modifies store
    ensures ok == signed
    ensures var name := EtcdCrtName(etcdHost.internalAddress);
            store.entries ==
              if signed then old(store.entries)[name := Certificate(name, serial)] else old(store.entries)
  {
    if !signed { return false; }
    var name := EtcdCrtName(etcdHost.internalAddress);
    store.entries := store.entries[name := Certificate(name, serial)];
    return true;
  }

  /** The entries once each of these hosts, in order, was given a certificate. */
  function Issued(entries: map<string, Certificate>, hs: seq<Host>): map<string, Certificate> {
    if hs == [] then entries
    else
      var n := |hs| - 1;
      var name := EtcdCrtName(hs[n].internalAddress);
      Issued(entries, hs[..n])[name := Certificate(name, n)]
  }

  /** Issuing adds exactly the names of the hosts and leaves every other entry alone. */
  lemma {:induction false} IssuedEntries(entries: map<string, Certificate>, hs: seq<Host>)
    ensures Issued(entries, hs).Keys == entries.Keys + EtcdNames(hs)
    ensures forall n :: n in entries && n !in EtcdNames(hs) ==> Issued(entries, hs)[n] == entries[n]
  {
    if hs != [] {
      var n := |hs| - 1;
      IssuedEntries(entries, hs[..n]);
      assert hs == hs[..n] + [hs[n]];
      EtcdNamesSnoc(hs[..n], hs[n]);
    }
  }

  /** A host whose certificate name no later host has keeps the certificate made for it. */
  lemma {:induction false} IssuedOwn(entries: map<string, Certificate>, hs: seq<Host>, i: nat)
    requires i < |hs|
    requires forall k :: i < k < |hs| ==> EtcdCrtName(hs[k].internalAddress) != EtcdCrtName(hs[i].internalAddress)
    ensures var name := EtcdCrtName(hs[i].internalAddress);
            name in Issued(entries, hs) && Issued(entries, hs)[name] == Certificate(name, i)
  {
    var n := |hs| - 1;
    if i < n { IssuedOwn(entries, hs[..n], i); }
  }

  /** Hosts with distinct hyphen-free internal addresses get distinct entries, each its own. */
  lemma DistinctHostsDistinctEntries(entries: map<string, Certificate>, hs: seq<Host>, i: nat, j: nat)
    requires i < j < |hs|
    requires forall k :: 0 <= k < |hs| ==> '-' !in hs[k].internalAddress
    requires forall k, l :: 0 <= k < l < |hs| ==> hs[k].internalAddress != hs[l].internalAddress
    ensures var a, b := EtcdCrtName(hs[i].internalAddress), EtcdCrtName(hs[j].internalAddress);
            a != b && a in Issued(entries, hs) && b in Issued(entries, hs) &&
            Issued(entries, hs)[a] == Certificate(a, i) && Issued(entries, hs)[b] == Certificate(b, j)
  {
    forall k, l | 0 <= k < l < |hs| ensures EtcdCrtName(hs[k].internalAddress) != EtcdCrtName(hs[l].internalAddress) {
      EtcdCrtNameInjective(hs[k].internalAddress, hs[l].internalAddress);
    }
    IssuedOwn(entries, hs, i);
    IssuedOwn(entries, hs, j);
  }

  /** How many hosts were marked: the one whose certificate failed included. */
  function Reached(ok: bool, done: nat): nat { if ok then done else done + 1 }

  /** reconcile.go:174-187: mark each new member and give it a certificate.  `signing` tells which
      generations succeed; the first that fails ends the loop. */
  method RegenerateNewMembers(store: CertStore, toAdd: seq<Host>, signing: nat -> bool)
    returns (ok: bool, ghost done: nat)
    modifies store, toAdd`toAddEtcdMember
    ensures done <= |toAdd| && (forall i :: 0 <= i < done ==> signing(i))
    ensures if ok then done == |toAdd| else done < |toAdd| && !signing(done)
    ensures store.entries == Issued(old(store.entries), toAdd[..done])
    ensures forall h :: h in toAdd ==>
              (h.toAddEtcdMember <==> old(h.toAddEtcdMember) || h in toAdd[..Reached(ok, done)])
  {
    done := 0;
    for i := 0 to |toAdd|
      invariant done == i && forall j :: 0 <= j < i ==> signing(j)
      invariant store.entries == Issued(old(store.entries), toAdd[..i])
      invariant forall h :: h in toAdd ==> (h.toAddEtcdMember <==> old(h.toAddEtcdMember) || h in toAdd[..i])
    {
      assert toAdd[..i + 1] == toAdd[..i] + [toAdd[i]];
      toAdd[i].toAddEtcdMember := true;
      ok := RegenerateEtcdCertificate(store, toAdd[i], signing(i), i);
      if !ok { return; }
      assert toAdd[..i + 1][..i] == toAdd[..i];
      done := i + 1;
    }
    ok := true;
  }

  // ---------------------------------------------------------------- later lookups

  /** deploy.go:23-44: the entries looked up when a host gets its certificates. */
  function PlaneCertNames(isControl: bool, isEtcd: bool, etcdHosts: seq<Host>): set<string> {
    (if isControl then {CA, API, CONTROLLER, SCHED, PROXY, NODE} else {CA, PROXY, NODE}) +
    (if isEtcd then EtcdNames(etcdHosts) else {})
  }

  /** deploy.go:124-137 */
  function BackupCertNames(etcdHosts: seq<Host>): set<string> {
    {CA, API, CONTROLLER, SCHED, PROXY, NODE, ADMIN} + EtcdNames(etcdHosts)
  }

  /** What is backed up is what is fetched. */
  lemma BackupIsFetched(etcdHosts: seq<Host>)
    ensures BackupCertNames(etcdHosts) == FixedNames() + EtcdNames(etcdHosts)
  {
    NamesSpelled();
  }

  /** A host that stays an etcd host keeps its internal address. */
  ghost predicate KeepsInternal(current: seq<Host>, wanted: seq<Host>) {
    forall i, j :: 0 <= i < |current| && 0 <= j < |wanted| && current[i].address == wanted[j].address ==>
      current[i].internalAddress == wanted[j].internalAddress
  }

  lemma WantedNamesCovered(current: seq<Host>, wanted: seq<Host>)
    requires KeepsInternal(current, wanted)
    ensures EtcdNames(wanted) <= EtcdNames(current) + EtcdNames(Missing(wanted, current))
  {
    MissingMembers(wanted, current);
    forall n | n in EtcdNames(wanted) ensures n in EtcdNames(current) + EtcdNames(Missing(wanted, current)) {
      var h :| h in wanted && EtcdCrtName(h.internalAddress) == n;
      var j :| 0 <= j < |wanted| && wanted[j] == h;
      if Listed(h, current) {
        var i :| 0 <= i < |current| && current[i].address == h.address;
        assert current[i] in current;
      } else {
        assert h in Missing(wanted, current);
      }
    }
  }

  /** reconcile.go:172-188 on the store both clusters share: every later lookup hits, and only the
      new members' entries can have changed. */
  method ReconcileCertificates(store: CertStore, current: seq<Host>, wanted: seq<Host>, signing: nat -> bool)
    returns (ok: bool)
    requires FixedNames() + EtcdNames(current) <= store.entries.Keys && KeepsInternal(current, wanted)
    modifies store, wanted`toAddEtcdMember
    ensures forall n :: n in old(store.entries) && n !in EtcdNames(Missing(wanted, current)) ==>
              n in store.entries && store.entries[n] == old(store.entries)[n]
    ensures forall f :: f in FIXED ==> f in store.entries && store.entries[f] == old(store.entries)[f]
    ensures ok <==> forall i :: 0 <= i < |Missing(wanted, current)| ==> signing(i)
    ensures ok ==> store.entries == Issued(old(store.entries), Missing(wanted, current))
    ensures ok ==> BackupCertNames(wanted) <= store.entries.Keys
    ensures ok ==> forall c, e :: PlaneCertNames(c, e, wanted) <= store.entries.Keys
  {
    MissingMembers(wanted, current);
    WantedNamesCovered(current, wanted);
    var toAdd := GetToAddHosts(current, wanted);
    ghost var done;
    ok, done := RegenerateNewMembers(store, toAdd, signing);
    IssuedEntries(old(store.entries), toAdd[..done]);
    FewerNames(toAdd, done);
    assert ok ==> toAdd[..done] == toAdd;
    forall f | f in FIXED ensures f !in EtcdNames(toAdd) {
      if f in EtcdNames(toAdd) {
        var h :| h in toAdd && EtcdCrtName(h.internalAddress) == f;
        FixedNamesAreNotEtcd(f, h.internalAddress);
      }
    }
  }

  lemma FewerNames(hs: seq<Host>, n: nat)
    requires n <= |hs|
    ensures EtcdNames(hs[..n]) <= EtcdNames(hs)
  {
    assert forall h :: h in hs[..n] ==> h in hs;
  }
}
