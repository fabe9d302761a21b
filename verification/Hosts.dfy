/** hosts/hosts.go: host objects and the comparison of host lists. */
module Hosts {
  import opened Docker

  /** A host is an object that several role lists may share. */
  class Host {
    const address: string
    const internalAddress: string
    const hostnameOverride: string
    const labels: map<string, string>
    const client: Client

    var isControl: bool
    var isWorker: bool
    var isEtcd: bool
    var toAddEtcdMember: bool
    var existingEtcdCluster: bool
    var toAddLabels: map<string, string>
    var toDelLabels: map<string, string>
    var toAddTaints: seq<string>
    var toDelTaints: seq<string>

    /** cluster/hosts.go:53-62: no role yet, the configured labels to add. */
    constructor (address: string, internalAddress: string, hostnameOverride: string,
                 labels: map<string, string>, client: Client)
      ensures this.address == address && this.internalAddress == internalAddress
      ensures this.hostnameOverride == hostnameOverride && this.labels == labels && this.client == client
      ensures !isControl && !isWorker && !isEtcd && !toAddEtcdMember && !existingEtcdCluster
      ensures toAddLabels == labels && toDelLabels == map[] && toAddTaints == [] && toDelTaints == []
    {
      this.address, this.internalAddress, this.hostnameOverride := address, internalAddress, hostnameOverride;
      this.labels, this.client := labels, client;
      isControl, isWorker, isEtcd, toAddEtcdMember, existingEtcdCluster := false, false, false, false, false;
      toAddLabels, toDelLabels, toAddTaints, toDelTaints := labels, map[], [], [];
    }
  }

  /** Distinct objects with distinct Docker clients. */
  ghost predicate Separate(hs: seq<Host>) {
    forall i, j :: 0 <= i < j < |hs| ==> hs[i] != hs[j] && hs[i].client != hs[j].client
  }

  ghost function Clients(hs: seq<Host>): set<Client> { set h | h in hs :: h.client }

  ghost function States(hs: seq<Host>): (r: seq<Daemon>)
    reads Clients(hs)
    ensures |r| == |hs| && forall i :: 0 <= i < |hs| ==> r[i] == hs[i].client.D()
  {
    seq(|hs|, i requires 0 <= i < |hs| reads Clients(hs) => hs[i].client.D())
  }

  function Addresses(hs: seq<Host>): set<string> { set h | h in hs :: h.address }

  predicate Listed(h: Host, hs: seq<Host>) { exists i :: 0 <= i < |hs| && hs[i].address == h.address }

  /** The hosts of `xs`, in order, whose address no host of `ys` has. */
  function Missing(xs: seq<Host>, ys: seq<Host>): seq<Host> {
    if xs == [] then []
    else
      var rest := Missing(xs[..|xs| - 1], ys);
      if Listed(xs[|xs| - 1], ys) then rest else rest + [xs[|xs| - 1]]
  }

  method GetToDeleteHosts(currentHosts: seq<Host>, configHosts: seq<Host>) returns (toDelete: seq<Host>)
    ensures toDelete == Missing(currentHosts, configHosts)
  {
    toDelete := [];
    for i := 0 to |currentHosts|
      invariant toDelete == Missing(currentHosts[..i], configHosts)
    {
      var found := false;
      for j := 0 to |configHosts|
        invariant found <==> exists k :: 0 <= k < j && configHosts[k].address == currentHosts[i].address
      {
        if currentHosts[i].address == configHosts[j].address { found := true; }
      }
      assert currentHosts[..i + 1][..i] == currentHosts[..i];
      if !found { toDelete := toDelete + [currentHosts[i]]; }
    }
    assert currentHosts[..|currentHosts|] == currentHosts;
  }

  /** The source writes this one separately, with the lists exchanged and an early exit. */
  method GetToAddHosts(currentHosts: seq<Host>, configHosts: seq<Host>) returns (toAdd: seq<Host>)
    ensures toAdd == Missing(configHosts, currentHosts)
  {
    toAdd := [];
    for i := 0 to |configHosts|
      invariant toAdd == Missing(configHosts[..i], currentHosts)
    {
      var found := false;
      for j := 0 to |currentHosts|
        invariant !found && forall k :: 0 <= k < j ==> currentHosts[k].address != configHosts[i].address
      {
        if currentHosts[j].address == configHosts[i].address { found := true; break; }
      }
      assert configHosts[..i + 1][..i] == configHosts[..i];
      if !found { toAdd := toAdd + [configHosts[i]]; }
    }
    assert configHosts[..|configHosts|] == configHosts;
  }

  /** One of the two searches of hosts.go:186-213. */
  method AnyMissing(xs: seq<Host>, ys: seq<Host>) returns (missing: bool)
    ensures missing <==> exists i :: 0 <= i < |xs| && !Listed(xs[i], ys)
  {
    for i := 0 to |xs|
      invariant forall k :: 0 <= k < i ==> Listed(xs[k], ys)
    {
      var found := false;
      for j := 0 to |ys|
        invariant !found && forall k :: 0 <= k < j ==> ys[k].address != xs[i].address
      {
        if xs[i].address == ys[j].address { found := true; break; }
      }
      if !found {
        assert !Listed(xs[i], ys);
        return true;
      }
    }
    return false;
  }

  method IsHostListChanged(currentHosts: seq<Host>, configHosts: seq<Host>) returns (changed: bool)
    ensures changed <==> Missing(currentHosts, configHosts) != [] || Missing(configHosts, currentHosts) != []
  {
    MissingNone(currentHosts, configHosts);
    MissingNone(configHosts, currentHosts);
    changed := AnyMissing(currentHosts, configHosts);
    if changed { return; }
    changed := AnyMissing(configHosts, currentHosts);
  }

  /** Membership in the difference, read both ways. */
  lemma {:induction false} MissingMembers(xs: seq<Host>, ys: seq<Host>)
    ensures forall i :: 0 <= i < |Missing(xs, ys)| ==> Missing(xs, ys)[i] in xs && !Listed(Missing(xs, ys)[i], ys)
    ensures forall j :: 0 <= j < |xs| && !Listed(xs[j], ys) ==> xs[j] in Missing(xs, ys)
  {
    if xs != [] {
      MissingMembers(xs[..|xs| - 1], ys);
      assert xs == xs[..|xs| - 1] + [xs[|xs| - 1]];
    }
  }

  lemma MissingNone(xs: seq<Host>, ys: seq<Host>)
    ensures Missing(xs, ys) == [] <==> forall i :: 0 <= i < |xs| ==> Listed(xs[i], ys)
  {
    MissingMembers(xs, ys);
    if Missing(xs, ys) != [] {
      assert Missing(xs, ys)[0] in xs;
    }
  }

  lemma MissingAddresses(xs: seq<Host>, ys: seq<Host>)
    ensures Addresses(Missing(xs, ys)) == Addresses(xs) - Addresses(ys)
  {
    MissingMembers(xs, ys);
    forall a | a in Addresses(xs) - Addresses(ys) ensures a in Addresses(Missing(xs, ys)) {
      var h :| h in xs && h.address == a;
      assert !Listed(h, ys);
    }
    forall a | a in Addresses(Missing(xs, ys)) ensures a in Addresses(xs) && a !in Addresses(ys) {
      var h :| h in Missing(xs, ys) && h.address == a;
    }
  }

  /** hosts.go:153-184: taking the hosts to delete from the current addresses and adding the hosts
      to add gives exactly the wanted addresses. */
  lemma DiffsReconcile(current: seq<Host>, config: seq<Host>)
    ensures Addresses(current) - Addresses(Missing(current, config)) + Addresses(Missing(config, current))
            == Addresses(config)
  {
    MissingAddresses(current, config);
    MissingAddresses(config, current);
  }

  /** hosts.go:186-213: a changed list is a changed set of addresses. */
  lemma ChangedMeansDifferentAddresses(current: seq<Host>, config: seq<Host>)
    ensures (Missing(current, config) != [] || Missing(config, current) != [])
            <==> Addresses(current) != Addresses(config)
  {
    MissingAddresses(current, config);
    MissingAddresses(config, current);
    MissingNone(current, config);
    MissingNone(config, current);
    if Missing(current, config) != [] {
      assert Missing(current, config)[0].address in Addresses(Missing(current, config));
    }
    if Missing(config, current) != [] {
      assert Missing(config, current)[0].address in Addresses(Missing(config, current));
    }
  }
}
