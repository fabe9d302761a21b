/** Role lists over shared host objects, and the labels that follow from the roles
    (cluster/hosts.go:15-19, cluster/hosts.go:48-95, cluster/cluster.go:241-256,
    cluster/reconcile.go:207-222). */
module Cluster {
  import opened Docker
  import opened Hosts
  import Kube

  datatype ConfigNode = ConfigNode(address: string, internalAddress: string, hostnameOverride: string,
                                   roles: seq<string>, labels: map<string, string>)

  datatype Role = Etcd | Control | Worker

  datatype Parsed = Known(role: Role) | Unknown

  /** services/services.go:16-18 */
  function ParseRole(role: string): Parsed {
    if role == "etcd" then Known(Etcd)
    else if role == "controlplane" then Known(Control)
    else if role == "worker" then Known(Worker)
    else Unknown
  }

  function RoleLabel(role: Role): string {
    match role
    case Etcd => "node-role.kubernetes.io/etcd"
    case Control => "node-role.kubernetes.io/master"
    case Worker => "node-role.kubernetes.io/worker"
  }

  lemma RoleLabelsDiffer(r: Role, q: Role)
    ensures RoleLabel(r) == RoleLabel(q) <==> r == q
  {
    assert RoleLabel(Etcd)[24] == 'e' && RoleLabel(Control)[24] == 'm' && RoleLabel(Worker)[24] == 'w';
  }

  predicate Recognised(roles: seq<string>) { forall i :: 0 <= i < |roles| ==> ParseRole(roles[i]).Known? }

  /** How often a node's role list names a role. */
  function Occurs(roles: seq<string>, role: Role): nat {
    if roles == [] then 0
    else Occurs(roles[..|roles| - 1], role) + if ParseRole(roles[|roles| - 1]) == Known(role) then 1 else 0
  }

  predicate HasRole(roles: seq<string>, role: Role) {
    exists i :: 0 <= i < |roles| && ParseRole(roles[i]) == Known(role)
  }

  lemma {:induction false} OccursWhenPresent(roles: seq<string>, role: Role)
    ensures Occurs(roles, role) > 0 <==> HasRole(roles, role)
  {
    if roles != [] {
      var n := |roles| - 1;
      OccursWhenPresent(roles[..n], role);
      if HasRole(roles, role) {
        var i :| 0 <= i < |roles| && ParseRole(roles[i]) == Known(role);
        assert i < n ==> roles[..n][i] == roles[i];
      }
    }
  }

  /** A role list that repeats nothing names each role at most once. */
  lemma {:induction false} OccursOnce(roles: seq<string>, role: Role)
    requires forall i, j :: 0 <= i < j < |roles| ==> roles[i] != roles[j]
    ensures Occurs(roles, role) <= 1
  {
    if roles != [] {
      var n := |roles| - 1;
      OccursOnce(roles[..n], role);
      OccursWhenPresent(roles[..n], role);
    }
  }

  // ---------------------------------------------------------------- labels

  /** hosts.go:60-82: the configured labels, then one label per role. */
  function RoleLabels(labels: map<string, string>, roles: seq<string>): map<string, string> {
    if roles == [] then labels
    else
      var rest := RoleLabels(labels, roles[..|roles| - 1]);
      match ParseRole(roles[|roles| - 1])
      case Known(role) => rest[RoleLabel(role) := "true"]
      case Unknown => rest
  }

  /** hosts.go:84-92: the labels of the roles a node does not have. */
  function MissingLabels(roles: seq<string>): map<string, string> {
    var a := if HasRole(roles, Etcd) then map[] else map[RoleLabel(Etcd) := "true"];
    var b := if HasRole(roles, Control) then a else a[RoleLabel(Control) := "true"];
    if HasRole(roles, Worker) then b else b[RoleLabel(Worker) := "true"]
  }

  lemma {:induction false} RoleLabelsOf(labels: map<string, string>, roles: seq<string>, k: string)
    ensures var r := RoleLabels(labels, roles);
            (IsRoleLabel(roles, k) ==> k in r && r[k] == "true") &&
            (!IsRoleLabel(roles, k) ==> (k in r <==> k in labels) && (k in r ==> r[k] == labels[k]))
  {
    if roles != [] {
      var n := |roles| - 1;
      RoleLabelsOf(labels, roles[..n], k);
      RoleLabelSnoc(roles[..n], roles[n], k);
      assert roles[..n] + [roles[n]] == roles;
    }
  }

  /** `k` is the label of one of these roles. */
  predicate IsRoleLabel(roles: seq<string>, k: string) {
    exists i :: 0 <= i < |roles| && ParseRole(roles[i]).Known? && RoleLabel(ParseRole(roles[i]).role) == k
  }

  lemma RoleLabelSnoc(roles: seq<string>, role: string, k: string)
    ensures IsRoleLabel(roles + [role], k) <==>
            IsRoleLabel(roles, k) || (ParseRole(role).Known? && RoleLabel(ParseRole(role).role) == k)
  {
    var all := roles + [role];
    if IsRoleLabel(roles, k) {
      var i :| 0 <= i < |roles| && ParseRole(roles[i]).Known? && RoleLabel(ParseRole(roles[i]).role) == k;
      assert all[i] == roles[i];
    }
    assert all[|roles|] == role;
  }

  // ---------------------------------------------------------------- role lists

  function Repeat(h: Host, n: nat): (r: seq<Host>)
    ensures |r| == n && forall i :: 0 <= i < n ==> r[i] == h
  {
    seq(n, i => h)
  }

  /** The list of one role: every host in order, once for each time its node names the role. */
  function Placed(hs: seq<Host>, nodes: seq<ConfigNode>, role: Role): seq<Host>
    requires |hs| <= |nodes|
    decreases |hs|
  {
    if hs == [] then []
    else
      var n := |hs| - 1;
      Placed(hs[..n], nodes, role) + Repeat(hs[n], Occurs(nodes[n].roles, role))
  }

  lemma PlacedSnoc(hs: seq<Host>, h: Host, nodes: seq<ConfigNode>, role: Role)
    requires |hs| < |nodes|
    ensures Placed(hs + [h], nodes, role) == Placed(hs, nodes, role) + Repeat(h, Occurs(nodes[|hs|].roles, role))
  {
    assert (hs + [h])[..|hs|] == hs;
  }

  /** The hosts whose node has the role, in order. */
  function Filtered(hs: seq<Host>, nodes: seq<ConfigNode>, role: Role): seq<Host>
    requires |hs| <= |nodes|
    decreases |hs|
  {
    if hs == [] then []
    else
      var n := |hs| - 1;
      var rest := Filtered(hs[..n], nodes, role);
      if HasRole(nodes[n].roles, role) then rest + [hs[n]] else rest
  }

  ghost predicate NoRoleTwice(nodes: seq<ConfigNode>) {
    forall n, i, j :: 0 <= n < |nodes| && 0 <= i < j < |nodes[n].roles| ==> nodes[n].roles[i] != nodes[n].roles[j]
  }

  /** Without repeated roles each role list is the order-preserving filter of the hosts. */
  lemma {:induction false} PlacedIsFiltered(hs: seq<Host>, nodes: seq<ConfigNode>, role: Role)
    requires |hs| <= |nodes| && NoRoleTwice(nodes)
    ensures Placed(hs, nodes, role) == Filtered(hs, nodes, role)
    decreases |hs|
  {
    if hs != [] {
      var n := |hs| - 1;
      PlacedIsFiltered(hs[..n], nodes, role);
      OccursOnce(nodes[n].roles, role);
      OccursWhenPresent(nodes[n].roles, role);
      assert Repeat(hs[n], 1) == [hs[n]] && Repeat(hs[n], 0) == [];
    }
  }

  /** A host object is in a role's list exactly when its node has the role. */
  lemma {:induction false} PlacedMembers(hs: seq<Host>, nodes: seq<ConfigNode>, role: Role, h: Host)
    requires |hs| <= |nodes|
    ensures h in Placed(hs, nodes, role) <==> exists i :: 0 <= i < |hs| && hs[i] == h && HasRole(nodes[i].roles, role)
    decreases |hs|
  {
    if hs != [] {
      var n := |hs| - 1;
      var k := Occurs(nodes[n].roles, role);
      PlacedMembers(hs[..n], nodes, role, h);
      OccursWhenPresent(nodes[n].roles, role);
      assert h in Repeat(hs[n], k) <==> h == hs[n] && k > 0 by {
        if k > 0 { assert Repeat(hs[n], k)[0] == hs[n]; }
      }
      assert forall i :: 0 <= i < n ==> hs[..n][i] == hs[i];
    }
  }

  /** A host object that records what its node says. */
  ghost predicate Reflects(h: Host, node: ConfigNode, client: Client)
    reads h
  {
    h.address == node.address && h.internalAddress == node.internalAddress &&
    h.hostnameOverride == node.hostnameOverride && h.labels == node.labels && h.client == client &&
    (h.isEtcd <==> HasRole(node.roles, Etcd)) && (h.isControl <==> HasRole(node.roles, Control)) &&
    (h.isWorker <==> HasRole(node.roles, Worker)) &&
    h.toAddLabels == RoleLabels(node.labels, node.roles) && h.toDelLabels == MissingLabels(node.roles) &&
    !h.toAddEtcdMember && !h.existingEtcdCluster && h.toAddTaints == [] && h.toDelTaints == []
  }

  // ---------------------------------------------------------------- as the configuration spells roles

  lemma ParsedName(role: string, r: Role)
    ensures ParseRole(role) == Known(r) <==>
            role == match r { case Etcd => "etcd" case Control => "controlplane" case Worker => "worker" }
  {
  }

  lemma RoleByName(roles: seq<string>, r: Role, name: string)
    requires name == match r { case Etcd => "etcd" case Control => "controlplane" case Worker => "worker" }
    ensures HasRole(roles, r) <==> name in roles
  {
    forall i | 0 <= i < |roles| ensures ParseRole(roles[i]) == Known(r) <==> roles[i] == name {
      ParsedName(roles[i], r);
    }
  }

  /** services/services.go:16-18: the three names and no other are recognised. */
  lemma RecognisedByName(roles: seq<string>)
    ensures Recognised(roles) <==> forall i :: 0 <= i < |roles| ==> roles[i] in {"etcd", "controlplane", "worker"}
  {
  }

  /** The flags of a host, by the names its node's role list holds. */
  ghost predicate Spelled(h: Host, node: ConfigNode)
    reads h
  {
    (h.isEtcd <==> "etcd" in node.roles) && (h.isControl <==> "controlplane" in node.roles) &&
    (h.isWorker <==> "worker" in node.roles)
  }

  lemma {:induction false} FlagsByName(h: Host, node: ConfigNode, client: Client)
    requires Reflects(h, node, client)
    ensures Spelled(h, node)
  {
    RoleByName(node.roles, Etcd, "etcd");
    RoleByName(node.roles, Control, "controlplane");
    RoleByName(node.roles, Worker, "worker");
  }

  lemma RoleLabelFor(roles: seq<string>, r: Role)
    ensures IsRoleLabel(roles, RoleLabel(r)) <==> HasRole(roles, r)
  {
    if IsRoleLabel(roles, RoleLabel(r)) {
      var i :| 0 <= i < |roles| && ParseRole(roles[i]).Known? && RoleLabel(ParseRole(roles[i]).role) == RoleLabel(r);
      RoleLabelsDiffer(ParseRole(roles[i]).role, r);
    }
  }

  lemma NoOtherRoleLabel(roles: seq<string>, k: string)
    requires IsRoleLabel(roles, k)
    ensures k in {RoleLabel(Etcd), RoleLabel(Control), RoleLabel(Worker)}
  {
  }

  /** hosts.go:68-80: which label stands for which role. */
  lemma RoleLabelByName(roles: seq<string>, k: string)
    ensures IsRoleLabel(roles, k) <==>
            (k == "node-role.kubernetes.io/etcd" && "etcd" in roles) ||
            (k == "node-role.kubernetes.io/master" && "controlplane" in roles) ||
            (k == "node-role.kubernetes.io/worker" && "worker" in roles)
  {
    RoleByName(roles, Etcd, "etcd");
    RoleByName(roles, Control, "controlplane");
    RoleByName(roles, Worker, "worker");
    RoleLabelFor(roles, Etcd);
    RoleLabelFor(roles, Control);
    RoleLabelFor(roles, Worker);
    if IsRoleLabel(roles, k) { NoOtherRoleLabel(roles, k); }
  }

  // ---------------------------------------------------------------- the cluster object

  /** The list of a role, from `base` on, after one more entry of the node's role list. */
  lemma OneMoreRole(roles: seq<string>, j: nat, role: Role, h: Host, base: seq<Host>)
    requires j < |roles|
    ensures var list := base + Repeat(h, Occurs(roles[..j], role));
            base + Repeat(h, Occurs(roles[..j + 1], role)) ==
              if ParseRole(roles[j]) == Known(role) then list + [h] else list
    ensures HasRole(roles[..j + 1], role) <==> HasRole(roles[..j], role) || ParseRole(roles[j]) == Known(role)
  {
    assert roles[..j + 1][..j] == roles[..j] && roles[..j + 1][j] == roles[j];
    OccursWhenPresent(roles[..j + 1], role);
    OccursWhenPresent(roles[..j], role);
    assert Repeat(h, Occurs(roles[..j], role) + 1) == Repeat(h, Occurs(roles[..j], role)) + [h];
  }

  lemma OneMoreLabel(roles: seq<string>, j: nat, labels: map<string, string>)
    requires j < |roles|
    ensures RoleLabels(labels, roles[..j + 1]) ==
            match ParseRole(roles[j]) {
              case Known(r) => RoleLabels(labels, roles[..j])[RoleLabel(r) := "true"]
              case Unknown => RoleLabels(labels, roles[..j])
            }
  {
    assert roles[..j + 1][..j] == roles[..j] && roles[..j + 1][j] == roles[j];
  }

  /** One object per node, each recording its own. */
  ghost predicate AllReflect(all: seq<Host>, nodes: seq<ConfigNode>, clients: seq<Client>)
    requires |all| <= |nodes| <= |clients|
    reads all
  {
    (forall i, j :: 0 <= i < j < |all| ==> all[i] != all[j]) &&
    forall i :: 0 <= i < |all| ==> Reflects(all[i], nodes[i], clients[i])
  }

  lemma StillReflects(all: seq<Host>, h: Host, nodes: seq<ConfigNode>, clients: seq<Client>)
    requires |all| < |nodes| <= |clients| && AllReflect(all, nodes, clients) && h !in all
    requires Reflects(h, nodes[|all|], clients[|all|])
    ensures AllReflect(all + [h], nodes, clients)
  {
  }

  lemma {:induction false} AllSpelled(all: seq<Host>, nodes: seq<ConfigNode>, clients: seq<Client>)
    requires |all| <= |nodes| <= |clients| && AllReflect(all, nodes, clients)
    ensures forall i :: 0 <= i < |all| ==> Spelled(all[i], nodes[i])
  {
    forall i | 0 <= i < |all| ensures Spelled(all[i], nodes[i]) {
      FlagsByName(all[i], nodes[i], clients[i]);
    }
  }

  class ClusterHosts {
    var etcdHosts: seq<Host>
    var controlPlaneHosts: seq<Host>
    var workerHosts: seq<Host>

    constructor ()
      ensures etcdHosts == [] && controlPlaneHosts == [] && workerHosts == []
    {
      etcdHosts, controlPlaneHosts, workerHosts := [], [], [];
    }

    /** `h` was given these roles when the lists were `e`, `c` and `w`. */
    ghost predicate Given(h: Host, roles: seq<string>, e: seq<Host>, c: seq<Host>, w: seq<Host>,
                          labels: map<string, string>)
      reads this, h
    {
      etcdHosts == e + Repeat(h, Occurs(roles, Etcd)) &&
      controlPlaneHosts == c + Repeat(h, Occurs(roles, Control)) &&
      workerHosts == w + Repeat(h, Occurs(roles, Worker)) &&
      (h.isEtcd <==> HasRole(roles, Etcd)) && (h.isControl <==> HasRole(roles, Control)) &&
      (h.isWorker <==> HasRole(roles, Worker)) && h.toAddLabels == RoleLabels(labels, roles)
    }

    method PlaceOne(h: Host, roles: seq<string>, j: nat,
                    ghost e: seq<Host>, ghost c: seq<Host>, ghost w: seq<Host>, ghost labels: map<string, string>)
      returns (ok: bool)
      requires j < |roles| && Given(h, roles[..j], e, c, w, labels)
      modifies this, h`isEtcd, h`isControl, h`isWorker, h`toAddLabels
      ensures ok <==> ParseRole(roles[j]).Known?
      ensures ok ==> Given(h, roles[..j + 1], e, c, w, labels)
    {
      ok := ParseRole(roles[j]).Known?;
      OneMoreRole(roles, j, Etcd, h, e);
      OneMoreRole(roles, j, Control, h, c);
      OneMoreRole(roles, j, Worker, h, w);
      OneMoreLabel(roles, j, labels);
      match ParseRole(roles[j])
      case Known(Etcd) =>
        h.isEtcd := true;
        h.toAddLabels := h.toAddLabels[RoleLabel(Etcd) := "true"];
        etcdHosts := etcdHosts + [h];
      case Known(Control) =>
        h.isControl := true;
        h.toAddLabels := h.toAddLabels[RoleLabel(Control) := "true"];
        controlPlaneHosts := controlPlaneHosts + [h];
      case Known(Worker) =>
        h.isWorker := true;
        h.toAddLabels := h.toAddLabels[RoleLabel(Worker) := "true"];
        workerHosts := workerHosts + [h];
      case Unknown =>
    }

    /** hosts.go:65-83: one host's roles, up to the first that is not recognised. */
    method Place(h: Host, roles: seq<string>) returns (ok: bool)
      requires !h.isEtcd && !h.isControl && !h.isWorker
      modifies this, h`isEtcd, h`isControl, h`isWorker, h`toAddLabels
      ensures ok <==> Recognised(roles)
      ensures ok ==> Given(h, roles, old(etcdHosts), old(controlPlaneHosts), old(workerHosts), old(h.toAddLabels))
    {
      for j := 0 to |roles|
        invariant Recognised(roles[..j])
        invariant Given(h, roles[..j], old(etcdHosts), old(controlPlaneHosts), old(workerHosts), old(h.toAddLabels))
      {
        ok := PlaceOne(h, roles, j, old(etcdHosts), old(controlPlaneHosts), old(workerHosts), old(h.toAddLabels));
        if !ok { return; }
      }
      assert roles[..|roles|] == roles;
      return true;
    }

    /** hosts.go:52-93: the host object of one node, with its roles and labels. */
    method AddNode(node: ConfigNode, client: Client) returns (ok: bool, h: Host)
      modifies this
      ensures fresh(h)
      ensures ok <==> Recognised(node.roles)
      ensures ok ==> Reflects(h, node, client)
      ensures ok ==> etcdHosts == old(etcdHosts) + Repeat(h, Occurs(node.roles, Etcd))
      ensures ok ==> controlPlaneHosts == old(controlPlaneHosts) + Repeat(h, Occurs(node.roles, Control))
      ensures ok ==> workerHosts == old(workerHosts) + Repeat(h, Occurs(node.roles, Worker))
    {
      h := new Host(node.address, node.internalAddress, node.hostnameOverride, node.labels, client);
      ok := Place(h, node.roles);
      if !ok { return; }
      if !h.isEtcd { h.toDelLabels := h.toDelLabels[RoleLabel(Etcd) := "true"]; }
      if !h.isControl { h.toDelLabels := h.toDelLabels[RoleLabel(Control) := "true"]; }
      if !h.isWorker { h.toDelLabels := h.toDelLabels[RoleLabel(Worker) := "true"]; }
    }

    /** One object per node, shared by the lists of all its roles. */
    ghost predicate Indexed(all: seq<Host>, nodes: seq<ConfigNode>, clients: seq<Client>)
      requires |all| <= |nodes| <= |clients|
      reads this, all
    {
      AllReflect(all, nodes, clients) &&
      etcdHosts == Placed(all, nodes, Etcd) && controlPlaneHosts == Placed(all, nodes, Control) &&
      workerHosts == Placed(all, nodes, Worker)
    }

    method IndexNode(nodes: seq<ConfigNode>, clients: seq<Client>, i: nat, ghost all: seq<Host>)
      returns (ok: bool, h: Host)
      requires i == |all| < |nodes| == |clients| && Indexed(all, nodes, clients)
      modifies this
      ensures fresh(h) && (ok <==> Recognised(nodes[i].roles))
      ensures ok ==> Indexed(all + [h], nodes, clients)
    {
      ok, h := AddNode(nodes[i], clients[i]);
      if ok {
        PlacedSnoc(all, h, nodes, Etcd);
        PlacedSnoc(all, h, nodes, Control);
        PlacedSnoc(all, h, nodes, Worker);
        StillReflects(all, h, nodes, clients);
      }
    }

    method InvertIndexHosts(nodes: seq<ConfigNode>, clients: seq<Client>) returns (ok: bool, ghost all: seq<Host>)
      requires |clients| == |nodes|
      modifies this
      ensures ok <==> forall i :: 0 <= i < |nodes| ==> Recognised(nodes[i].roles)
      ensures ok ==> |all| == |nodes| && Indexed(all, nodes, clients) && forall i :: 0 <= i < |all| ==> fresh(all[i])
      ensures ok ==> forall i :: 0 <= i < |all| ==> Spelled(all[i], nodes[i])
    {
      etcdHosts, controlPlaneHosts, workerHosts := [], [], [];
      all := [];
      for i := 0 to |nodes|
        invariant |all| == i && Indexed(all, nodes, clients)
        invariant forall k :: 0 <= k < i ==> Recognised(nodes[k].roles) && fresh(all[k])
      {
        ghost var h;
        ok, h := IndexNode(nodes, clients, i, all);
        if !ok { return; }
        all := all + [h];
      }
      ok := true;
      AllSpelled(all, nodes, clients);
    }

    /** Each host of the three lists once, in no fixed order. */
    method GetUniqueHostList() returns (uniq: seq<Host>)
      ensures forall h :: h in uniq <==> h in etcdHosts || h in controlPlaneHosts || h in workerHosts
      ensures forall i, j :: 0 <= i < j < |uniq| ==> uniq[i] != uniq[j]
    {
      var hostList := etcdHosts + controlPlaneHosts + workerHosts;
      var seen: set<Host> := {};
      for i := 0 to |hostList|
        invariant forall h :: h in seen <==> h in hostList[..i]
      {
        assert hostList[..i + 1] == hostList[..i] + [hostList[i]];
        seen := seen + {hostList[i]};
      }
      assert hostList[..|hostList|] == hostList;
      uniq := [];
      ghost var all := seen;
      while seen != {}
        invariant seen <= all && forall h :: h in uniq <==> h in all && h !in seen
        invariant forall i, j :: 0 <= i < j < |uniq| ==> uniq[i] != uniq[j]
        decreases |seen|
      {
        var h :| h in seen;
        assert h !in uniq;
        uniq := uniq + [h];
        seen := seen - {h};
      }
    }
  }

  /** When every node has a role, the unique list holds each node's host exactly once. */
  lemma UniqueHoldsEachNode(c: ClusterHosts, all: seq<Host>, nodes: seq<ConfigNode>, clients: seq<Client>,
                            uniq: seq<Host>)
    requires |all| == |nodes| == |clients| && c.Indexed(all, nodes, clients)
    requires forall i :: 0 <= i < |nodes| ==> nodes[i].roles != [] && Recognised(nodes[i].roles)
    requires forall h :: h in uniq <==> h in c.etcdHosts || h in c.controlPlaneHosts || h in c.workerHosts
    requires forall i, j :: 0 <= i < j < |uniq| ==> uniq[i] != uniq[j]
    ensures multiset(uniq) == multiset(all)
  {
    forall i | 0 <= i < |all| ensures all[i] in uniq {
      var roles := nodes[i].roles;
      var role := ParseRole(roles[0]).role;
      assert HasRole(roles, role);
      PlacedMembers(all, nodes, role, all[i]);
    }
    forall h | h in uniq ensures h in all {
      PlacedMembers(all, nodes, Etcd, h);
      PlacedMembers(all, nodes, Control, h);
      PlacedMembers(all, nodes, Worker, h);
    }
    DistinctMultiset(uniq, all);
  }

  lemma {:induction false} DistinctOnce(xs: seq<Host>, h: Host)
    requires forall i, j :: 0 <= i < j < |xs| ==> xs[i] != xs[j]
    ensures multiset(xs)[h] == if h in xs then 1 else 0
  {
    if xs != [] {
      var n := |xs| - 1;
      DistinctOnce(xs[..n], h);
      assert xs == xs[..n] + [xs[n]];
    }
  }

  lemma DistinctMultiset(xs: seq<Host>, ys: seq<Host>)
    requires forall i, j :: 0 <= i < j < |xs| ==> xs[i] != xs[j]
    requires forall i, j :: 0 <= i < j < |ys| ==> ys[i] != ys[j]
    requires (forall i :: 0 <= i < |ys| ==> ys[i] in xs) && forall h :: h in xs ==> h in ys
    ensures multiset(xs) == multiset(ys)
  {
    forall h ensures multiset(xs)[h] == multiset(ys)[h] {
      DistinctOnce(xs, h);
      DistinctOnce(ys, h);
    }
  }

  /** Flags agree with list membership: the host of node `i` is in a role's list exactly when its
      flag for the role is set. */
  lemma FlagsAgree(c: ClusterHosts, all: seq<Host>, nodes: seq<ConfigNode>, clients: seq<Client>, i: nat)
    requires i < |all| == |nodes| == |clients| && c.Indexed(all, nodes, clients)
    ensures all[i] in c.etcdHosts <==> all[i].isEtcd
    ensures all[i] in c.controlPlaneHosts <==> all[i].isControl
    ensures all[i] in c.workerHosts <==> all[i].isWorker
  {
    PlacedMembers(all, nodes, Etcd, all[i]);
    PlacedMembers(all, nodes, Control, all[i]);
    PlacedMembers(all, nodes, Worker, all[i]);
  }

  // ---------------------------------------------------------------- dropped labels

  /** The labels of the first host of `current` with that address. */
  function LabelsAt(current: seq<Host>, address: string): map<string, string> {
    if current == [] then map[]
    else if current[0].address == address then current[0].labels
    else LabelsAt(current[1..], address)
  }

  /** `now` once the keys outside `todo` were put in from `more`. */
  ghost predicate PutFrom(was: map<string, string>, more: map<string, string>, todo: set<string>,
                          now: map<string, string>)
  {
    (forall k :: k in now <==> k in was || (k in more && k !in todo)) &&
    (forall k :: k in now ==> now[k] == if k in more && k !in todo then more[k] else was[k])
  }

  lemma PutAll(was: map<string, string>, more: map<string, string>, now: map<string, string>)
    requires PutFrom(was, more, {}, now)
    ensures now == was + more
  {
  }

  lemma PutOne(was: map<string, string>, more: map<string, string>, todo: set<string>, now: map<string, string>,
               k: string)
    requires PutFrom(was, more, todo, now) && k in todo
    ensures PutFrom(was, more, todo - {k}, if k in more then now[k := more[k]] else now)
  {
  }

  /** reconcile.go:212-218: the keys that only the old configuration had. */
  method DropLabels(host: Host, labels: map<string, string>)
    modifies host`toDelLabels
    ensures host.toDelLabels == old(host.toDelLabels) + (labels - host.labels.Keys)
  {
    ghost var was, more := host.toDelLabels, labels - host.labels.Keys;
    var todo := labels.Keys;
    while todo != {}
      invariant todo <= labels.Keys && PutFrom(was, more, todo, host.toDelLabels)
      decreases |todo|
    {
      var k :| k in todo;
      PutOne(was, more, todo, host.toDelLabels, k);
      todo := todo - {k};
      if k !in host.labels { host.toDelLabels := host.toDelLabels[k := labels[k]]; }
    }
    PutAll(was, more, host.toDelLabels);
  }

  /** Host `j` of the current cluster is the first with this address. */
  ghost predicate IsFirst(current: seq<Host>, address: string, j: int) {
    0 <= j < |current| && current[j].address == address && forall i :: 0 <= i < j ==> current[i].address != address
  }

  lemma {:induction false} LabelsAtFirst(current: seq<Host>, address: string, j: int)
    requires IsFirst(current, address, j)
    ensures LabelsAt(current, address) == current[j].labels
  {
    if j > 0 {
      assert current[0].address != address;
      LabelsAtFirst(current[1..], address, j - 1);
    }
  }

  lemma {:induction false} LabelsAtNone(current: seq<Host>, address: string)
    requires forall j :: 0 <= j < |current| ==> current[j].address != address
    ensures LabelsAt(current, address) == map[]
  {
    if current != [] { LabelsAtNone(current[1..], address); }
  }

  /** From `was` to `now` exactly the labels of `former` that are not wanted any more came in. */
  ghost predicate Dropped(was: map<string, string>, now: map<string, string>, former: map<string, string>,
                          wanted: map<string, string>)
  {
    forall k :: if k in former && k !in wanted then k in now && now[k] == former[k]
                else (k in now <==> k in was) && (k in now ==> now[k] == was[k])
  }

  /** What a wanted host's labels to delete become, from the first current host with its address. */
  ghost predicate SyncedWith(current: seq<Host>, host: Host, was: map<string, string>)
    reads host
  {
    (forall j :: IsFirst(current, host.address, j) ==>
       Dropped(was, host.toDelLabels, current[j].labels, host.labels)) &&
    ((forall j :: 0 <= j < |current| ==> current[j].address != host.address) ==> host.toDelLabels == was)
  }

  lemma {:induction false} SyncedWithFirst(current: seq<Host>, host: Host, was: map<string, string>)
    requires host.toDelLabels == was + (LabelsAt(current, host.address) - host.labels.Keys)
    ensures SyncedWith(current, host, was)
  {
    forall j | IsFirst(current, host.address, j)
      ensures Dropped(was, host.toDelLabels, current[j].labels, host.labels)
    {
      LabelsAtFirst(current, host.address, j);
    }
    if forall j :: 0 <= j < |current| ==> current[j].address != host.address {
      LabelsAtNone(current, host.address);
    }
  }

  method SyncLabels(currentHosts: seq<Host>, configHosts: seq<Host>)
    requires forall i, j :: 0 <= i < j < |configHosts| ==> configHosts[i] != configHosts[j]
    modifies configHosts`toDelLabels
    ensures forall i :: 0 <= i < |configHosts| ==>
              configHosts[i].toDelLabels == old(configHosts[i].toDelLabels) +
                (LabelsAt(currentHosts, configHosts[i].address) - configHosts[i].labels.Keys)
    ensures forall i :: 0 <= i < |configHosts| ==>
              SyncedWith(currentHosts, configHosts[i], old(configHosts[i].toDelLabels))
  {
    for i := 0 to |configHosts|
      invariant forall k :: 0 <= k < i ==>
                  configHosts[k].toDelLabels == old(configHosts[k].toDelLabels) +
                    (LabelsAt(currentHosts, configHosts[k].address) - configHosts[k].labels.Keys)
      invariant forall k :: i <= k < |configHosts| ==> configHosts[k].toDelLabels == old(configHosts[k].toDelLabels)
    {
      SyncHost(configHosts[i], currentHosts);
    }
    forall i | 0 <= i < |configHosts|
      ensures SyncedWith(currentHosts, configHosts[i], old(configHosts[i].toDelLabels))
    {
      SyncedWithFirst(currentHosts, configHosts[i], old(configHosts[i].toDelLabels));
    }
  }

  method SyncHost(host: Host, currentHosts: seq<Host>)
    modifies host`toDelLabels
    ensures host.toDelLabels == old(host.toDelLabels) + (LabelsAt(currentHosts, host.address) - host.labels.Keys)
  {
    for j := 0 to |currentHosts|
      invariant LabelsAt(currentHosts, host.address) == LabelsAt(currentHosts[j..], host.address)
      invariant host.toDelLabels == old(host.toDelLabels)
    {
      if host.address == currentHosts[j].address {
        DropLabels(host, currentHosts[j].labels);
        return;
      }
    }
  }

  /** What a node's labels are after the whole of it: the label of every role it has is "true", every
      other configured label has its configured value, the label of a role it lacks or a label only
      its old configuration had is gone, and any other label is as it was. */
  lemma LabelsAfterSync(node: ConfigNode, former: map<string, string>, labels: map<string, string>, k: string)
    requires Recognised(node.roles)
    ensures var toDel := MissingLabels(node.roles) + (former - node.labels.Keys);
            var r := Kube.Synced(labels, RoleLabels(node.labels, node.roles), toDel);
            if IsRoleLabel(node.roles, k) then k in r && r[k] == "true"
            else if k in node.labels then k in r && r[k] == node.labels[k]
            else if k in former || k in {RoleLabel(Etcd), RoleLabel(Control), RoleLabel(Worker)} then k !in r
            else (k in r <==> k in labels) && (k in r ==> r[k] == labels[k])
  {
    RoleLabelsOf(node.labels, node.roles, k);
    MissingLabelsOf(node.roles, k);
  }

  lemma MissingLabelsOf(roles: seq<string>, k: string)
    ensures k in MissingLabels(roles) <==>
              k in {RoleLabel(Etcd), RoleLabel(Control), RoleLabel(Worker)} && !IsRoleLabel(roles, k)
  {
    RoleLabelFor(roles, Etcd);
    RoleLabelFor(roles, Control);
    RoleLabelFor(roles, Worker);
    RoleLabelsDiffer(Etcd, Control);
    RoleLabelsDiffer(Etcd, Worker);
    RoleLabelsDiffer(Control, Worker);
  }
}
