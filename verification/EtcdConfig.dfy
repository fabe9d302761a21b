/** The command line of an etcd container (services/etcd.go:63-104) and when it forces a new one. */
module EtcdConfig {
  import opened Text
  import opened Docker
  import opened Pki
  import opened Services
  import opened EtcdReconcile
  import opened EtcdReload

  /** pki/util.go:149-155 */
  function CertPath(name: string): string { "/etc/kubernetes/ssl/" + name + ".pem" }

  function KeyPath(name: string): string { "/etc/kubernetes/ssl/" + name + "-key.pem" }

  function ClusterState(existing: bool): string { if existing then "existing" else "new" }

  /** Extra arguments are not here: the source appends them to the entry point, which the comparison
      of containers does not read. */
  function BuildEtcdCmd(p: Peer, existing: bool, cluster: string): (r: seq<string>)
    ensures |r| == 18
  {
    var node := EtcdCrtName(p.address);
    ["/usr/local/bin/etcd",
     "--name=etcd-" + p.name,
     "--data-dir=/etcd-data",
     "--advertise-client-urls=https://" + p.address + ":2379,https://" + p.address + ":4001",
     "--listen-client-urls=https://0.0.0.0:2379",
     "--initial-advertise-peer-urls=https://" + p.address + ":2380",
     "--listen-peer-urls=https://0.0.0.0:2380",
     "--initial-cluster-token=etcd-cluster-1",
     "--initial-cluster=" + cluster,
     "--initial-cluster-state=" + ClusterState(existing),
     "--peer-client-cert-auth",
     "--client-cert-auth",
     "--trusted-ca-file=" + CertPath("kube-ca"),
     "--peer-trusted-ca-file=" + CertPath("kube-ca"),
     "--cert-file=" + CertPath(node),
     "--key-file=" + KeyPath(node),
     "--peer-cert-file=" + CertPath(node),
     "--peer-key-file=" + KeyPath(node)]
  }

  function BuildEtcdConfig(image: string, p: Peer, existing: bool, cluster: string): Config {
    Config(image, BuildEtcdCmd(p, existing, cluster))
  }

  function EtcdBuilder(image: string): Builder {
    (p: Peer, existing: bool, cluster: string) => BuildEtcdConfig(image, p, existing, cluster)
  }

  /** etcd_util.go:93-102 against etcd.go:106-165: the member list announces the name and the URL that the
      membership API is given for the host. */
  lemma EntryNamesMember(p: Peer)
    ensures Entry(p) == MemberName(p) + "=" + PeerUrl(p.address)
  {
    assert "=https://" == "=" + "https://";
    assert MemberName(p) + "=https://" == MemberName(p) + "=" + "https://";
    assert MemberName(p) + "=" + "https://" + p.address + ":2380" == MemberName(p) + "=" + PeerUrl(p.address);
  }

  lemma NameFlag(p: Peer)
    ensures "--name=etcd-" + p.name == "--name=" + MemberName(p)
  {
    assert "--name=etcd-" == "--name=" + "etcd-";
  }

  lemma UrlFlag(p: Peer)
    ensures "--initial-advertise-peer-urls=https://" + p.address + ":2380"
            == "--initial-advertise-peer-urls=" + PeerUrl(p.address)
  {
    var flag := "--initial-advertise-peer-urls=";
    assert "--initial-advertise-peer-urls=https://" == flag + "https://";
    assert flag + "https://" + p.address + ":2380" == flag + PeerUrl(p.address);
  }

  /** etcd.go:63-104: the container is told the same name and URL, the member list, and that the cluster is
      new unless the host joins an existing one. */
  lemma CmdNamesMember(p: Peer, existing: bool, cluster: string)
    ensures var cmd := BuildEtcdCmd(p, existing, cluster);
            "--name=" + MemberName(p) in cmd &&
            "--initial-advertise-peer-urls=" + PeerUrl(p.address) in cmd &&
            "--initial-cluster=" + cluster in cmd &&
            "--initial-cluster-state=" + (if existing then "existing" else "new") in cmd
  {
    var cmd := BuildEtcdCmd(p, existing, cluster);
    NameFlag(p);
    UrlFlag(p);
    assert cmd[1] in cmd && cmd[5] in cmd && cmd[8] in cmd && cmd[9] in cmd;
  }

  lemma SuffixCancels(a: string, b: string, s: string)
    requires a + s == b + s
    ensures a == b
  {
    assert |a + s| == |a| + |s| && |b + s| == |b| + |s|;
    assert (a + s)[..|a|] == a && (b + s)[..|b|] == b;
  }

  lemma NameShown(p: Peer, e: bool, c: string, p': Peer, e': bool, c': string)
    requires BuildEtcdCmd(p, e, c)[1] == BuildEtcdCmd(p', e', c')[1]
    ensures p.name == p'.name
  {
    PrefixCancels("--name=etcd-", p.name, p'.name);
  }

  lemma AddressShown(p: Peer, e: bool, c: string, p': Peer, e': bool, c': string)
    requires BuildEtcdCmd(p, e, c)[5] == BuildEtcdCmd(p', e', c')[5]
    ensures p.address == p'.address
  {
    SuffixCancels("--initial-advertise-peer-urls=https://" + p.address,
                  "--initial-advertise-peer-urls=https://" + p'.address, ":2380");
    PrefixCancels("--initial-advertise-peer-urls=https://", p.address, p'.address);
  }

  lemma ClusterShown(p: Peer, e: bool, c: string, p': Peer, e': bool, c': string)
    requires BuildEtcdCmd(p, e, c)[8] == BuildEtcdCmd(p', e', c')[8]
    ensures c == c'
  {
    PrefixCancels("--initial-cluster=", c, c');
  }

  lemma StateShown(p: Peer, e: bool, c: string, p': Peer, e': bool, c': string)
    requires BuildEtcdCmd(p, e, c)[9] == BuildEtcdCmd(p', e', c')[9]
    ensures e == e'
  {
    PrefixCancels("--initial-cluster-state=", ClusterState(e), ClusterState(e'));
    assert |ClusterState(true)| == 8 && |ClusterState(false)| == 3;
  }

  /** The command tells name, address, cluster state and member list apart. */
  lemma EtcdCmdInjective(p: Peer, e: bool, ps: seq<Peer>, p': Peer, e': bool, ps': seq<Peer>)
    requires PlainPeers(ps) && PlainPeers(ps')
    ensures BuildEtcdCmd(p, e, InitialCluster(ps)) == BuildEtcdCmd(p', e', InitialCluster(ps')) <==>
              p == p' && e == e' && ps == ps'
  {
    var c, c' := InitialCluster(ps), InitialCluster(ps');
    if BuildEtcdCmd(p, e, c) == BuildEtcdCmd(p', e', c') {
      NameShown(p, e, c, p', e', c');
      AddressShown(p, e, c, p', e', c');
      ClusterShown(p, e, c, p', e', c');
      StateShown(p, e, c, p', e', c');
      InitialClusterInjective(ps, ps');
    }
  }

  /** A successful run replaces a running etcd container exactly when image, host name, internal
      address, cluster state or the sequence of announced members is not the one it runs with. */
  lemma EtcdReplacedExactlyOnChange(d: Daemon, name: string, image: string, p: Peer, e: bool, ps: seq<Peer>,
                                    image': string, p': Peer, e': bool, ps': seq<Peer>)
    requires PlainPeers(ps) && PlainPeers(ps')
    requires d.Valid() && Up(d.containers, name, BuildEtcdConfig(image, p, e, InitialCluster(ps)))
    requires RunContainer(d, name, BuildEtcdConfig(image', p', e', InitialCluster(ps'))).1
    ensures var cs := RunContainer(d, name, BuildEtcdConfig(image', p', e', InitialCluster(ps'))).0.containers;
            name in cs && (cs[name].id != d.containers[name].id <==> image != image' || p != p' || e != e' || ps != ps')
  {
    EtcdCmdInjective(p, e, ps, p', e', ps');
    ReplacedExactlyWhenDifferent(d, name, BuildEtcdConfig(image', p', e', InitialCluster(ps')));
  }

  // ---------------------------------------------------------------- a reconcile with the real command line

  /** What `RunEtcdPlane` asks for on host `i` once the host is part of an existing cluster. */
  function PlaneRequest(image: string, hs: seq<EtcdHost>, i: nat): Config
    requires i < |hs|
  {
    BuildEtcdConfig(image, hs[i].peer, true, InitialCluster(AllPeers(hs)))
  }

  /** etcd.go:63-104 with etcd.go:167-181: after a reconcile that added a member every host counts as
      existing, and its container runs the plane's command line exactly when the last reload did not
      find it stopped with another one. */
  lemma ReloadedCommandLine(s: State, todo: seq<nat>, image: string, i: nat)
    requires todo != [] && i < |s.hosts| && forall k :: 0 <= k < |todo| ==> todo[k] < |s.hosts|
    requires forall j :: 0 <= j < |s.hosts| && s.hosts[j].toAdd ==> j in todo
    requires AddHosts(s, todo, EtcdBuilder(image)).1
    ensures var r := AddHosts(s, todo, EtcdBuilder(image)).0;
            var cs := BeforeLast(s, todo, EtcdBuilder(image)).hosts[i].daemon.containers;
            var cfg := PlaneRequest(image, r.hosts, i);
            r.hosts[i].existing &&
            (Up(r.hosts[i].daemon.containers, ETCD, cfg) <==>
             !(ETCD in cs && !cs[ETCD].running && !Matches(cs[ETCD], cfg)))
  {
    LastReload(s, todo, EtcdBuilder(image), i);
    UpAfterLastReload(s, todo, EtcdBuilder(image), i);
  }

  /** etcd.go:19-33: the etcd plane after such a reconcile, with that command line, replaces nothing. */
  lemma EtcdPlaneReplacesNothing(s: State, todo: seq<nat>, image: string, hs: seq<EtcdHost>, i: nat)
    requires todo != [] && i < |s.hosts| == |hs| && forall k :: 0 <= k < |todo| ==> todo[k] < |s.hosts|
    requires forall j :: 0 <= j < |s.hosts| && s.hosts[j].toAdd ==> j in todo
    requires AddHosts(s, todo, EtcdBuilder(image)).1
    requires Undisturbed(hs, AddHosts(s, todo, EtcdBuilder(image)).0.hosts,
                         BeforeLast(s, todo, EtcdBuilder(image)).hosts)
    ensures RunEtcds(hs, Everyone(|hs|), EtcdBuilder(image), InitialCluster(AllPeers(hs))).0[i].daemon.containers
            == hs[i].daemon.containers
  {
    PlaneAfterReconcileReplacesNothing(s, todo, EtcdBuilder(image), hs, i);
  }
}
