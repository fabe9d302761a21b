/** services/proxy.go: the proxy that stands in for the API server on hosts without one. */
module Proxy {
  import opened Text
  import opened Docker
  import opened Hosts
  import opened Services

  const PROXY_ENV := "CP_HOSTS="

  function InternalAddresses(hs: seq<Host>): (r: seq<string>)
    ensures |r| == |hs| && forall i :: 0 <= i < |hs| ==> r[i] == hs[i].internalAddress
  {
    seq(|hs|, i requires 0 <= i < |hs| => hs[i].internalAddress)
  }

  /** proxy.go:53-62 */
  method BuildProxyEnv(cpHosts: seq<Host>) returns (env: string)
    ensures env == Join(InternalAddresses(cpHosts))
  {
    ghost var all := InternalAddresses(cpHosts);
    AccumulateAll(all);
    env := "";
    for i := 0 to |cpHosts|
      invariant env == Accumulated(all, i)
    {
      AccumulateOne(all, i);
      env := env + cpHosts[i].internalAddress;
      if i < |cpHosts| - 1 { env := env + ","; }
    }
  }

  /** proxy.go:39-51: the address list is the container's only argument. */
  function ProxyConfig(image: string, addresses: seq<string>): Config {
    Config(image, [PROXY_ENV + Join(addresses)])
  }

  method RunNginxProxy(host: Host, cpHosts: seq<Host>, image: string) returns (ok: bool)
    modifies host.client
    ensures (host.client.D(), ok) ==
              RunContainer(old(host.client.D()), NGINX_PROXY, ProxyConfig(image, InternalAddresses(cpHosts)))
  {
    var env := BuildProxyEnv(cpHosts);
    ok := host.client.DoRunContainer(NGINX_PROXY, Config(image, [PROXY_ENV + env]));
  }

  /** Two proxy configurations agree exactly when image and address sequence agree. */
  lemma ProxyConfigInjective(image: string, addresses: seq<string>, image': string, addresses': seq<string>)
    requires Free(addresses, ',') && NonEmpty(addresses) && Free(addresses', ',') && NonEmpty(addresses')
    ensures ProxyConfig(image, addresses) == ProxyConfig(image', addresses') <==>
              image == image' && addresses == addresses'
  {
    JoinInjective(addresses, addresses');
    PrefixCancels(PROXY_ENV, Join(addresses), Join(addresses'));
    var c, c' := ProxyConfig(image, addresses), ProxyConfig(image', addresses');
    assert c == c' ==> c.cmd[0] == c'.cmd[0];
  }

  /** proxy.go:29-33 with docker.go:51-62: a successful run replaces a running proxy exactly when the
      image or the sequence of control-plane addresses is not the one it was started with. */
  lemma ProxyReplacedExactlyOnChange(d: Daemon, name: string, image: string, addresses: seq<string>,
                                     image': string, addresses': seq<string>)
    requires Free(addresses, ',') && NonEmpty(addresses) && Free(addresses', ',') && NonEmpty(addresses')
    requires d.Valid() && Up(d.containers, name, ProxyConfig(image, addresses))
    requires RunContainer(d, name, ProxyConfig(image', addresses')).1
    ensures var cs := RunContainer(d, name, ProxyConfig(image', addresses')).0.containers;
            name in cs && (cs[name].id != d.containers[name].id <==> image != image' || addresses != addresses')
  {
    ProxyConfigInjective(image, addresses, image', addresses');
    ReplacedExactlyWhenDifferent(d, name, ProxyConfig(image', addresses'));
  }
}
