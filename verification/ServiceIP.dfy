/** services/services.go:39-52: the Kubernetes service address is the network address plus one.

    Addresses are big-endian byte arrays of any width; a prefix is a number of leading one bits as
    in section 3.1 of RFC 4632 and section 2.3 of RFC 4291. */
module ServiceIP {
  newtype byte = n: int | 0 <= n < 256

  function Pow(b: nat, e: nat): (r: nat)
    ensures b > 0 ==> r > 0
  {
    if e == 0 then 1 else
    var p := Pow(b, e - 1);
    assert b > 0 ==> b * p > 0;
    b * p
  }

  function Value(s: seq<byte>): nat {
    if s == [] then 0 else 256 * Value(s[..|s| - 1]) + s[|s| - 1] as nat
  }

  lemma {:induction false} ValueBound(s: seq<byte>)
    ensures Value(s) < Pow(256, |s|)
  {
    if s != [] {
      ValueBound(s[..|s| - 1]);
    }
  }

  /** Adding one to a suffix of maximal bytes carries into the byte before it. */
  lemma {:induction false} CarryStep(s: seq<byte>, t: seq<byte>, j: nat)
    requires |s| == |t| && j < |s| && s[..j] == t[..j]
    requires forall k :: j < k < |s| ==> s[k] == 255 && t[k] == 0
    requires s[j] < 255 && t[j] == s[j] + 1
    ensures Value(t) == Value(s) + 1
    decreases |s|
  {
    var n := |s| - 1;
    if j == n {
      assert s[..n] == t[..n];
    } else {
      assert s[..n][..j] == t[..n][..j];
      CarryStep(s[..n], t[..n], j);
    }
  }

  lemma {:induction false} AllMaximal(s: seq<byte>)
    requires forall k :: 0 <= k < |s| ==> s[k] == 255
    ensures Value(s) == Pow(256, |s|) - 1
  {
    if s != [] {
      AllMaximal(s[..|s| - 1]);
    }
  }

  lemma {:induction false} AllZero(s: seq<byte>)
    requires forall k :: 0 <= k < |s| ==> s[k] == 0
    ensures Value(s) == 0
  {
    if s != [] {
      AllZero(s[..|s| - 1]);
    }
  }

  lemma Expand(q: int, k: nat, m: nat)
    ensures (q + 1 + k) * m == q * m + m + k * m && k * m >= 0
  {
  }

  lemma DivisionUnique(m: nat, q: int, r: int, q': int, r': int)
    requires 0 <= r < m && 0 <= r' < m && q * m + r == q' * m + r'
    ensures q == q' && r == r'
  {
    if q > q' {
      Expand(q', q - q' - 1, m);
    } else if q < q' {
      Expand(q, q' - q - 1, m);
    }
  }

  lemma ModUnique(x: int, m: nat, q: int, r: nat)
    requires m > 0 && x == q * m + r && r < m
    ensures x % m == r
  {
    DivisionUnique(m, q, r, x / m, x % m);
  }

  /** services.go:45-50, in place: plus one modulo 256^n. */
  method Increment(ip: array<byte>)
    modifies ip
    ensures Value(ip[..]) == (Value(old(ip[..])) + 1) % Pow(256, ip.Length)
  {
    ghost var was := ip[..];
    ValueBound(was);
    var j := ip.Length - 1;
    while j >= 0
      invariant -1 <= j < ip.Length
      invariant ip[..j + 1] == was[..j + 1]
      invariant forall k :: j < k < ip.Length ==> was[k] == 255 && ip[k] == 0
    {
      ip[j] := if ip[j] == 255 then 0 else ip[j] + 1;
      if ip[j] > 0 {
        CarryStep(was, ip[..], j);
        ValueBound(ip[..]);
        ModUnique(Value(was) + 1, Pow(256, ip.Length), 0, Value(ip[..]));
        return;
      }
      j := j - 1;
    }
    AllMaximal(was);
    AllZero(ip[..]);
    ModUnique(Value(was) + 1, Pow(256, ip.Length), 1, 0);
  }

  // ---------------------------------------------------------------- CIDR networks

  /** `b` with its low `bits` bits cleared. */
  function Clear(b: byte, bits: nat): byte
    requires bits <= 8
  {
    var unit := Pow(2, bits);
    assert 0 <= b as int % unit <= b as int;
    (b as int - b as int % unit) as byte
  }

  /** Byte-wise masking with a prefix that leaves `host` host bits: those bits become zero. */
  function Mask(s: seq<byte>, host: nat): (r: seq<byte>)
    requires host <= 8 * |s|
    ensures |r| == |s|
  {
    if s == [] then []
    else if host >= 8 then Mask(s[..|s| - 1], host - 8) + [0]
    else s[..|s| - 1] + [Clear(s[|s| - 1], host)]
  }

  lemma PowSplit(a: nat, b: nat)
    ensures Pow(2, a + b) == Pow(2, a) * Pow(2, b)
  {
    if a > 0 {
      PowSplit(a - 1, b);
    }
  }

  lemma Pow8()
    ensures Pow(2, 8) == 256
  {
    assert Pow(2, 4) == 16;
    PowSplit(4, 4);
  }

  lemma ModScaled(v: nat, b: nat, m: nat)
    requires b < 256 && m > 0
    ensures (256 * v + b) % (256 * m) == 256 * (v % m) + b
  {
    var q, r := v / m, v % m;
    assert v == q * m + r;
    assert 256 * v + b == q * (256 * m) + (256 * r + b);
    assert 256 * r + b < 256 * m;
    ModUnique(256 * v + b, 256 * m, q, 256 * r + b);
  }

  lemma ModDivides(v: nat, b: nat, unit: nat, times: nat)
    requires unit > 0 && 256 == unit * times
    ensures (256 * v + b) % unit == b % unit
  {
    var q, r := b / unit, b % unit;
    assert 256 * v + b == (times * v + q) * unit + r by {
      assert 256 * v == unit * times * v;
    }
    ModUnique(256 * v + b, unit, times * v + q, r);
  }

  /** Masking gives the network number: the address rounded down to a multiple of 2^host. */
  lemma {:induction false} MaskValue(s: seq<byte>, host: nat)
    requires host <= 8 * |s|
    ensures Value(Mask(s, host)) == Value(s) - Value(s) % Pow(2, host)
  {
    if s == [] {
    } else {
      var init, b := s[..|s| - 1], s[|s| - 1];
      if host >= 8 {
        MaskValue(init, host - 8);
        var m := Mask(init, host - 8);
        assert (m + [0])[..|s| - 1] == m;
        Pow8();
        PowSplit(8, host - 8);
        ModScaled(Value(init), b as nat, Pow(2, host - 8));
      } else {
        assert (init + [Clear(b, host)])[..|s| - 1] == init;
        Pow8();
        PowSplit(host, 8 - host);
        ModDivides(Value(init), b as nat, Pow(2, host), Pow(2, 8 - host));
      }
    }
  }

  lemma MaskMultiple(v: nat, unit: nat)
    requires unit > 0
    ensures (v - v % unit) % unit == 0
  {
    assert v == v / unit * unit + v % unit;
    ModUnique(v - v % unit, unit, v / unit, 0);
  }

  /** Two addresses are in the same network when masking makes them equal. */
  predicate SameNetwork(s: seq<byte>, t: seq<byte>, host: nat) {
    |s| == |t| && host <= 8 * |s| && Mask(s, host) == Mask(t, host)
  }

  lemma {:induction false} ValueInjective(s: seq<byte>, t: seq<byte>)
    requires |s| == |t| && Value(s) == Value(t)
    ensures s == t
  {
    if s != [] {
      var n := |s| - 1;
      DivisionUnique(256, Value(s[..n]), s[n] as int, Value(t[..n]), t[n] as int);
      ValueInjective(s[..n], t[..n]);
      assert s == s[..n] + [s[n]] && t == t[..n] + [t[n]];
    }
  }

  /** A network with at least one host bit has room for its first address. */
  lemma NextNumber(v: nat, host: nat, n: nat)
    requires 0 < host <= 8 * n && v < Pow(256, n)
    ensures var net := v - v % Pow(2, host);
            (net + 1) % Pow(256, n) == net + 1 && net + 1 - (net + 1) % Pow(2, host) == net
  {
    var unit, rest := Pow(2, host), Pow(2, 8 * n - host);
    WidthIsPower(n);
    PowSplit(host, 8 * n - host);
    PowSplit(1, host - 1);
    assert Pow(2, 1) == 2;
    NextInRange(v, unit, rest, Pow(256, n), v - v % unit);
  }

  lemma NextInRange(v: nat, unit: nat, times: nat, all: nat, net: int)
    requires unit >= 2 && all == unit * times && v < all && net == v - v % unit
    ensures (net + 1) % all == net + 1 && net + 1 - (net + 1) % unit == net
  {
    MaskMultiple(v, unit);
    NextMultiple(net, unit, times);
  }

  lemma NextNumberWithoutHostBits(v: nat, n: nat)
    requires n > 0 && v < Pow(256, n)
    ensures (v + 1) % Pow(256, n) != v
  {
    WidthIsPower(n);
    if v + 1 < Pow(256, n) { ModUnique(v + 1, Pow(256, n), 0, v + 1); } else { ModUnique(v + 1, Pow(256, n), 1, 0); }
  }

  /** When the prefix leaves at least one host bit, the network address plus one has the same
      network number; with none it never does. */
  lemma NextAddressInNetwork(addr: seq<byte>, host: nat, next: seq<byte>)
    requires host <= 8 * |addr| == 8 * |next| && |addr| > 0
    requires Value(next) == (Value(Mask(addr, host)) + 1) % Pow(256, |addr|)
    ensures SameNetwork(addr, next, host) <==> host > 0
    ensures host > 0 ==> Value(next) == Value(Mask(addr, host)) + 1
    ensures next != Mask(addr, host)
  {
    ValueBound(addr);
    MaskValue(addr, host);
    MaskValue(next, host);
    if host > 0 {
      NextNumber(Value(addr), host, |addr|);
      ValueInjective(Mask(addr, host), Mask(next, host));
    } else {
      assert Pow(2, 0) == 1;
      NextNumberWithoutHostBits(Value(addr), |addr|);
    }
  }

  lemma {:induction false} WidthIsPower(n: nat)
    ensures Pow(256, n) == Pow(2, 8 * n)
    ensures n > 0 ==> Pow(256, n) >= 256
  {
    if n > 0 {
      WidthIsPower(n - 1);
      Pow8();
      PowSplit(8, 8 * (n - 1));
    }
  }

  lemma NextMultiple(net: nat, unit: nat, times: nat)
    requires unit >= 2 && net % unit == 0 && net < unit * times
    ensures (net + 1) % (unit * times) == net + 1 && (net + 1) % unit == 1
  {
    var q := net / unit;
    assert net == q * unit + 0;
    ModUnique(net + 1, unit, q, 1);
    if net + 1 == unit * times {
      assert net + 1 == times * unit;
      DivisionUnique(unit, q, 1, times, 0);
    }
    ModUnique(net + 1, unit * times, 0, net + 1);
  }

  /** services.go:39-52 for an address and a prefix length in bits. */
  method GetKubernetesServiceIP(addr: seq<byte>, prefix: nat) returns (ip: seq<byte>)
    requires addr != [] && prefix <= 8 * |addr|
    ensures |ip| == |addr| && ip != Mask(addr, 8 * |addr| - prefix)
    ensures Value(ip) == (Value(Mask(addr, 8 * |addr| - prefix)) + 1) % Pow(256, |addr|)
    ensures SameNetwork(addr, ip, 8 * |addr| - prefix) <==> prefix < 8 * |addr|
  {
    var host := 8 * |addr| - prefix;
    var masked := Mask(addr, host);
    var a := new byte[|masked|](i requires 0 <= i < |masked| => masked[i]);
    assert a[..] == masked;
    Increment(a);
    ip := a[..];
    NextAddressInNetwork(addr, host, ip);
  }
}
