/** The host that the local kubeconfig talks to is deleted last
    (cluster/reconcile.go:79-90, cluster/cluster.go:197-205). */
module MoveToEnd {
  import opened Text
  import opened Hosts

  // ---------------------------------------------------------------- the address in the kubeconfig

  datatype Address = Got(address: string) | OutOfRange

  /** cluster.go:202-204: the second field of the URL without its two slashes; the source indexes
      without checking. */
  function GetLocalConfigAddress(host: string): Address {
    var fields := Split(host, ':');
    if |fields| < 2 || |fields[1]| < 2 then OutOfRange else Got(fields[1][2..])
  }

  /** cluster.go:169: the URL that the kubeconfig is written with. */
  function KubeUrl(address: string): string { "https" + [':'] + ("//" + address + ":6443") }

  /** No field of a split holds the separator. */
  lemma {:induction false} SplitFieldsFree(s: string, c: char)
    ensures Free(Split(s, c), c)
  {
    if s != "" {
      SplitFieldsFree(s[1..], c);
    }
  }

  /** The address read back is the one written exactly when it has no colon. */
  lemma LocalConfigAddressRoundTrip(address: string)
    ensures GetLocalConfigAddress(KubeUrl(address)) == Got(address) <==> ':' !in address
  {
    var rest := "//" + address + ":6443";
    SplitFirst("https", ':', rest);
    var fields := Split(rest, ':');
    if ':' !in address {
      assert rest == ("//" + address) + [':'] + "6443";
      SplitFirst("//" + address, ':', "6443");
      assert ("//" + address)[2..] == address;
    } else {
      SplitFieldsFree(rest, ':');
    }
  }

  // ---------------------------------------------------------------- moving it to the end

  /** The hosts with another address, in order. */
  function Others(hs: seq<Host>, address: string): seq<Host> {
    if hs == [] then []
    else if hs[0].address == address then Others(hs[1..], address)
    else [hs[0]] + Others(hs[1..], address)
  }

  lemma {:induction false} OthersConcat(a: seq<Host>, b: seq<Host>, address: string)
    ensures Others(a + b, address) == Others(a, address) + Others(b, address)
  {
    if a == [] {
      assert a + b == b;
    } else {
      assert (a + b)[1..] == a[1..] + b;
      OthersConcat(a[1..], b, address);
    }
  }

  function Rotated(hs: seq<Host>, i: nat): seq<Host>
    requires i < |hs|
  {
    hs[..i] + hs[i + 1..] + [hs[i]]
  }

  lemma {:induction false} RotatedOthers(hs: seq<Host>, i: nat)
    requires i < |hs|
    ensures Others(Rotated(hs, i), hs[i].address) == Others(hs, hs[i].address)
  {
    if i == 0 {
      assert Rotated(hs, 0) == hs[1..] + [hs[0]];
      OthersConcat(hs[1..], [hs[0]], hs[0].address);
      assert [hs[0]][1..] == [];
    } else {
      RotatedOthers(hs[1..], i - 1);
      assert Rotated(hs, i)[1..] == Rotated(hs[1..], i - 1);
    }
  }

  lemma RotatedMultiset(hs: seq<Host>, i: nat)
    requires i < |hs|
    ensures multiset(Rotated(hs, i)) == multiset(hs)
  {
    assert hs == hs[..i] + ([hs[i]] + hs[i + 1..]);
  }

  /** Two appends on one backing array: shift the tail left, put the host behind it. */
  method Rotate(a: array<Host>, i: nat)
    requires i < a.Length
    modifies a
    ensures a[..] == Rotated(old(a[..]), i)
  {
    var h := a[i];
    for k := i to a.Length - 1
      invariant forall j :: 0 <= j < a.Length ==> a[j] == if i <= j < k then old(a[j + 1]) else old(a[j])
    {
      a[k] := a[k + 1];
    }
    a[a.Length - 1] := h;
  }

  /** A permutation that keeps the order of the hosts with another address. */
  ghost predicate Moves(hs: seq<Host>, moved: seq<Host>, address: string) {
    multiset(moved) == multiset(hs) && Others(moved, address) == Others(hs, address)
  }

  lemma RotatedMoves(from: seq<Host>, hs: seq<Host>, i: nat)
    requires i < |hs| && Moves(from, hs, hs[i].address)
    ensures Moves(from, Rotated(hs, i), hs[i].address)
  {
    RotatedOthers(hs, i);
    RotatedMultiset(hs, i);
  }

  /** The loop over a slice that its body rewrites: iteration `i` reads what is at `i` by then. */
  method MoveSelfToEnd(a: array<Host>, selfAddress: string)
    modifies a
    ensures Moves(old(a[..]), a[..], selfAddress)
    ensures (exists k :: 0 <= k < a.Length && old(a[k]).address == selfAddress) ==>
              a[a.Length - 1].address == selfAddress
  {
    ghost var was := a[..];
    for i := 0 to a.Length
      invariant Moves(was, a[..], selfAddress)
      invariant (a[..] == was && forall k :: 0 <= k < i ==> was[k].address != selfAddress) ||
                (a.Length > 0 && a[a.Length - 1].address == selfAddress)
    {
      if a[i].address == selfAddress {
        RotatedMoves(was, a[..], i);
        Rotate(a, i);
        assert a[a.Length - 1] == a[..][a.Length - 1];
      }
    }
  }

  lemma {:induction false} OthersSelf(hs: seq<Host>, address: string)
    requires forall i :: 0 <= i < |hs| ==> hs[i].address != address
    ensures Others(hs, address) == hs
  {
    if hs != [] { OthersSelf(hs[1..], address); }
  }

  /** When only one host has the address, the result is the other hosts in order, then that one. */
  lemma OnlySelfMoves(hs: seq<Host>, moved: seq<Host>, address: string, k: nat)
    requires k < |hs| && hs[k].address == address
    requires forall i :: 0 <= i < |hs| && i != k ==> hs[i].address != address
    requires Moves(hs, moved, address)
    requires |moved| > 0 && moved[|moved| - 1].address == address
    ensures moved == Others(hs, address) + [hs[k]]
  {
    FromTheList(hs, moved, |moved| - 1);
    forall i | 0 <= i < |moved| - 1 ensures moved[i].address != address {
      FromTheList(hs, moved, i);
      NoneBefore(hs, moved, k, i, address);
    }
    OthersThenLast(moved, address);
  }

  lemma OthersThenLast(hs: seq<Host>, address: string)
    requires |hs| > 0 && hs[|hs| - 1].address == address
    requires forall i :: 0 <= i < |hs| - 1 ==> hs[i].address != address
    ensures hs == Others(hs, address) + [hs[|hs| - 1]]
  {
    var n := |hs| - 1;
    assert hs == hs[..n] + [hs[n]];
    OthersSelf(hs[..n], address);
    OthersConcat(hs[..n], [hs[n]], address);
    assert [hs[n]][1..] == [];
  }

  lemma NoneBefore(hs: seq<Host>, moved: seq<Host>, k: nat, i: nat, address: string)
    requires k < |hs| && hs[k].address == address
    requires forall i :: 0 <= i < |hs| && i != k ==> hs[i].address != address
    requires multiset(moved) == multiset(hs) && i < |moved| - 1 && moved[|moved| - 1] == hs[k]
    ensures moved[i] != hs[k]
  {
    OnlyOnce(hs, k, address);
    var n := |moved| - 1;
    assert moved == moved[..n] + [moved[n]];
    assert multiset(moved) == multiset(moved[..n]) + multiset{moved[n]};
    assert moved[i] in moved[..n];
  }

  lemma FromTheList(hs: seq<Host>, moved: seq<Host>, i: nat)
    requires multiset(moved) == multiset(hs) && i < |moved|
    ensures exists j :: 0 <= j < |hs| && hs[j] == moved[i]
  {
    assert moved[i] in multiset(hs);
  }

  lemma OnlyOnce(hs: seq<Host>, k: nat, address: string)
    requires k < |hs| && hs[k].address == address
    requires forall i :: 0 <= i < |hs| && i != k ==> hs[i].address != address
    ensures multiset(hs)[hs[k]] == 1
  {
    assert hs == hs[..k] + ([hs[k]] + hs[k + 1..]);
    assert hs[k] !in hs[..k] && hs[k] !in hs[k + 1..];
    assert multiset(hs) == multiset(hs[..k]) + (multiset{hs[k]} + multiset(hs[k + 1..]));
  }
}
