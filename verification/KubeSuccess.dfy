/** Exactly when cordoning, deletion and label synchronisation succeed, from the calls that fail
    (k8s/node.go:28-54, k8s/node.go:103-173, hosts/hosts.go:119-142). */
module KubeSuccess {
  import opened Kube

  /** No call is going to fail. */
  ghost predicate Quiet(a: Api) { forall n :: a.calls <= n ==> !a.faults(n) }

  /** The call with which round `i` begins if none before it succeeded: a round whose read fails makes one
      call, any other that does not succeed makes two. */
  function RoundStart(faults: nat -> bool, call: nat, i: nat): (r: nat)
    ensures call + i <= r <= call + 2 * i
    decreases i
  {
    if i == 0 then call else RoundStart(faults, if faults(call) then call + 1 else call + 2, i - 1)
  }

  /** A round that begins with this call succeeds; `write` says that it has something to write. */
  predicate Good(faults: nat -> bool, write: bool, call: nat) { !faults(call) && (write ==> !faults(call + 1)) }

  /** One of the first `tries` rounds succeeds. */
  ghost predicate SomeRound(faults: nat -> bool, write: bool, call: nat, tries: nat) {
    exists i: nat :: i < tries && Good(faults, write, RoundStart(faults, call, i))
  }

  lemma FirstRound(faults: nat -> bool, write: bool, call: nat, tries: nat)
    requires tries > 0
    ensures SomeRound(faults, write, call, tries) <==>
            Good(faults, write, call) ||
            SomeRound(faults, write, if faults(call) then call + 1 else call + 2, tries - 1)
  {
    var next := if faults(call) then call + 1 else call + 2;
    assert RoundStart(faults, call, 0) == call;
    if SomeRound(faults, write, call, tries) {
      var i: nat :| i < tries && Good(faults, write, RoundStart(faults, call, i));
      assert i > 0 ==> RoundStart(faults, call, i) == RoundStart(faults, next, i - 1);
    }
    if SomeRound(faults, write, next, tries - 1) {
      var i: nat :| i < tries - 1 && Good(faults, write, RoundStart(faults, next, i));
      assert RoundStart(faults, call, i + 1) == RoundStart(faults, next, i);
    }
  }

  lemma {:induction false} CordonOfAbsent(a: Api, name: string, cordoned: bool, tries: nat)
    requires name !in a.nodes
    ensures !Cordon(a, name, cordoned, tries, false).1
    decreases tries
  {
    if tries > 0 { CordonOfAbsent(Get(a, name).0, name, cordoned, tries - 1); }
  }

  /** node.go:28-54 with `tries` rounds: a cordon succeeds exactly when the node exists and one of the rounds
      reads it and, unless it is in the wanted state already, updates it. */
  lemma {:induction false} CordonSucceeds(a: Api, name: string, cordoned: bool, tries: nat)
    ensures Cordon(a, name, cordoned, tries, false).1 <==>
            name in a.nodes && SomeRound(a.faults, !Has(a.nodes, name, cordoned), a.calls, tries)
    decreases tries
  {
    if name !in a.nodes {
      CordonOfAbsent(a, name, cordoned, tries);
    } else if tries > 0 {
      FirstRound(a.faults, !Has(a.nodes, name, cordoned), a.calls, tries);
      var (b, answer) := Get(a, name);
      if !answer.Found? {
        CordonSucceeds(b, name, cordoned, tries - 1);
      } else if answer.node.unschedulable != cordoned {
        var node := answer.node.(unschedulable := cordoned);
        var (c, ok) := Update(b, name, node);
        if ok {
          CordonOutcome(c, name, cordoned, tries - 1, true);
        } else {
          CordonSucceeds(c, name, cordoned, tries - 1);
        }
      }
    }
  }

  /** node.go:28-54: of a node that exists, a cordon fails exactly when all six rounds do. */
  lemma SixRounds(a: Api, name: string, cordoned: bool)
    requires name in a.nodes
    ensures Cordon(a, name, cordoned, TRIES, false).1 <==>
            SomeRound(a.faults, !Has(a.nodes, name, cordoned), a.calls, 6)
  {
    CordonSucceeds(a, name, cordoned, TRIES);
  }

  lemma {:induction false} CordonKeepsFaults(a: Api, name: string, cordoned: bool, tries: nat, updated: bool)
    ensures var r := Cordon(a, name, cordoned, tries, updated).0; r.faults == a.faults && r.calls >= a.calls
    decreases tries
  {
    if tries > 0 {
      var (b, answer) := Get(a, name);
      if !answer.Found? {
        CordonKeepsFaults(b, name, cordoned, tries - 1, updated);
      } else if answer.node.unschedulable != cordoned {
        var (c, ok) := Update(b, name, answer.node.(unschedulable := cordoned));
        CordonKeepsFaults(c, name, cordoned, tries - 1, updated || ok);
      }
    }
  }

  lemma CordonThenDelete(b: Api, name: string, tries: nat)
    requires name in b.nodes
    ensures var (c, ok) := Cordon(b, name, true, tries, false);
            c.faults == b.faults && c.calls >= b.calls &&
            (ok <==> SomeRound(b.faults, !Has(b.nodes, name, true), b.calls, tries)) &&
            (Delete(c, name).1 <==> !b.faults(c.calls))
  {
    CordonSucceeds(b, name, true, tries);
    CordonOutcome(b, name, true, tries, false);
    CordonKeepsFaults(b, name, true, tries, false);
  }

  /** hosts.go:119-142: a deletion succeeds exactly when its read does and the node is gone already, or the
      node could be cordoned and the last request, the delete, was not refused. */
  lemma DeleteSucceeds(a: Api, name: string)
    ensures var (r, ok) := DeleteHost(a, name, false);
            ok <==> !a.faults(a.calls) &&
                    (name in a.nodes ==>
                      SomeRound(a.faults, !Has(a.nodes, name, true), a.calls + 1, 6) &&
                      r.calls > 0 && !a.faults(r.calls - 1))
  {
    if name in a.nodes { CordonThenDelete(Get(a, name).0, name, TRIES); }
  }

  /** When no call fails a deletion succeeds, whether the node is there or not. */
  lemma QuietDelete(a: Api, name: string, hasAnotherRole: bool)
    requires Quiet(a)
    ensures var (r, ok) := DeleteHost(a, name, hasAnotherRole); ok && Quiet(r)
  {
    if !hasAnotherRole {
      var b := Get(a, name).0;
      CordonKeepsFaults(b, name, true, TRIES, false);
      assert Good(a.faults, !Has(a.nodes, name, true), RoundStart(a.faults, b.calls, 0));
      DeleteSucceeds(a, name);
    }
  }

  /** node.go:103-118 with `tries` rounds: a synchronisation succeeds exactly when one of the rounds reads the
      node, or finds that there is none, and writes its labels where they are not in sync. */
  lemma {:induction false} SyncSucceeds(a: Api, name: string, toAdd: Labels, toDel: Labels, tries: nat)
    ensures SyncRounds(a, name, toAdd, toDel, tries).1 <==>
            SomeRound(a.faults, a.nodes != Relabelled(a.nodes, name, toAdd, toDel), a.calls, tries)
    decreases tries
  {
    if tries > 0 {
      var write := a.nodes != Relabelled(a.nodes, name, toAdd, toDel);
      FirstRound(a.faults, write, a.calls, tries);
      NothingToWrite(a.nodes, name, toAdd, toDel);
      var (b, ok) := SyncOnce(a, name, toAdd, toDel);
      if !ok { SyncSucceeds(b, name, toAdd, toDel, tries - 1); }
    }
  }

  lemma NothingToWrite(nodes: Nodes, name: string, toAdd: Labels, toDel: Labels)
    ensures nodes == Relabelled(nodes, name, toAdd, toDel) <==>
            name !in nodes || nodes[name].labels == Synced(nodes[name].labels, toAdd, toDel)
  {
    if name in nodes && nodes == Relabelled(nodes, name, toAdd, toDel) {
      assert nodes[name] == nodes[name].(labels := Synced(nodes[name].labels, toAdd, toDel));
    }
  }

  /** node.go:103-118: six rounds. */
  lemma SixSyncRounds(a: Api, name: string, toAdd: Labels, toDel: Labels)
    ensures SyncRounds(a, name, toAdd, toDel, TRIES).1 <==>
            SomeRound(a.faults, a.nodes != Relabelled(a.nodes, name, toAdd, toDel), a.calls, 6)
  {
    SyncSucceeds(a, name, toAdd, toDel, TRIES);
  }

  // ---------------------------------------------------------------- how many calls, when none fails

  /** node.go:28-54: a node in the wanted state is read once; any other is read, updated and, as the update does
      not end the loop, read again. */
  lemma QuietCordonCalls(a: Api, name: string, cordoned: bool, tries: nat)
    requires Quiet(a) && name in a.nodes && tries >= 2
    ensures var (r, ok) := Cordon(a, name, cordoned, tries, false);
            ok && r.calls == a.calls + if Has(a.nodes, name, cordoned) then 1 else 3
  {
    var (b, answer) := Get(a, name);
    if answer.node.unschedulable != cordoned {
      var c := Update(b, name, answer.node.(unschedulable := cordoned)).0;
      assert Has(c.nodes, name, cordoned) && !c.Fails();
      assert Cordon(c, name, cordoned, tries - 1, true) == (Get(c, name).0, true);
    }
  }

  /** hosts.go:119-142: one call for a host without a node object, three for one that is cordoned already and
      five for any other. */
  lemma QuietDeleteCalls(a: Api, name: string)
    requires Quiet(a)
    ensures DeleteHost(a, name, false).0.calls ==
              a.calls + if name !in a.nodes then 1 else if Has(a.nodes, name, true) then 3 else 5
  {
    var b := Get(a, name).0;
    if name in a.nodes { QuietCordonCalls(b, name, true, TRIES); }
  }

  /** node.go:103-118: one call for a node that is in sync or does not exist, two for any other. */
  lemma QuietSyncCalls(a: Api, name: string, toAdd: Labels, toDel: Labels, tries: nat)
    requires Quiet(a) && tries > 0
    ensures var (r, ok) := SyncRounds(a, name, toAdd, toDel, tries);
            ok && r.calls == a.calls + if a.nodes == Relabelled(a.nodes, name, toAdd, toDel) then 1 else 2
  {
    NothingToWrite(a.nodes, name, toAdd, toDel);
  }
}
