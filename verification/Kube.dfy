/** Kubernetes node objects: cordoning, deletion and label synchronisation
    (k8s/node.go:16-54, k8s/node.go:103-173, hosts/hosts.go:119-142).

    As for Docker and etcd, which calls fail is part of the state, and a failed call has no effect.
    Nobody else writes node objects meanwhile. */
module Kube {
  /** node.go:30 and node.go:108: a loop from 0 to 5. */
  const TRIES: nat := 6

  type Labels = map<string, string>

  datatype Node = Node(unschedulable: bool, labels: Labels)

  type Nodes = map<string, Node>

  datatype Request = Read | Refused | Updated | DeleteSent

  /** A request for a node, with the node objects as they were when it was sent. */
  datatype Entry = Entry(request: Request, name: string, nodes: Nodes)

  datatype Tally = Tally(gets: nat, refusals: nat, updates: nat, deletes: nat) {
    function Add(request: Request): Tally {
      match request
      case Read => this.(gets := gets + 1)
      case Refused => this.(refusals := refusals + 1)
      case Updated => this.(updates := updates + 1)
      case DeleteSent => this.(deletes := deletes + 1)
    }
  }

  datatype Answer = Found(node: Node) | NotFound | Failed

  /** `log` and `sent` record the requests made so far, in order and by number. */
  datatype Api = Api(nodes: Nodes, calls: nat, faults: nat -> bool, log: seq<Entry>, sent: Tally) {
    predicate Fails() { faults(calls) }

    function Send(request: Request, name: string, after: Nodes): Api {
      Api(after, calls + 1, faults, log + [Entry(request, name, nodes)], sent.Add(request))
    }
  }

  // ---------------------------------------------------------------- single requests

  function Get(a: Api, name: string): (Api, Answer) {
    (a.Send(Read, name, a.nodes),
     if a.Fails() then Failed else if name in a.nodes then Found(a.nodes[name]) else NotFound)
  }

  function Update(a: Api, name: string, node: Node): (Api, bool) {
    if a.Fails() || name !in a.nodes then (a.Send(Refused, name, a.nodes), false)
    else (a.Send(Updated, name, a.nodes[name := node]), true)
  }

  function Delete(a: Api, name: string): (Api, bool) {
    if a.Fails() || name !in a.nodes then (a.Send(DeleteSent, name, a.nodes), false)
    else (a.Send(DeleteSent, name, a.nodes - {name}), true)
  }

  // ---------------------------------------------------------------- cordon and delete

  /** node.go:28-54 with `tries` rounds left: an update that succeeded does not end the loop. */
  function Cordon(a: Api, name: string, cordoned: bool, tries: nat, updated: bool): (Api, bool)
    decreases tries, a
  {
    if tries == 0 then (a, updated)
    else
      var (b, answer) := Get(a, name);
      if !answer.Found? then Cordon(b, name, cordoned, tries - 1, updated)
      else if answer.node.unschedulable == cordoned then (b, true)
      else
        var (c, ok) := Update(b, name, answer.node.(unschedulable := cordoned));
        Cordon(c, name, cordoned, tries - 1, updated || ok)
  }

  /** hosts.go:119-142 */
  function DeleteHost(a: Api, name: string, hasAnotherRole: bool): (Api, bool) {
    if hasAnotherRole then (a, true)
    else
      var (b, answer) := Get(a, name);
      if !answer.Found? then (b, answer.NotFound?)
      else
        var (c, ok) := Cordon(b, name, true, TRIES, false);
        if !ok then (c, false) else Delete(c, name)
  }

  predicate Has(nodes: Nodes, name: string, cordoned: bool) { name in nodes && nodes[name].unschedulable == cordoned }

  /** What a cordon leaves: a success has the node in the wanted state, a failure changed nothing,
      and at most the one field of the one node is different. */
  lemma {:induction false} CordonOutcome(a: Api, name: string, cordoned: bool, tries: nat, updated: bool)
    requires updated ==> Has(a.nodes, name, cordoned)
    ensures var (r, ok) := Cordon(a, name, cordoned, tries, updated);
            (ok ==> Has(r.nodes, name, cordoned)) && (!ok ==> r.nodes == a.nodes) && (updated ==> ok) &&
            (Has(a.nodes, name, cordoned) ==> r.nodes == a.nodes) &&
            (r.nodes == a.nodes ||
             (name in a.nodes && r.nodes == a.nodes[name := a.nodes[name].(unschedulable := cordoned)]))
    decreases tries
  {
    if tries > 0 {
      var (b, answer) := Get(a, name);
      if !answer.Found? {
        CordonOutcome(b, name, cordoned, tries - 1, updated);
      } else if answer.node.unschedulable != cordoned {
        var (c, ok) := Update(b, name, answer.node.(unschedulable := cordoned));
        CordonOutcome(c, name, cordoned, tries - 1, updated || ok);
      }
    }
  }

  /** node.go:28-54: at most one read per round and no delete request. */
  lemma {:induction false} CordonReads(a: Api, name: string, cordoned: bool, tries: nat, updated: bool)
    ensures var r := Cordon(a, name, cordoned, tries, updated).0;
            r.sent.gets <= a.sent.gets + tries && r.sent.deletes == a.sent.deletes
    decreases tries
  {
    if tries > 0 {
      var (b, answer) := Get(a, name);
      if !answer.Found? {
        CordonReads(b, name, cordoned, tries - 1, updated);
      } else if answer.node.unschedulable != cordoned {
        var (c, ok) := Update(b, name, answer.node.(unschedulable := cordoned));
        CordonReads(c, name, cordoned, tries - 1, updated || ok);
      }
    }
  }

  /** node.go:28-54: all rounds together make at most one successful update, although a success does
      not end the loop; one exactly when the node was changed. */
  lemma {:induction false} CordonUpdates(a: Api, name: string, cordoned: bool, tries: nat, updated: bool)
    requires updated ==> Has(a.nodes, name, cordoned)
    ensures var r := Cordon(a, name, cordoned, tries, updated).0;
            r.sent.updates == a.sent.updates + if r.nodes == a.nodes then 0 else 1
    decreases tries
  {
    if tries > 0 {
      var (b, answer) := Get(a, name);
      if !answer.Found? {
        CordonUpdates(b, name, cordoned, tries - 1, updated);
      } else if answer.node.unschedulable != cordoned {
        var (c, ok) := Update(b, name, answer.node.(unschedulable := cordoned));
        CordonUpdates(c, name, cordoned, tries - 1, updated || ok);
        CordonOutcome(c, name, cordoned, tries - 1, updated || ok);
      }
    }
  }

  /** Every delete request since `from` found the node present and unschedulable. */
  ghost predicate DeletesCordoned(log: seq<Entry>, from: nat) {
    forall i :: from <= i < |log| && log[i].request == DeleteSent ==> Has(log[i].nodes, log[i].name, true)
  }

  lemma {:induction false} CordonSendsNoDelete(a: Api, name: string, cordoned: bool, tries: nat, updated: bool,
                                               from: nat)
    requires DeletesCordoned(a.log, from)
    ensures DeletesCordoned(Cordon(a, name, cordoned, tries, updated).0.log, from)
    decreases tries
  {
    if tries > 0 {
      var (b, answer) := Get(a, name);
      if !answer.Found? {
        CordonSendsNoDelete(b, name, cordoned, tries - 1, updated, from);
      } else if answer.node.unschedulable != cordoned {
        var (c, ok) := Update(b, name, answer.node.(unschedulable := cordoned));
        CordonSendsNoDelete(c, name, cordoned, tries - 1, updated || ok, from);
      }
    }
  }

  /** hosts.go:119-142 keeps the rule that only cordoned nodes are deleted. */
  lemma DeleteOnlyCordoned(a: Api, name: string, hasAnotherRole: bool, from: nat)
    requires DeletesCordoned(a.log, from)
    ensures DeletesCordoned(DeleteHost(a, name, hasAnotherRole).0.log, from)
  {
    if !hasAnotherRole {
      var b := Get(a, name).0;
      CordonSendsNoDelete(b, name, true, TRIES, false, from);
      CordonOutcome(b, name, true, TRIES, false);
    }
  }

  /** What deleting a host leaves: a success without another role has no such node, a failure leaves
      at most a cordoned one, and no other node is touched. */
  lemma DeleteOutcome(a: Api, name: string, hasAnotherRole: bool)
    ensures var (r, ok) := DeleteHost(a, name, hasAnotherRole);
            (hasAnotherRole ==> ok && r == a) && (!hasAnotherRole && ok ==> r.nodes == a.nodes - {name}) &&
            (!ok ==>
              r.nodes == a.nodes ||
                (name in a.nodes && r.nodes == a.nodes[name := a.nodes[name].(unschedulable := true)]))
  {
    if !hasAnotherRole {
      CordonOutcome(Get(a, name).0, name, true, TRIES, false);
    }
  }

  /** A whole deletion: at most seven reads, one successful update and one delete request. */
  lemma DeleteCounts(a: Api, name: string, hasAnotherRole: bool)
    ensures var r := DeleteHost(a, name, hasAnotherRole).0;
            r.sent.gets <= a.sent.gets + 7 && r.sent.updates <= a.sent.updates + 1 &&
            r.sent.deletes <= a.sent.deletes + 1
  {
    if !hasAnotherRole {
      var b := Get(a, name).0;
      CordonUpdates(b, name, true, TRIES, false);
      CordonReads(b, name, true, TRIES, false);
    }
  }

  // ---------------------------------------------------------------- labels

  /** To-add wins over to-delete; other keys stay. */
  function Synced(labels: Labels, toAdd: Labels, toDel: Labels): (r: Labels)
    ensures forall k :: k in toAdd ==> k in r && r[k] == toAdd[k]
    ensures forall k :: k in toDel && k !in toAdd ==> k !in r
    ensures forall k :: k !in toAdd && k !in toDel ==> (k in r <==> k in labels) && (k in r ==> r[k] == labels[k])
  {
    labels - toDel.Keys + toAdd
  }

  /** node.go:140-173 */
  function SyncOnce(a: Api, name: string, toAdd: Labels, toDel: Labels): (Api, bool) {
    var (b, answer) := Get(a, name);
    if !answer.Found? then (b, answer.NotFound?)
    else
      var labels := Synced(answer.node.labels, toAdd, toDel);
      if labels == answer.node.labels then (b, true) else Update(b, name, answer.node.(labels := labels))
  }

  /** node.go:103-118 */
  function SyncRounds(a: Api, name: string, toAdd: Labels, toDel: Labels, tries: nat): (Api, bool)
    decreases tries, a
  {
    if tries == 0 then (a, false)
    else
      var (b, ok) := SyncOnce(a, name, toAdd, toDel);
      if ok then (b, true) else SyncRounds(b, name, toAdd, toDel, tries - 1)
  }

  /** The node objects once `name` is in sync. */
  function Relabelled(nodes: Nodes, name: string, toAdd: Labels, toDel: Labels): Nodes {
    if name in nodes then nodes[name := nodes[name].(labels := Synced(nodes[name].labels, toAdd, toDel))] else nodes
  }

  /** After a success exactly the node's labels are in sync; a failure changed nothing. */
  lemma {:induction false} SyncOutcome(a: Api, name: string, toAdd: Labels, toDel: Labels, tries: nat)
    ensures var (r, ok) := SyncRounds(a, name, toAdd, toDel, tries);
            r.nodes == if ok then Relabelled(a.nodes, name, toAdd, toDel) else a.nodes
    decreases tries
  {
    if tries > 0 {
      var (b, ok) := SyncOnce(a, name, toAdd, toDel);
      if ok { assert b.nodes == Relabelled(a.nodes, name, toAdd, toDel); }
      else { SyncOutcome(b, name, toAdd, toDel, tries - 1); }
    }
  }

  lemma SyncedTwice(labels: Labels, toAdd: Labels, toDel: Labels)
    ensures Synced(Synced(labels, toAdd, toDel), toAdd, toDel) == Synced(labels, toAdd, toDel)
  {
  }

  /** The log gained no update, refused or not. */
  ghost predicate OnlyReads(log: seq<Entry>, from: nat) {
    from <= |log| && forall i :: from <= i < |log| ==> log[i].request == Read
  }

  /** Nodes that are in sync are left alone: no update is even tried, whatever fails. */
  lemma {:induction false} InSyncOnlyReads(a: Api, name: string, toAdd: Labels, toDel: Labels, tries: nat, from: nat)
    requires a.nodes == Relabelled(a.nodes, name, toAdd, toDel) && OnlyReads(a.log, from)
    ensures var r := SyncRounds(a, name, toAdd, toDel, tries).0; OnlyReads(r.log, from) && r.nodes == a.nodes
    decreases tries
  {
    if tries > 0 {
      var (b, ok) := SyncOnce(a, name, toAdd, toDel);
      if name in a.nodes {
        assert a.nodes[name].labels == Synced(a.nodes[name].labels, toAdd, toDel);
      }
      assert b == a.Send(Read, name, a.nodes);
      if !ok { InSyncOnlyReads(b, name, toAdd, toDel, tries - 1, from); }
    }
  }

  /** A second sync issues no update. */
  lemma SecondSyncOnlyReads(a: Api, name: string, toAdd: Labels, toDel: Labels, tries: nat, tries': nat)
    requires SyncRounds(a, name, toAdd, toDel, tries).1
    ensures var r := SyncRounds(a, name, toAdd, toDel, tries).0;
            var r' := SyncRounds(r, name, toAdd, toDel, tries').0;
            OnlyReads(r'.log, |r.log|) && r'.nodes == r.nodes
  {
    var r := SyncRounds(a, name, toAdd, toDel, tries).0;
    SyncOutcome(a, name, toAdd, toDel, tries);
    if name in a.nodes { SyncedTwice(a.nodes[name].labels, toAdd, toDel); }
    InSyncOnlyReads(r, name, toAdd, toDel, tries', |r.log|);
  }

  // ---------------------------------------------------------------- as the source runs them

  class Client {
    var nodes: Nodes
    var calls: nat
    const faults: nat -> bool
    var log: seq<Entry>
    var sent: Tally

    constructor (nodes: Nodes, faults: nat -> bool)
      ensures this.nodes == nodes && calls == 0 && this.faults == faults && log == [] && sent == Tally(0, 0, 0, 0)
    {
      this.nodes, calls, this.faults, log, sent := nodes, 0, faults, [], Tally(0, 0, 0, 0);
    }

    function A(): Api
      reads this
    {
      Api(nodes, calls, faults, log, sent)
    }

    method Become(a: Api)
      requires a.faults == faults
      modifies this
      ensures A() == a
    {
      nodes, calls, log, sent := a.nodes, a.calls, a.log, a.sent;
    }

    method GetNode(name: string) returns (answer: Answer)
      modifies this
      ensures (A(), answer) == Get(old(A()), name)
    {
      answer := Get(A(), name).1;
      Become(Get(A(), name).0);
    }

    method UpdateNode(name: string, node: Node) returns (ok: bool)
      modifies this
      ensures (A(), ok) == Update(old(A()), name, node)
    {
      ok := Update(A(), name, node).1;
      Become(Update(A(), name, node).0);
    }

    method CordonUncordon(name: string, cordoned: bool) returns (ok: bool)
      modifies this
      ensures (A(), ok) == Cordon(old(A()), name, cordoned, TRIES, false)
    {
      ok := CordonRounds(name, cordoned, TRIES);
    }

    method CordonRounds(name: string, cordoned: bool, rounds: nat) returns (ok: bool)
      modifies this
      ensures (A(), ok) == Cordon(old(A()), name, cordoned, rounds, false)
    {
      ghost var all := Cordon(A(), name, cordoned, rounds, false);
      var updated := false;
      for retries := 0 to rounds
        invariant all == Cordon(A(), name, cordoned, rounds - retries, updated)
      {
        var answer := GetNode(name);
        if !answer.Found? { continue; }
        if answer.node.unschedulable == cordoned { return true; }
        ok := UpdateNode(name, answer.node.(unschedulable := cordoned));
        if !ok { continue; }
        updated := true;
      }
      return updated;
    }

    method DeleteNode(name: string, hasAnotherRole: bool) returns (ok: bool)
      modifies this
      ensures (A(), ok) == DeleteHost(old(A()), name, hasAnotherRole)
    {
      if hasAnotherRole { return true; }
      var answer := GetNode(name);
      if !answer.Found? { return answer.NotFound?; }
      ok := CordonUncordon(name, true);
      if !ok { return; }
      ok := Delete(A(), name).1;
      Become(Delete(A(), name).0);
    }

    method DoSyncLabels(name: string, toAdd: Labels, toDel: Labels) returns (ok: bool)
      modifies this
      ensures (A(), ok) == SyncOnce(old(A()), name, toAdd, toDel)
    {
      var answer := GetNode(name);
      if !answer.Found? { return answer.NotFound?; }
      var labels := ApplyLabels(answer.node.labels, toAdd, toDel);
      if labels == answer.node.labels { return true; }
      ok := UpdateNode(name, answer.node.(labels := labels));
    }

    method SyncLabels(name: string, toAdd: Labels, toDel: Labels) returns (ok: bool)
      modifies this
      ensures (A(), ok) == SyncRounds(old(A()), name, toAdd, toDel, TRIES)
    {
      ok := SyncInRounds(name, toAdd, toDel, TRIES);
    }

    method SyncInRounds(name: string, toAdd: Labels, toDel: Labels, rounds: nat) returns (ok: bool)
      modifies this
      ensures (A(), ok) == SyncRounds(old(A()), name, toAdd, toDel, rounds)
    {
      ghost var all := SyncRounds(A(), name, toAdd, toDel, rounds);
      for retries := 0 to rounds
        invariant all == SyncRounds(A(), name, toAdd, toDel, rounds - retries)
      {
        ok := DoSyncLabels(name, toAdd, toDel);
        if ok { return true; }
      }
      return false;
    }
  }

  /** node.go:153-161: the two loops over label maps, whose order is not fixed. */
  method ApplyLabels(labels: Labels, toAdd: Labels, toDel: Labels) returns (r: Labels)
    ensures r == Synced(labels, toAdd, toDel)
  {
    r := DropLabels(labels, toDel);
    r := PutLabels(r, toAdd);
  }

  method DropLabels(labels: Labels, toDel: Labels) returns (r: Labels)
    ensures r == labels - toDel.Keys
  {
    r := labels;
    var todo := toDel.Keys;
    while todo != {}
      invariant todo <= toDel.Keys && r == labels - (toDel.Keys - todo)
      decreases |todo|
    {
      var k :| k in todo;
      assert toDel.Keys - (todo - {k}) == (toDel.Keys - todo) + {k};
      todo := todo - {k};
      if k in r { r := r - {k}; }
    }
    assert toDel.Keys - todo == toDel.Keys;
  }

  method PutLabels(labels: Labels, toAdd: Labels) returns (r: Labels)
    ensures r == labels + toAdd
  {
    r := labels;
    var todo := toAdd.Keys;
    while todo != {}
      invariant todo <= toAdd.Keys && r.Keys == labels.Keys + (toAdd.Keys - todo)
      invariant forall k :: k in r ==> r[k] == if k in toAdd && k !in todo then toAdd[k] else labels[k]
      decreases |todo|
    {
      var k :| k in todo;
      r := r[k := toAdd[k]];
      todo := todo - {k};
    }
  }
}
