/**
 The `proposals` channel: an insertion-ordered dictionary keyed by node, so that each node has
 one entry, holding its last write, at the place of its first.
 */
module Reducer {

  datatype Proposal = Proposal(node: string, move: string, principle: string, score: real,
                               rationale: string, flagged: bool)

  /** A Python dictionary: keys in insertion order, and the value at each key. */
  datatype Dict = Dict(order: seq<string>, entries: map<string, Proposal>)

  const NO_ENTRIES: Dict := Dict([], map[])

  predicate Covered(d: Dict) {
    forall i :: 0 <= i < |d.order| ==> d.order[i] in d.entries
  }

  function Put(d: Dict, p: Proposal): Dict {
    Dict(if p.node in d.entries then d.order else d.order + [p.node], d.entries[p.node := p])
  }

  function PutAll(d: Dict, ps: seq<Proposal>): (r: Dict)
    ensures Covered(d) ==> Covered(r)
  {
    if ps == [] then d else Put(PutAll(d, ps[..|ps| - 1]), ps[|ps| - 1])
  }

  function Values(d: Dict): (vs: seq<Proposal>)
    requires Covered(d)
    ensures |vs| == |d.order|
    ensures forall i :: 0 <= i < |vs| ==> vs[i] == d.entries[d.order[i]]
  {
    seq(|d.order|, i requires 0 <= i < |d.order| => d.entries[d.order[i]])
  }

  /** What the channel holds after a history of writes. */
  function Latest(history: seq<Proposal>): seq<Proposal> {
    Values(PutAll(NO_ENTRIES, history))
  }

  lemma PutAllSnoc(d: Dict, ps: seq<Proposal>, p: Proposal)
    ensures PutAll(d, ps + [p]) == Put(PutAll(d, ps), p)
  {
    assert (ps + [p])[..|ps|] == ps;
  }

  lemma {:induction false} PutAllAppend(d: Dict, a: seq<Proposal>, b: seq<Proposal>)
    ensures PutAll(d, a + b) == PutAll(PutAll(d, a), b)
    decreases |b|
  {
    if b == [] {
      assert a + b == a;
    } else {
      assert (a + b)[..|a + b| - 1] == a + b[..|b| - 1];
      PutAllAppend(d, a, b[..|b| - 1]);
    }
  }

  /** One pass of the reducer's loop over a list of proposals. */
  method PutEach(d: Dict, ps: seq<Proposal>) returns (r: Dict)
    ensures r == PutAll(d, ps)
  {
    var order, entries := d.order, d.entries;
    for i := 0 to |ps|
      invariant Dict(order, entries) == PutAll(d, ps[..i])
    {
      PutAllSnoc(d, ps[..i], ps[i]);
      assert ps[..i + 1] == ps[..i] + [ps[i]];
      if ps[i].node !in entries {
        order := order + [ps[i].node];
      }
      entries := entries[ps[i].node := ps[i]];
    }
    assert ps[..|ps|] == ps;
    return Dict(order, entries);
  }

  method MergeProposals(existing: seq<Proposal>, incoming: seq<Proposal>) returns (merged: seq<Proposal>)
    ensures merged == Latest(existing + incoming)
  {
    var d := PutEach(NO_ENTRIES, existing);
    d := PutEach(d, incoming);
    PutAllAppend(NO_ENTRIES, existing, incoming);
    return Values(d);
  }

  /** Keys are in the order once each, and every value sits at its own node. */
  ghost predicate Ok(d: Dict) {
    && (forall i, j :: 0 <= i < j < |d.order| ==> d.order[i] != d.order[j])
    && (forall n :: n in d.order <==> n in d.entries)
    && (forall n :: n in d.entries ==> d.entries[n].node == n)
  }

  lemma {:induction false} PutAllOk(d: Dict, ps: seq<Proposal>)
    requires Ok(d)
    ensures Ok(PutAll(d, ps))
    decreases |ps|
  {
    if ps != [] {
      PutAllOk(d, ps[..|ps| - 1]);
    }
  }

  // ---------------------------------------------------------------- what it holds

  function Nodes(ps: seq<Proposal>): seq<string> {
    seq(|ps|, i requires 0 <= i < |ps| => ps[i].node)
  }

  predicate Wrote(history: seq<Proposal>, node: string) {
    exists i :: 0 <= i < |history| && history[i].node == node
  }

  function LastWrite(history: seq<Proposal>, node: string): Proposal
    requires Wrote(history, node)
  {
    var last := history[|history| - 1];
    if last.node == node then last else LastWrite(history[..|history| - 1], node)
  }

  function FirstWrite(history: seq<Proposal>, node: string): (i: nat)
    requires Wrote(history, node)
    ensures i < |history| && history[i].node == node
    ensures forall j :: 0 <= j < i ==> history[j].node != node
  {
    if Wrote(history[..|history| - 1], node) then FirstWrite(history[..|history| - 1], node)
    else |history| - 1
  }

  lemma {:induction false} EntriesAreLastWrites(history: seq<Proposal>)
    ensures var d := PutAll(NO_ENTRIES, history);
      && (forall n :: n in d.entries <==> Wrote(history, n))
      && (forall n :: n in d.entries ==> d.entries[n] == LastWrite(history, n))
    decreases |history|
  {
    if history != [] {
      var init, last := history[..|history| - 1], history[|history| - 1];
      EntriesAreLastWrites(init);
      forall n
        ensures Wrote(history, n) <==> n == last.node || Wrote(init, n)
      {
        if Wrote(init, n) {
          var i :| 0 <= i < |init| && init[i].node == n;
          assert history[i].node == n;
        }
      }
    }
  }

  lemma FirstWriteSnoc(init: seq<Proposal>, p: Proposal, node: string)
    ensures Wrote(init, node) ==>
      Wrote(init + [p], node) && FirstWrite(init + [p], node) == FirstWrite(init, node)
    ensures !Wrote(init, node) && node == p.node ==>
      Wrote(init + [p], node) && FirstWrite(init + [p], node) == |init|
  {
    var all := init + [p];
    assert all[..|all| - 1] == init;
    if Wrote(init, node) {
      var i :| 0 <= i < |init| && init[i].node == node;
      assert all[i].node == node;
    } else if node == p.node {
      assert all[|init|].node == node;
    }
  }

  ghost predicate FirstWriteOrdered(history: seq<Proposal>, order: seq<string>) {
    && (forall i :: 0 <= i < |order| ==> Wrote(history, order[i]))
    && (forall i, j :: 0 <= i < j < |order| ==> FirstWrite(history, order[i]) < FirstWrite(history, order[j]))
  }

  lemma FirstWriteOrderedSnoc(init: seq<Proposal>, p: Proposal, order: seq<string>)
    requires FirstWriteOrdered(init, order)
    ensures FirstWriteOrdered(init + [p], order)
    ensures !Wrote(init, p.node) ==> FirstWriteOrdered(init + [p], order + [p.node])
  {
    forall n {
      FirstWriteSnoc(init, p, n);
    }
  }

  lemma {:induction false} OrderIsFirstWrites(history: seq<Proposal>)
    ensures FirstWriteOrdered(history, PutAll(NO_ENTRIES, history).order)
    decreases |history|
  {
    if history != [] {
      var init, last := history[..|history| - 1], history[|history| - 1];
      OrderIsFirstWrites(init);
      EntriesAreLastWrites(init);
      FirstWriteOrderedSnoc(init, last, PutAll(NO_ENTRIES, init).order);
      assert history == init + [last];
    }
  }

  lemma LatestNodes(history: seq<Proposal>)
    ensures Nodes(Latest(history)) == PutAll(NO_ENTRIES, history).order
    ensures forall n :: Wrote(Latest(history), n) <==> Wrote(history, n)
  {
    var d := PutAll(NO_ENTRIES, history);
    PutAllOk(NO_ENTRIES, history);
    EntriesAreLastWrites(history);
    forall i | 0 <= i < |d.order|
      ensures Latest(history)[i].node == d.order[i]
    {
      assert d.order[i] in d.entries;
    }
    forall n
      ensures Wrote(Latest(history), n) <==> n in d.order
    {
      if n in d.order {
        var i :| 0 <= i < |d.order| && d.order[i] == n;
        assert Latest(history)[i].node == n;
      }
    }
  }

  /** The entry at `i` is its node's last write, and entries follow the nodes' first writes. */
  ghost predicate InFirstWriteOrder(history: seq<Proposal>, entries: seq<Proposal>) {
    forall i, j :: 0 <= i < j < |entries| ==>
      && Wrote(history, entries[i].node)
      && Wrote(history, entries[j].node)
      && FirstWrite(history, entries[i].node) < FirstWrite(history, entries[j].node)
  }

  /**
   After any history of writes the channel has exactly one entry per node that wrote, holding
   its last write, in the order of the first writes.
   */
  lemma LatestIsLastWriteInFirstOrder(history: seq<Proposal>)
    ensures forall n :: Wrote(Latest(history), n) <==> Wrote(history, n)
    ensures forall p :: p in Latest(history) ==> Wrote(history, p.node) && p == LastWrite(history, p.node)
    ensures InFirstWriteOrder(history, Latest(history))
  {
    var d := PutAll(NO_ENTRIES, history);
    PutAllOk(NO_ENTRIES, history);
    EntriesAreLastWrites(history);
    OrderIsFirstWrites(history);
    LatestNodes(history);
    forall i | 0 <= i < |d.order|
      ensures d.order[i] in d.entries && Latest(history)[i].node == d.order[i]
    {
    }
  }

  // ---------------------------------------------------------------- the laws it obeys

  function Prefix(d: Dict, k: nat): Dict
    requires Covered(d) && k <= |d.order|
  {
    Dict(d.order[..k], map n | n in d.order[..k] :: d.entries[n])
  }

  lemma PrefixGrows(d: Dict, k: nat)
    requires Ok(d) && Covered(d) && k < |d.order|
    ensures Put(Prefix(d, k), Values(d)[k]) == Prefix(d, k + 1)
  {
    var n := d.order[k];
    assert n in d.entries && Values(d)[k].node == n;
    assert d.order[..k + 1] == d.order[..k] + [n];
    assert n !in d.order[..k];
  }

  lemma WholePrefix(d: Dict)
    requires Covered(d) && forall n :: n in d.entries ==> n in d.order
    ensures Prefix(d, |d.order|) == d
  {
    assert d.order[..|d.order|] == d.order;
  }

  ghost predicate Steps(d: Dict, ps: seq<Proposal>)
    requires Covered(d)
  {
    |ps| <= |d.order| && forall k :: 0 <= k < |ps| ==> Put(Prefix(d, k), ps[k]) == Prefix(d, k + 1)
  }

  lemma {:induction false} PutChain(d: Dict, ps: seq<Proposal>)
    requires Covered(d) && Steps(d, ps)
    ensures PutAll(NO_ENTRIES, ps) == Prefix(d, |ps|)
    decreases |ps|
  {
    if ps == [] {
      assert Prefix(d, 0) == NO_ENTRIES;
    } else {
      PutChain(d, ps[..|ps| - 1]);
    }
  }

  lemma PrefixesStep(d: Dict)
    requires Ok(d) && Covered(d)
    ensures Steps(d, Values(d))
  {
    forall k | 0 <= k < |d.order|
      ensures Put(Prefix(d, k), Values(d)[k]) == Prefix(d, k + 1)
    {
      PrefixGrows(d, k);
    }
  }

  /** Reading a dictionary out and building one from what was read gives the same dictionary. */
  lemma RebuildIsSame(d: Dict)
    requires Ok(d) && Covered(d)
    ensures PutAll(NO_ENTRIES, Values(d)) == d
  {
    PrefixesStep(d);
    PutChain(d, Values(d));
    WholePrefix(d);
  }

  /** Merging batch by batch is the same as one history: batch boundaries leave no trace. */
  lemma MergeExtendsHistory(history: seq<Proposal>, more: seq<Proposal>)
    ensures Latest(Latest(history) + more) == Latest(history + more)
  {
    var d := PutAll(NO_ENTRIES, history);
    PutAllOk(NO_ENTRIES, history);
    RebuildIsSame(d);
    PutAllAppend(NO_ENTRIES, Values(d), more);
    PutAllAppend(NO_ENTRIES, history, more);
  }

  lemma {:induction false} PutAllKnown(d: Dict, ps: seq<Proposal>)
    requires forall p :: p in ps ==> p.node in d.entries && d.entries[p.node] == p
    ensures PutAll(d, ps) == d
    decreases |ps|
  {
    if ps != [] {
      PutAllKnown(d, ps[..|ps| - 1]);
      assert ps[|ps| - 1] in ps;
    }
  }

  /** Writing back what the channel holds changes nothing. */
  lemma WriteBackIsNoOp(history: seq<Proposal>)
    ensures Latest(Latest(history) + Latest(history)) == Latest(history)
  {
    var d := PutAll(NO_ENTRIES, history);
    PutAllOk(NO_ENTRIES, history);
    RebuildIsSame(d);
    PutAllAppend(NO_ENTRIES, Values(d), Values(d));
    forall p | p in Values(d)
      ensures p.node in d.entries && d.entries[p.node] == p
    {
      var i :| 0 <= i < |d.order| && Values(d)[i] == p;
      assert d.order[i] in d.entries;
    }
    PutAllKnown(d, Values(d));
  }

  lemma {:induction false} OrderGrows(d: Dict, ps: seq<Proposal>)
    ensures d.order <= PutAll(d, ps).order
    decreases |ps|
  {
    if ps != [] {
      OrderGrows(d, ps[..|ps| - 1]);
    }
  }

  /** Later writes never remove or move an entry. */
  lemma EntriesNeverDisappear(history: seq<Proposal>, more: seq<Proposal>)
    ensures Nodes(Latest(history)) <= Nodes(Latest(history + more))
  {
    var d, e := PutAll(NO_ENTRIES, history), PutAll(NO_ENTRIES, history + more);
    PutAllAppend(NO_ENTRIES, history, more);
    OrderGrows(d, more);
    LatestNodes(history);
    LatestNodes(history + more);
  }

  lemma LastWriteAppend(a: seq<Proposal>, b: seq<Proposal>, node: string)
    ensures Wrote(a + b, node) <==> Wrote(a, node) || Wrote(b, node)
    ensures Wrote(a + b, node) ==>
      LastWrite(a + b, node) == if Wrote(b, node) then LastWrite(b, node) else LastWrite(a, node)
    decreases |b|
  {
    var c := a + b;
    assert forall i :: 0 <= i < |a| ==> c[i] == a[i];
    assert forall i :: 0 <= i < |b| ==> c[|a| + i] == b[i];
    if b == [] {
      assert c == a;
    } else {
      assert c[..|c| - 1] == a + b[..|b| - 1];
      LastWriteAppend(a, b[..|b| - 1], node);
    }
  }

  lemma {:induction false} UniqueWriteIsLast(history: seq<Proposal>, p: Proposal)
    requires p in history
    requires forall i, j :: 0 <= i < j < |history| ==> history[i].node != history[j].node
    ensures Wrote(history, p.node) && LastWrite(history, p.node) == p
    decreases |history|
  {
    var n := |history| - 1;
    var i :| 0 <= i < |history| && history[i] == p;
    if i != n {
      assert history[..n][i] == p;
      UniqueWriteIsLast(history[..n], p);
    }
  }
}
