/** Totals over rows, and the unfunded part of a ladder; both ladders are built from these. */
module Sums {
  import opened Wrappers

  function Amount(o: Option<real>): real {
    GetOr(o, 0.0)
  }

  function SumBy<T>(xs: seq<T>, f: T -> real): real {
    if xs == [] then 0.0 else SumBy(xs[..|xs| - 1], f) + f(xs[|xs| - 1])
  }

  lemma SumSnoc<T>(xs: seq<T>, i: nat, f: T -> real)
    requires i < |xs|
    ensures SumBy(xs[..i + 1], f) == SumBy(xs[..i], f) + f(xs[i])
  {
    assert xs[..i + 1][..i] == xs[..i];
  }

  lemma SumAll<T>(xs: seq<T>, f: T -> real)
    ensures SumBy(xs[..|xs|], f) == SumBy(xs, f)
  {
    assert xs[..|xs|] == xs;
  }

  lemma {:induction false} SumAppend<T>(xs: seq<T>, ys: seq<T>, f: T -> real)
    ensures SumBy(xs + ys, f) == SumBy(xs, f) + SumBy(ys, f)
    decreases |ys|
  {
    if ys == [] {
      assert xs + ys == xs;
    } else {
      assert (xs + ys)[..|xs + ys| - 1] == xs + ys[..|ys| - 1];
      SumAppend(xs, ys[..|ys| - 1], f);
    }
  }

  /** Editing one row changes a total by that row's change. */
  lemma {:induction false} SumUpdate<T>(xs: seq<T>, i: nat, y: T, f: T -> real)
    requires i < |xs|
    ensures SumBy(xs[i := y], f) == SumBy(xs, f) - f(xs[i]) + f(y)
    decreases |xs|
  {
    var n := |xs| - 1;
    if i == n {
      assert xs[i := y][..n] == xs[..n];
    } else {
      assert xs[i := y][..n] == xs[..n][i := y];
      SumUpdate(xs[..n], i, y, f);
    }
  }

  /** Rows that are each at most as large, against possibly more non-negative rows. */
  ghost predicate Dominates<T>(xs: seq<T>, ys: seq<T>, f: T -> real) {
    && |xs| <= |ys|
    && (forall i :: 0 <= i < |xs| ==> f(xs[i]) <= f(ys[i]))
    && (forall i :: |xs| <= i < |ys| ==> 0.0 <= f(ys[i]))
  }

  lemma {:induction false} SumMonotone<T>(xs: seq<T>, ys: seq<T>, f: T -> real)
    requires Dominates(xs, ys, f)
    ensures SumBy(xs, f) <= SumBy(ys, f)
    decreases |ys|
  {
    if |ys| > |xs| {
      SumMonotone(xs, ys[..|ys| - 1], f);
    } else if xs != [] {
      SumMonotone(xs[..|xs| - 1], ys[..|ys| - 1], f);
    }
  }

  /** `ys` pairs with the rows of `xs` at the increasing positions `kept`, each no larger; the rest is non-negative. */
  ghost predicate Thinned<T>(xs: seq<T>, ys: seq<T>, kept: seq<nat>, f: T -> real) {
    && |kept| == |ys|
    && (forall j :: 0 <= j < |ys| ==> kept[j] < |xs| && f(ys[j]) <= f(xs[kept[j]]))
    && (forall j, k :: 0 <= j < k < |kept| ==> kept[j] < kept[k])
    && (forall i: nat :: i < |xs| && i !in kept ==> 0.0 <= f(xs[i]))
  }

  lemma ThinnedPair<T>(xs: seq<T>, ys: seq<T>, kept: seq<nat>, f: T -> real)
    requires Thinned(xs, ys, kept, f) && kept != [] && kept[|kept| - 1] == |xs| - 1
    ensures Thinned(xs[..|xs| - 1], ys[..|ys| - 1], kept[..|ys| - 1], f)
    ensures f(ys[|ys| - 1]) <= f(xs[|xs| - 1])
  {
    assert kept == kept[..|ys| - 1] + [|xs| - 1];
  }

  lemma ThinnedDrop<T>(xs: seq<T>, ys: seq<T>, kept: seq<nat>, f: T -> real)
    requires Thinned(xs, ys, kept, f) && xs != [] && (kept == [] || kept[|kept| - 1] != |xs| - 1)
    ensures Thinned(xs[..|xs| - 1], ys, kept, f)
    ensures 0.0 <= f(xs[|xs| - 1])
  {
    var n: nat := |xs| - 1;
    assert forall j :: 0 <= j < |kept| ==> kept[j] <= kept[|kept| - 1];
    assert n !in kept;
  }

  lemma {:induction false} SumThinned<T>(xs: seq<T>, ys: seq<T>, kept: seq<nat>, f: T -> real)
    requires Thinned(xs, ys, kept, f)
    ensures SumBy(ys, f) <= SumBy(xs, f)
    decreases |xs|
  {
    if xs == [] {
      assert ys == [];
    } else {
      var n := |xs| - 1;
      assert |kept| == |ys|;
      hide Thinned;
      if kept != [] && kept[|kept| - 1] == n {
        ThinnedPair(xs, ys, kept, f);
        SumThinned(xs[..n], ys[..|ys| - 1], kept[..|ys| - 1], f);
      } else {
        ThinnedDrop(xs, ys, kept, f);
        SumThinned(xs[..n], ys, kept, f);
      }
    }
  }

  lemma {:induction false} SumAtMost<T>(xs: seq<T>, f: T -> real, g: T -> real)
    requires forall i :: 0 <= i < |xs| ==> f(xs[i]) <= g(xs[i])
    ensures SumBy(xs, f) <= SumBy(xs, g)
    decreases |xs|
  {
    if xs != [] {
      SumAtMost(xs[..|xs| - 1], f, g);
    }
  }

  lemma {:induction false} SumDifference<T>(xs: seq<T>, f: T -> real, g: T -> real, h: T -> real)
    requires forall x :: x in xs ==> h(x) == f(x) - g(x)
    ensures SumBy(xs, h) == SumBy(xs, f) - SumBy(xs, g)
    decreases |xs|
  {
    if xs != [] {
      SumDifference(xs[..|xs| - 1], f, g, h);
    }
  }

  /** A total of non-negative rows is non-negative, and positive iff some row is. */
  lemma {:induction false} SumOfNonNegatives<T>(xs: seq<T>, f: T -> real)
    requires forall i :: 0 <= i < |xs| ==> 0.0 <= f(xs[i])
    ensures 0.0 <= SumBy(xs, f)
    ensures SumBy(xs, f) > 0.0 <==> exists i :: 0 <= i < |xs| && f(xs[i]) > 0.0
    decreases |xs|
  {
    if xs != [] {
      var init := xs[..|xs| - 1];
      SumOfNonNegatives(init, f);
      if i :| 0 <= i < |init| && f(init[i]) > 0.0 {
        assert f(xs[i]) > 0.0;
      }
      if i :| 0 <= i < |xs| && f(xs[i]) > 0.0 {
        assert i < |init| ==> f(init[i]) > 0.0;
      }
    }
  }

  function Each<T>(xs: seq<T>, f: T -> real): seq<real> {
    seq(|xs|, i requires 0 <= i < |xs| => f(xs[i]))
  }

  function Itself(x: real): real { x }

  lemma {:induction false} SumEach<T>(xs: seq<T>, f: T -> real)
    ensures SumBy(Each(xs, f), Itself) == SumBy(xs, f)
    decreases |xs|
  {
    if xs != [] {
      assert Each(xs, f)[..|xs| - 1] == Each(xs[..|xs| - 1], f);
      SumEach(xs[..|xs| - 1], f);
    }
  }

  function Total(xs: seq<real>): real {
    SumBy(xs, Itself)
  }

  /** A total over rows is the total of their figures, listed one by one. */
  lemma SumIsTotal<T>(xs: seq<T>, f: T -> real, figures: seq<real>)
    requires |figures| == |xs| && forall i :: 0 <= i < |xs| ==> figures[i] == f(xs[i])
    ensures SumBy(xs, f) == Total(figures)
  {
    SumEach(xs, f);
    assert figures == Each(xs, f);
  }

  /** A total of magnitudes bounds how far two totals are apart, when it bounds each pair of rows. */
  lemma {:induction false} SumsStayClose<T>(xs: seq<T>, f: T -> real, g: T -> real, h: T -> real)
    requires forall i :: 0 <= i < |xs| ==> g(xs[i]) - h(xs[i]) <= f(xs[i]) <= g(xs[i]) + h(xs[i])
    ensures SumBy(xs, g) - SumBy(xs, h) <= SumBy(xs, f) <= SumBy(xs, g) + SumBy(xs, h)
    decreases |xs|
  {
    if xs != [] {
      SumsStayClose(xs[..|xs| - 1], f, g, h);
    }
  }

  // ---------------------------------------------------------------- the open part of a ladder

  function Open<T>(ladder: seq<T>, funded: T -> bool): seq<T> {
    if ladder == [] then []
    else
      var last := ladder[|ladder| - 1];
      Open(ladder[..|ladder| - 1], funded) + if funded(last) then [] else [last]
  }

  /** `picks` are the increasing positions of exactly the unfunded rungs, and `open` those rungs. */
  ghost predicate IsOpenPart<T>(ladder: seq<T>, funded: T -> bool, open: seq<T>, picks: seq<nat>) {
    && |picks| == |open|
    && (forall t :: 0 <= t < |picks| ==> picks[t] < |ladder| && ladder[picks[t]] == open[t])
    && (forall t, u :: 0 <= t < u < |picks| ==> picks[t] < picks[u])
    && (forall i: nat :: i < |ladder| ==> (i in picks <==> !funded(ladder[i])))
  }

  lemma OpenPartSnoc<T>(init: seq<T>, last: T, funded: T -> bool, open: seq<T>, picks: seq<nat>)
    requires IsOpenPart(init, funded, open, picks)
    ensures funded(last) ==> IsOpenPart(init + [last], funded, open, picks)
    ensures !funded(last) ==> IsOpenPart(init + [last], funded, open + [last], picks + [|init|])
  {
    assert |init| !in picks;
    var more := picks + [|init|];
    assert forall i: nat :: i < |init| ==> (i in more <==> i in picks);
    assert more[|picks|] == |init|;
  }

  lemma {:induction false} OpenIsOrderedSublist<T>(ladder: seq<T>, funded: T -> bool) returns (picks: seq<nat>)
    ensures IsOpenPart(ladder, funded, Open(ladder, funded), picks)
    decreases |ladder|
  {
    picks := [];
    if ladder != [] {
      hide IsOpenPart;
      var init, last := ladder[..|ladder| - 1], ladder[|ladder| - 1];
      picks := OpenIsOrderedSublist(init, funded);
      OpenPartSnoc(init, last, funded, Open(init, funded), picks);
      assert init + [last] == ladder;
      assert Open(init, funded) + [] == Open(init, funded);
      if !funded(last) {
        picks := picks + [|init|];
      }
    }
  }

  /** The first open rung is the ladder's first unfunded one. */
  lemma {:induction false} FirstOpen<T>(ladder: seq<T>, funded: T -> bool) returns (k: nat)
    ensures k <= |ladder| && forall i :: 0 <= i < k ==> funded(ladder[i])
    ensures k == |ladder| ==> Open(ladder, funded) == []
    ensures k < |ladder| ==>
      !funded(ladder[k]) && Open(ladder, funded) != [] && Open(ladder, funded)[0] == ladder[k]
    decreases |ladder|
  {
    k := 0;
    if ladder != [] {
      k := FirstOpen(ladder[..|ladder| - 1], funded);
      if k == |ladder| - 1 && funded(ladder[k]) {
        k := |ladder|;
      }
    }
  }

  /** The step every consumer reports: the first open one, or the last step when none is open. */
  function CurrentStep<T>(open: seq<T>, step: T -> nat, last: nat): nat {
    if open == [] then last else step(open[0])
  }

  ghost predicate NumberedFromOne<T>(ladder: seq<T>, step: T -> nat) {
    forall i :: 0 <= i < |ladder| ==> step(ladder[i]) == i + 1
  }

  ghost predicate LeastUnfunded<T>(ladder: seq<T>, funded: T -> bool, s: nat) {
    && 1 <= s <= |ladder|
    && (forall i :: 0 <= i < s - 1 ==> funded(ladder[i]))
    && (funded(ladder[s - 1]) ==> s == |ladder|)
  }

  /** It is the least unfunded step, or the last step, which is also what an all-funded ladder gives. */
  lemma CurrentIsLeastUnfunded<T>(ladder: seq<T>, step: T -> nat, funded: T -> bool)
    requires ladder != [] && NumberedFromOne(ladder, step)
    ensures LeastUnfunded(ladder, funded, CurrentStep(Open(ladder, funded), step, |ladder|))
  {
    var k := FirstOpen(ladder, funded);
  }
}
