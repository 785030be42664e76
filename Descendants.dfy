/** The descendant folds: a track's own credited sums plus, recursively,
    those of its daughters. One fold over the whole Deposited record stands
    for the five the event offers (energy, Birks charge, Modified Box charge,
    Birks light, Modified Box light); each is a projection of it. */
module Descendants {
  import opened Forest
  import opened Response

  /** The recursive fold: own[t] plus the folds of t's daughters. */
  function SubtreeSum(parents: seq<int>, own: seq<Deposited>, t: nat): Deposited
    requires Acyclic(parents) && |own| == |parents| && t < |parents|
    decreases |parents| - Depth(parents, t), 1
  {
    own[t].Plus(ChildrenSum(parents, own, t, ChildrenOf(parents, t, |parents|)))
  }

  /** The folds of the daughters cs of t, added in list order. */
  function ChildrenSum(parents: seq<int>, own: seq<Deposited>, t: nat, cs: seq<nat>): Deposited
    requires Acyclic(parents) && |own| == |parents| && t < |parents|
    requires forall k :: 0 <= k < |cs| ==> cs[k] < |parents| && parents[cs[k]] == t
    decreases |parents| - Depth(parents, t), 0, |cs|
  {
    if cs == [] then Zero
    else
      var c := cs[|cs| - 1];
      DepthStep(parents, c);
      ChildrenSum(parents, own, t, cs[..|cs| - 1]).Plus(SubtreeSum(parents, own, c))
  }

  /** The reference definition: the sum of own[i] over the tracks i < n that
      lie in t's subtree. */
  function FlatSum(parents: seq<int>, own: seq<Deposited>, t: nat, n: nat): Deposited
    requires Acyclic(parents) && |own| == |parents| && t < |parents| && n <= |parents|
  {
    if n == 0 then Zero
    else if IsDescendant(parents, t, n - 1) then FlatSum(parents, own, t, n - 1).Plus(own[n - 1])
    else FlatSum(parents, own, t, n - 1)
  }

  /** The flat sums of the daughters cs, in list order. */
  function ChildrenFlat(parents: seq<int>, own: seq<Deposited>, cs: seq<nat>, n: nat): Deposited
    requires Acyclic(parents) && |own| == |parents| && n <= |parents|
    requires forall k :: 0 <= k < |cs| ==> cs[k] < |parents|
  {
    if cs == [] then Zero
    else ChildrenFlat(parents, own, cs[..|cs| - 1], n).Plus(FlatSum(parents, own, cs[|cs| - 1], n))
  }

  /** What track i adds to the flat sums of the daughters cs. */
  function Hits(parents: seq<int>, own: seq<Deposited>, cs: seq<nat>, i: nat): Deposited
    requires Acyclic(parents) && |own| == |parents| && i < |parents|
    requires forall k :: 0 <= k < |cs| ==> cs[k] < |parents|
  {
    if cs == [] then Zero
    else
      var c := cs[|cs| - 1];
      Hits(parents, own, cs[..|cs| - 1], i).Plus(if IsDescendant(parents, c, i) then own[i] else Zero)
  }

  lemma Swap4(a: Deposited, b: Deposited, x: Deposited, y: Deposited)
    ensures a.Plus(x).Plus(b.Plus(y)) == a.Plus(b).Plus(x.Plus(y))
  {
  }

  lemma {:induction false} ChildrenFlatStep(parents: seq<int>, own: seq<Deposited>, cs: seq<nat>, n: nat)
    requires Acyclic(parents) && |own| == |parents| && 0 < n <= |parents|
    requires forall k :: 0 <= k < |cs| ==> cs[k] < |parents|
    ensures ChildrenFlat(parents, own, cs, n) == ChildrenFlat(parents, own, cs, n - 1).Plus(Hits(parents, own, cs, n - 1))
    decreases |cs|
  {
    if cs == [] {
      PlusZero(Zero);
    } else {
      var pre := cs[..|cs| - 1];
      var c := cs[|cs| - 1];
      ChildrenFlatStep(parents, own, pre, n);
      var a := ChildrenFlat(parents, own, pre, n - 1);
      var h := Hits(parents, own, pre, n - 1);
      var x := FlatSum(parents, own, c, n - 1);
      var y := if IsDescendant(parents, c, n - 1) then own[n - 1] else Zero;
      assert FlatSum(parents, own, c, n) == x.Plus(y) by {
        if !IsDescendant(parents, c, n - 1) { PlusZero(x); }
      }
      Swap4(a, x, h, y);
    }
  }

  /** Track i reaches none of the daughters in cs. */
  lemma {:induction false} HitsNone(parents: seq<int>, own: seq<Deposited>, cs: seq<nat>, i: nat)
    requires Acyclic(parents) && |own| == |parents| && i < |parents|
    requires forall k :: 0 <= k < |cs| ==> cs[k] < |parents| && !IsDescendant(parents, cs[k], i)
    ensures Hits(parents, own, cs, i) == Zero
    decreases |cs|
  {
    if cs != [] {
      HitsNone(parents, own, cs[..|cs| - 1], i);
      PlusZero(Zero);
    }
  }

  /** Track i is reached through exactly one daughter c0, listed once in cs. */
  lemma {:induction false} HitsOne(parents: seq<int>, own: seq<Deposited>, cs: seq<nat>, i: nat, c0: nat)
    requires Acyclic(parents) && |own| == |parents| && i < |parents|
    requires forall k :: 0 <= k < |cs| ==> cs[k] < |parents|
    requires forall a, b :: 0 <= a < b < |cs| ==> cs[a] < cs[b]
    requires forall k :: 0 <= k < |cs| && IsDescendant(parents, cs[k], i) ==> cs[k] == c0
    requires c0 in cs && IsDescendant(parents, c0, i)
    ensures Hits(parents, own, cs, i) == own[i]
    decreases |cs|
  {
    var pre := cs[..|cs| - 1];
    var c := cs[|cs| - 1];
    if c == c0 {
      assert forall k :: 0 <= k < |pre| ==> !IsDescendant(parents, pre[k], i) by {
        forall k | 0 <= k < |pre| ensures !IsDescendant(parents, pre[k], i) {
          assert pre[k] == cs[k] && cs[k] < cs[|cs| - 1];
        }
      }
      HitsNone(parents, own, pre, i);
      PlusZero(own[i]);
    } else {
      assert c0 in pre by {
        var k :| 0 <= k < |cs| && cs[k] == c0;
        assert k < |cs| - 1 && pre[k] == c0;
      }
      HitsOne(parents, own, pre, i, c0);
      PlusZero(own[i]);
    }
  }

  /** What track i adds to t's flat sum is what it adds through t's daughters,
      plus own[t] when i is t itself. */
  lemma HitsOfDaughters(parents: seq<int>, own: seq<Deposited>, t: nat, i: nat)
    requires Acyclic(parents) && |own| == |parents| && t < |parents| && i < |parents|
    ensures var cs := ChildrenOf(parents, t, |parents|);
      Hits(parents, own, cs, i) == if IsDescendant(parents, t, i) && i != t then own[i] else Zero
  {
    var cs := ChildrenOf(parents, t, |parents|);
    if i == t {
      forall k | 0 <= k < |cs| ensures !IsDescendant(parents, cs[k], i) {
        NotBelowOwnChild(parents, t, cs[k]);
      }
      HitsNone(parents, own, cs, i);
    } else if IsDescendant(parents, t, i) {
      var c0 := ChildOnPath(parents, t, i);
      HitsOne(parents, own, cs, i, c0);
    } else {
      forall k | 0 <= k < |cs| ensures !IsDescendant(parents, cs[k], i) {
        OutsideSubtree(parents, t, i, cs[k]);
      }
      HitsNone(parents, own, cs, i);
    }
  }

  /** Splitting t's flat sum at its daughters: own[t] plus their flat sums. */
  lemma {:induction false} FlatSumSplits(parents: seq<int>, own: seq<Deposited>, t: nat, n: nat)
    requires Acyclic(parents) && |own| == |parents| && t < |parents| && n <= |parents|
    ensures FlatSum(parents, own, t, n) ==
      (if t < n then own[t] else Zero).Plus(ChildrenFlat(parents, own, ChildrenOf(parents, t, |parents|), n))
  {
    var cs := ChildrenOf(parents, t, |parents|);
    if n == 0 {
      ChildrenFlatZero(parents, own, cs);
      PlusZero(Zero);
    } else {
      var i := n - 1;
      FlatSumSplits(parents, own, t, i);
      ChildrenFlatStep(parents, own, cs, n);
      HitsOfDaughters(parents, own, t, i);
      SplitAlgebra(FlatSum(parents, own, t, n), FlatSum(parents, own, t, i),
                   if t < i then own[t] else Zero, if t < n then own[t] else Zero,
                   ChildrenFlat(parents, own, cs, i), ChildrenFlat(parents, own, cs, n),
                   Hits(parents, own, cs, i), own[i], i == t, IsDescendant(parents, t, i));
    }
  }

  /** The bookkeeping of one step of FlatSumSplits, on plain values. */
  lemma SplitAlgebra(f: Deposited, fPrev: Deposited, o: Deposited, oNext: Deposited,
                     cf: Deposited, cfNext: Deposited, h: Deposited, x: Deposited, self: bool, inside: bool)
    requires fPrev == o.Plus(cf) && cfNext == cf.Plus(h)
    requires f == if inside then fPrev.Plus(x) else fPrev
    requires self ==> o == Zero && h == Zero && inside && oNext == x
    requires !self ==> oNext == o && h == if inside then x else Zero
    ensures f == oNext.Plus(cfNext)
  {
  }

  lemma {:induction false} ChildrenFlatZero(parents: seq<int>, own: seq<Deposited>, cs: seq<nat>)
    requires Acyclic(parents) && |own| == |parents|
    requires forall k :: 0 <= k < |cs| ==> cs[k] < |parents|
    ensures ChildrenFlat(parents, own, cs, 0) == Zero
    decreases |cs|
  {
    if cs != [] {
      ChildrenFlatZero(parents, own, cs[..|cs| - 1]);
      PlusZero(Zero);
    }
  }

  /** The recursive fold equals the reference sum over the subtree. */
  lemma {:induction false} SubtreeSumIsFlat(parents: seq<int>, own: seq<Deposited>, t: nat)
    requires Acyclic(parents) && |own| == |parents| && t < |parents|
    ensures SubtreeSum(parents, own, t) == FlatSum(parents, own, t, |parents|)
    decreases |parents| - Depth(parents, t), 1
  {
    var cs := ChildrenOf(parents, t, |parents|);
    ChildrenSumIsFlat(parents, own, t, cs);
    FlatSumSplits(parents, own, t, |parents|);
  }

  lemma {:induction false} ChildrenSumIsFlat(parents: seq<int>, own: seq<Deposited>, t: nat, cs: seq<nat>)
    requires Acyclic(parents) && |own| == |parents| && t < |parents|
    requires forall k :: 0 <= k < |cs| ==> cs[k] < |parents| && parents[cs[k]] == t
    ensures ChildrenSum(parents, own, t, cs) == ChildrenFlat(parents, own, cs, |parents|)
    decreases |parents| - Depth(parents, t), 0, |cs|
  {
    if cs != [] {
      var c := cs[|cs| - 1];
      DepthStep(parents, c);
      ChildrenSumIsFlat(parents, own, t, cs[..|cs| - 1]);
      SubtreeSumIsFlat(parents, own, c);
    }
  }

  /** A track with no daughters folds to its own value. */
  lemma ChildlessFold(parents: seq<int>, own: seq<Deposited>, t: nat)
    requires Acyclic(parents) && |own| == |parents| && t < |parents|
    requires forall j :: 0 <= j < |parents| ==> parents[j] != t
    ensures SubtreeSum(parents, own, t) == own[t]
  {
    PlusZero(own[t]);
  }
}
