/** The genealogy of an event's trajectories: track i's parent is parents[i],
    -1 for a primary track. Everything here is about the index structure only;
    what is stored per track lives in the Tracks module. */
module Forest {
  import opened Wrappers

  /** Every parent id is -1 or the index of a track of the same event. */
  predicate ValidParents(parents: seq<int>) {
    forall i :: 0 <= i < |parents| ==> -1 <= parents[i] < |parents|
  }

  /** The number of parent links from i up to a primary track, provided the
      walk reaches one within `fuel` steps. */
  function DepthFuel(parents: seq<int>, i: nat, fuel: nat): (r: Option<nat>)
    requires ValidParents(parents) && i < |parents|
    ensures r.Some? ==> r.value < fuel
    decreases fuel
  {
    if fuel == 0 then None
    else if parents[i] == -1 then Some(0)
    else match DepthFuel(parents, parents[i], fuel - 1)
      case None => None
      case Some(d) => Some(d + 1)
  }

  /** The parent links form a forest: from every track the walk up reaches a
      primary track (with n tracks, within n steps). Without this the walk in
      ReadTracks never ends. */
  predicate Acyclic(parents: seq<int>) {
    ValidParents(parents) &&
    forall i :: 0 <= i < |parents| ==> DepthFuel(parents, i, |parents|).Some?
  }

  lemma {:induction false} DepthFuelMore(parents: seq<int>, i: nat, f: nat, g: nat)
    requires ValidParents(parents) && i < |parents|
    requires f <= g && DepthFuel(parents, i, f).Some?
    ensures DepthFuel(parents, i, g) == DepthFuel(parents, i, f)
    decreases f
  {
    if parents[i] != -1 {
      DepthFuelMore(parents, parents[i], f - 1, g - 1);
    }
  }

  function Depth(parents: seq<int>, i: nat): (d: nat)
    requires Acyclic(parents) && i < |parents|
    ensures d < |parents|
    ensures d == 0 <==> parents[i] == -1
  {
    DepthFuel(parents, i, |parents|).value
  }

  /** A child lies exactly one level below its parent. */
  lemma DepthStep(parents: seq<int>, i: nat)
    requires Acyclic(parents) && i < |parents| && parents[i] != -1
    ensures Depth(parents, i) == Depth(parents, parents[i]) + 1
  {
    var p := parents[i];
    var n := |parents|;
    assert DepthFuel(parents, i, n).Some?;
    assert DepthFuel(parents, p, n - 1).Some?;
    DepthFuelMore(parents, p, n - 1, n);
  }

  /** t is i itself or one of i's ancestors, i.e. i lies in t's subtree. */
  predicate IsDescendant(parents: seq<int>, t: nat, i: nat)
    requires Acyclic(parents) && t < |parents| && i < |parents|
    decreases Depth(parents, i)
  {
    i == t || (parents[i] != -1 && (DepthStep(parents, i); IsDescendant(parents, t, parents[i])))
  }

  /** The primary track reached by following parent links from i. */
  function Root(parents: seq<int>, i: nat): (r: nat)
    requires Acyclic(parents) && i < |parents|
    ensures r < |parents| && parents[r] == -1
    ensures IsDescendant(parents, r, i)
    decreases Depth(parents, i)
  {
    if parents[i] == -1 then i
    else
      DepthStep(parents, i);
      Root(parents, parents[i])
  }

  /** An ancestor never lies below its descendant, and only i itself lies
      at i's own depth among i's ancestors. */
  lemma {:induction false} DescendantDepth(parents: seq<int>, t: nat, i: nat)
    requires Acyclic(parents) && t < |parents| && i < |parents|
    requires IsDescendant(parents, t, i)
    ensures Depth(parents, t) <= Depth(parents, i)
    ensures Depth(parents, t) == Depth(parents, i) ==> t == i
    decreases Depth(parents, i)
  {
    if i != t {
      DepthStep(parents, i);
      DescendantDepth(parents, t, parents[i]);
    }
  }

  lemma {:induction false} DescendantTrans(parents: seq<int>, a: nat, b: nat, c: nat)
    requires Acyclic(parents) && a < |parents| && b < |parents| && c < |parents|
    requires IsDescendant(parents, a, b) && IsDescendant(parents, b, c)
    ensures IsDescendant(parents, a, c)
    decreases Depth(parents, c)
  {
    if c != b {
      DepthStep(parents, c);
      DescendantTrans(parents, a, b, parents[c]);
    }
  }

  /** A track has at most one ancestor at each depth. */
  lemma {:induction false} AncestorAtDepthUnique(parents: seq<int>, a: nat, b: nat, i: nat)
    requires Acyclic(parents) && a < |parents| && b < |parents| && i < |parents|
    requires IsDescendant(parents, a, i) && IsDescendant(parents, b, i)
    requires Depth(parents, a) == Depth(parents, b)
    ensures a == b
    decreases Depth(parents, i)
  {
    if a == i {
      DescendantDepth(parents, b, i);
    } else if b == i {
      DescendantDepth(parents, a, i);
    } else {
      DepthStep(parents, i);
      AncestorAtDepthUnique(parents, a, b, parents[i]);
    }
  }

  /** The ancestor is the unique primary track above i: a primary track
      that has i in its subtree is Root(i). */
  lemma RootUnique(parents: seq<int>, r: nat, i: nat)
    requires Acyclic(parents) && r < |parents| && i < |parents|
    requires parents[r] == -1 && IsDescendant(parents, r, i)
    ensures r == Root(parents, i)
  {
    AncestorAtDepthUnique(parents, r, Root(parents, i), i);
  }

  /** Tracks that share a parent share a root. */
  lemma RootOfChild(parents: seq<int>, i: nat)
    requires Acyclic(parents) && i < |parents| && parents[i] != -1
    ensures Root(parents, i) == Root(parents, parents[i])
  {
  }

  /** A proper descendant of t sits below exactly one child of t. */
  lemma {:induction false} ChildOnPath(parents: seq<int>, t: nat, i: nat) returns (c: nat)
    requires Acyclic(parents) && t < |parents| && i < |parents|
    requires IsDescendant(parents, t, i) && i != t
    ensures c < |parents| && parents[c] == t && IsDescendant(parents, c, i)
    ensures forall c' :: 0 <= c' < |parents| && parents[c'] == t && IsDescendant(parents, c', i) ==> c' == c
    decreases Depth(parents, i)
  {
    var p := parents[i];
    DepthStep(parents, i);
    if p == t {
      c := i;
    } else {
      c := ChildOnPath(parents, t, p);
    }
    DepthStep(parents, c);
    forall c' | 0 <= c' < |parents| && parents[c'] == t && IsDescendant(parents, c', i)
      ensures c' == c
    {
      DepthStep(parents, c');
      AncestorAtDepthUnique(parents, c, c', i);
    }
  }

  /** Outside t's subtree, no child of t has i in its subtree either. */
  lemma OutsideSubtree(parents: seq<int>, t: nat, i: nat, c: nat)
    requires Acyclic(parents) && t < |parents| && i < |parents| && c < |parents|
    requires parents[c] == t && !IsDescendant(parents, t, i)
    ensures !IsDescendant(parents, c, i)
  {
    if IsDescendant(parents, c, i) {
      assert IsDescendant(parents, t, c);
      DescendantTrans(parents, t, c, i);
    }
  }

  /** A track is not in the subtree of any of its children. */
  lemma NotBelowOwnChild(parents: seq<int>, t: nat, c: nat)
    requires Acyclic(parents) && t < |parents| && c < |parents| && parents[c] == t
    ensures !IsDescendant(parents, c, t)
  {
    DepthStep(parents, c);
    if IsDescendant(parents, c, t) {
      DescendantDepth(parents, c, t);
    }
  }

  /** The tracks among the first n whose parent is t, in index order: the
      `children` list ReadTracks builds for t once it has linked n tracks. */
  function ChildrenOf(parents: seq<int>, t: int, n: nat): (cs: seq<nat>)
    requires n <= |parents|
    ensures forall k :: 0 <= k < |cs| ==> cs[k] < n && parents[cs[k]] == t
    ensures forall j :: 0 <= j < n && parents[j] == t ==> j in cs
    ensures forall a, b :: 0 <= a < b < |cs| ==> cs[a] < cs[b]
  {
    if n == 0 then []
    else
      var cs := ChildrenOf(parents, t, n - 1);
      if parents[n - 1] == t then cs + [n - 1] else cs
  }

  /** Each non-primary track is listed under its own parent and no other
      (ChildrenOf is strictly ascending, so it is listed there once); a
      primary track is listed under no track. */
  lemma ChildListedUnderParentOnly(parents: seq<int>, j: nat, t: nat)
    requires ValidParents(parents) && j < |parents| && t < |parents|
    ensures j in ChildrenOf(parents, t, |parents|) <==> parents[j] == t
  {
  }
}
