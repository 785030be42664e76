/** reorder_by_time: a stable sort of coordinate sets [x, y, z, t] by their
    time component (index 3). Python's `sorted` computes the key of every
    element before it compares any, so a single set with fewer than four
    components raises IndexError, whatever the length of the list. */
module Reorder {
  import opened Wrappers

  type Point = seq<real>

  predicate Timed(p: Point) {
    |p| >= 4
  }

  function Time(p: Point): real
    requires Timed(p)
  {
    p[3]
  }

  predicate AllTimed(ps: seq<Point>) {
    forall i :: 0 <= i < |ps| ==> Timed(ps[i])
  }

  predicate Sorted(ps: seq<Point>)
    requires AllTimed(ps)
  {
    forall i, j :: 0 <= i < j < |ps| ==> Time(ps[i]) <= Time(ps[j])
  }

  /** Places x after every trailing element whose time exceeds x's, so that
      x follows the elements of equal time that were already there. */
  function Insert(s: seq<Point>, x: Point): (r: seq<Point>)
    requires AllTimed(s) && Timed(x)
    ensures |r| == |s| + 1 && multiset(r) == multiset(s) + multiset{x}
    ensures AllTimed(r)
  {
    if s == [] then [x]
    else if Time(s[|s| - 1]) <= Time(x) then s + [x]
    else
      var pre := s[..|s| - 1];
      assert s == pre + [s[|s| - 1]];
      Insert(pre, x) + [s[|s| - 1]]
  }

  /** Insertion sort, taking the elements in list order. */
  function SortByTime(ps: seq<Point>): (r: seq<Point>)
    requires AllTimed(ps)
    ensures AllTimed(r)
  {
    if ps == [] then [] else Insert(SortByTime(ps[..|ps| - 1]), ps[|ps| - 1])
  }

  /** reorder_by_time: the sets sorted by time, or IndexError when one of
      them has no time component. */
  function ReorderByTime(ps: seq<Point>): (r: Result<seq<Point>>)
    ensures r.Err? <==> exists i :: 0 <= i < |ps| && !Timed(ps[i])
    ensures r.Ok? ==> AllTimed(ps) && r.value == SortByTime(ps)
  {
    if AllTimed(ps) then Ok(SortByTime(ps)) else Err("IndexError: list index out of range")
  }

  /** The elements of s whose time is tau, in order. */
  function WithTime(s: seq<Point>, tau: real): seq<Point>
    requires AllTimed(s)
  {
    if s == [] then []
    else WithTime(s[..|s| - 1], tau) + (if Time(s[|s| - 1]) == tau then [s[|s| - 1]] else [])
  }

  lemma WithTimeSnoc(s: seq<Point>, x: Point, tau: real)
    requires AllTimed(s) && Timed(x)
    ensures AllTimed(s + [x])
    ensures WithTime(s + [x], tau) == WithTime(s, tau) + (if Time(x) == tau then [x] else [])
  {
    assert (s + [x])[..|s|] == s;
  }

  lemma {:induction false} InsertSorted(s: seq<Point>, x: Point)
    requires AllTimed(s) && Timed(x) && Sorted(s)
    ensures Sorted(Insert(s, x))
    decreases |s|
  {
    if s != [] && Time(s[|s| - 1]) > Time(x) {
      var pre := s[..|s| - 1];
      var y := s[|s| - 1];
      InsertSorted(pre, x);
      var r' := Insert(pre, x);
      forall i | 0 <= i < |r'| ensures Time(r'[i]) <= Time(y) {
        assert r'[i] in multiset(r');
        if r'[i] != x {
          assert r'[i] in multiset(pre);
          var j :| 0 <= j < |pre| && pre[j] == r'[i];
          assert pre[j] == s[j];
        }
      }
    }
  }

  /** Inserting x adds x, and only x, after the elements of its own time. */
  lemma {:induction false} InsertStable(s: seq<Point>, x: Point, tau: real)
    requires AllTimed(s) && Timed(x)
    ensures WithTime(Insert(s, x), tau) == WithTime(s, tau) + (if Time(x) == tau then [x] else [])
    decreases |s|
  {
    if s == [] {
      WithTimeSnoc([], x, tau);
    } else if Time(s[|s| - 1]) <= Time(x) {
      WithTimeSnoc(s, x, tau);
    } else {
      InsertStable(s[..|s| - 1], x, tau);
      InsertStableStep(s, x, tau);
    }
  }

  lemma InsertStableStep(s: seq<Point>, x: Point, tau: real)
    requires AllTimed(s) && Timed(x) && s != [] && Time(s[|s| - 1]) > Time(x)
    requires WithTime(Insert(s[..|s| - 1], x), tau) == WithTime(s[..|s| - 1], tau) + (if Time(x) == tau then [x] else [])
    ensures WithTime(Insert(s, x), tau) == WithTime(s, tau) + (if Time(x) == tau then [x] else [])
  {
    var pre := s[..|s| - 1];
    var y := s[|s| - 1];
    var xs: seq<Point> := if Time(x) == tau then [x] else [];
    var ys: seq<Point> := if Time(y) == tau then [y] else [];
    WithTimeSnoc(Insert(pre, x), y, tau);
    assert s == pre + [y];
    WithTimeSnoc(pre, y, tau);
    SwapTail(WithTime(Insert(s, x), tau), WithTime(Insert(pre, x), tau), WithTime(pre, tau), WithTime(s, tau), xs, ys);
  }

  lemma SwapTail(a: seq<Point>, b: seq<Point>, c: seq<Point>, d: seq<Point>, xs: seq<Point>, ys: seq<Point>)
    requires a == b + ys && b == c + xs && d == c + ys && (xs == [] || ys == [])
    ensures a == d + xs
  {
    if xs == [] {
      assert d + xs == d;
    } else {
      assert ys == [] && b + ys == b && c + ys == c;
    }
  }

  /** The result is ordered by time. */
  lemma {:induction false} SortSorted(ps: seq<Point>)
    requires AllTimed(ps)
    ensures Sorted(SortByTime(ps))
    decreases |ps|
  {
    if ps != [] {
      SortSorted(ps[..|ps| - 1]);
      InsertSorted(SortByTime(ps[..|ps| - 1]), ps[|ps| - 1]);
    }
  }

  /** The result holds the same sets, each as many times as before. */
  lemma {:induction false} SortPermutes(ps: seq<Point>)
    requires AllTimed(ps)
    ensures multiset(SortByTime(ps)) == multiset(ps)
    decreases |ps|
  {
    if ps != [] {
      SortPermutes(ps[..|ps| - 1]);
      assert ps == ps[..|ps| - 1] + [ps[|ps| - 1]];
    }
  }

  /** The sort is stable: sets of equal time keep their relative order. */
  lemma {:induction false} SortStable(ps: seq<Point>, tau: real)
    requires AllTimed(ps)
    ensures WithTime(SortByTime(ps), tau) == WithTime(ps, tau)
    decreases |ps|
  {
    if ps != [] {
      var pre := ps[..|ps| - 1];
      SortStable(pre, tau);
      InsertStable(SortByTime(pre), ps[|ps| - 1], tau);
    }
  }

  /** What reorder_by_time promises when it returns: the same sets, sorted
      by time, with ties in their original order. */
  lemma ReorderByTimeCorrect(ps: seq<Point>)
    requires AllTimed(ps)
    ensures ReorderByTime(ps).Ok?
    ensures var r := ReorderByTime(ps).value;
      AllTimed(r) && Sorted(r) && multiset(r) == multiset(ps) &&
      forall tau :: WithTime(r, tau) == WithTime(ps, tau)
  {
    SortSorted(ps);
    SortPermutes(ps);
    forall tau ensures WithTime(SortByTime(ps), tau) == WithTime(ps, tau) {
      SortStable(ps, tau);
    }
  }
}
