/** The event cursor: Next and Prev step through the entries of the file
    and wrap around at either end. */
module Cursor {
  /** The entry after `cur`: one further, or back to the first after the last. */
  function NextEntry(cur: nat, n: nat): (r: nat)
    requires cur < n
    ensures r < n && r == (cur + 1) % n
  {
    if cur != n - 1 then cur + 1 else 0
  }

  /** The entry before `cur`: one back, or on to the last before the first. */
  function PrevEntry(cur: nat, n: nat): (r: nat)
    requires cur < n
    ensures r < n && r == (cur + n - 1) % n
  {
    if cur != 0 then cur - 1 else n - 1
  }

  /** Prev undoes Next and Next undoes Prev. */
  lemma NextPrevInverse(cur: nat, n: nat)
    requires cur < n
    ensures PrevEntry(NextEntry(cur, n), n) == cur
    ensures NextEntry(PrevEntry(cur, n), n) == cur
  {
  }

  /** The ends: Next wraps from the last entry to the first, Prev from the
      first to the last; a file of one entry stays on it. */
  lemma CursorWraps(n: nat)
    requires n > 0
    ensures NextEntry(n - 1, n) == 0 && PrevEntry(0, n) == n - 1
    ensures n == 1 ==> NextEntry(0, n) == 0 && PrevEntry(0, n) == 0
  {
  }
}
