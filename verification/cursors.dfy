/** Index arithmetic of the circular history buffer: where the cursors of the archive
    move on each operation, and what repeated moves add up to. */
module Cursors {

  /** The slot after `c` in a buffer of `m` slots. It wraps from the last slot to the
      absolute slot 0, whatever the oldest retained slot is. */
  function NextSlot(c: int, m: int): (r: int)
    requires 0 <= c < m
    ensures 0 <= r < m
    ensures r == (c + 1) % m
  {
    if c + 1 >= m then 0 else c + 1
  }

  /** The slot before `c` when `t` is the oldest retained slot: backing up stops at `t`,
      and otherwise steps back one slot, wrapping from slot 0 to the last slot. */
  function PrevSlot(c: int, t: int, m: int): (r: int)
    requires 0 <= c < m
    ensures 0 <= r < m
    ensures c == t ==> r == c
    ensures c != t ==> r == (c - 1) % m
  {
    if c == t then c else if c - 1 < 0 then m - 1 else c - 1
  }

  /** Where the oldest retained slot goes when a photo has been written at `h`: it moves
      on one slot exactly when the advanced head has caught up with it. */
  function TailAfterAppend(h: int, t: int, m: int): (r: int)
    requires 0 <= h < m && 0 <= t < m
    ensures 0 <= r < m
    ensures r != t <==> NextSlot(h, m) == t && m > 1
    ensures r == if NextSlot(h, m) == t then (t + 1) % m else t
  {
    if NextSlot(h, m) == t then NextSlot(t, m) else t
  }

  /** The number of retained photos: the slots from the tail up to, not including, the head. */
  function Occupancy(h: int, t: int, m: int): (r: int)
    requires 0 <= h < m && 0 <= t < m
    ensures 0 <= r < m
    ensures t + r == h || t + r == h + m
  {
    if h >= t then h - t else h - t + m
  }

  /** The cursor after `n` forward moves from `c`. */
  function NextN(c: int, n: nat, m: int): (r: int)
    requires 0 <= c < m
    ensures 0 <= r < m
  {
    if n == 0 then c else NextSlot(NextN(c, n - 1, m), m)
  }

  /** The cursor after `n` backward moves from `c` with `t` the oldest retained slot. */
  function PrevN(c: int, n: nat, t: int, m: int): (r: int)
    requires 0 <= c < m
    ensures 0 <= r < m
    decreases n
  {
    if n == 0 then c else PrevN(PrevSlot(c, t, m), n - 1, t, m)
  }

  /** Euclidean remainder is determined by any quotient/remainder split. */
  lemma ModUnique(x: int, m: int, q: int, r: int)
    requires m > 0 && 0 <= r < m && x == q * m + r
    ensures x % m == r
  {
    var q0, r0 := x / m, x % m;
    assert x == q0 * m + r0;
    if q > q0 {
      assert (q - q0) * m == q * m - q0 * m;
      AtLeastOneMultiple(q - q0, m);
    } else if q < q0 {
      assert (q0 - q) * m == q0 * m - q * m;
      AtLeastOneMultiple(q0 - q, m);
    }
  }

  lemma {:induction false} AtLeastOneMultiple(d: int, m: int)
    requires d >= 1 && m > 0
    ensures d * m >= m
    decreases d
  {
    if d > 1 {
      AtLeastOneMultiple(d - 1, m);
      assert d * m == (d - 1) * m + m;
    }
  }

  /** One more step on a remainder is a NextSlot step. */
  lemma ModSucc(x: int, m: int)
    requires m > 0
    ensures (x + 1) % m == NextSlot(x % m, m)
  {
    var q, r := x / m, x % m;
    assert x == q * m + r;
    if r + 1 < m {
      ModUnique(x + 1, m, q, r + 1);
    } else {
      assert x + 1 == (q + 1) * m + 0;
      ModUnique(x + 1, m, q + 1, 0);
    }
  }

  /** `n` forward moves land `n` slots further on, counted modulo the capacity. */
  lemma {:induction false} NextNWraps(c: int, n: nat, m: int)
    requires 0 <= c < m
    ensures NextN(c, n, m) == (c + n) % m
  {
    if n == 0 {
      ModUnique(c, m, 0, c);
    } else {
      NextNWraps(c, n - 1, m);
      ModSucc(c + n - 1, m);
    }
  }

  /** `m` forward moves in a buffer of `m` slots come back to the starting slot. */
  lemma FullCycleReturns(c: int, m: int)
    requires 0 <= c < m
    ensures NextN(c, m, m) == c
  {
    NextNWraps(c, m, m);
    ModUnique(c + m, m, 1, c);
  }

  /** Fewer than `m` forward moves never revisit a slot. */
  lemma CycleVisitsOnce(c: int, i: nat, j: nat, m: int)
    requires 0 <= c < m && i < j < m
    ensures NextN(c, i, m) != NextN(c, j, m)
  {
    NextNWraps(c, i, m);
    NextNWraps(c, j, m);
    if c + i < m { ModUnique(c + i, m, 0, c + i); } else { ModUnique(c + i, m, 1, c + i - m); }
    if c + j < m { ModUnique(c + j, m, 0, c + j); } else { ModUnique(c + j, m, 1, c + j - m); }
  }

  /** A backward move undoes a forward move that did not land on the oldest slot. */
  lemma PrevUndoesNext(c: int, t: int, m: int)
    requires 0 <= c < m && NextSlot(c, m) != t
    ensures PrevSlot(NextSlot(c, m), t, m) == c
  {
  }

  /** `n` backward moves undo `n` forward moves, provided no forward move landed on
      the oldest slot. */
  lemma {:induction false} BackUndoesForward(c: int, n: nat, t: int, m: int)
    requires 0 <= c < m
    requires forall k :: 1 <= k <= n ==> NextN(c, k, m) != t
    ensures PrevN(NextN(c, n, m), n, t, m) == c
  {
    if n > 0 {
      assert NextN(c, n, m) != t;
      PrevUndoesNext(NextN(c, n - 1, m), t, m);
      BackUndoesForward(c, n - 1, t, m);
    }
  }

  /** At the oldest slot, any number of backward moves stays put. */
  lemma {:induction false} PrevAtTailStays(t: int, n: nat, m: int)
    requires 0 <= t < m
    ensures PrevN(t, n, t, m) == t
  {
    if n > 0 {
      PrevAtTailStays(t, n - 1, m);
    }
  }

  /** Appending grows the number of retained photos by one until it reaches `m - 1`;
      from then on each append evicts the oldest photo. */
  lemma AppendOccupancy(h: int, t: int, m: int)
    requires 0 <= h < m && 0 <= t < m
    ensures var n := Occupancy(h, t, m);
      Occupancy(NextSlot(h, m), TailAfterAppend(h, t, m), m) == if n + 1 < m then n + 1 else m - 1
  {
  }
}
