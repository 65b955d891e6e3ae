/** The cursor discipline shared by every value pool: a cursor into a
    non-empty slice that moves one place per read and wraps to the start.
    The ordinary pools read and then move (`Lap`); the timestamp pool moves
    and then reads (`PreLap`). */
module RoundRobin {

  /** The cursor after one move, `(i + 1) % n` for a cursor `i < n`. */
  function Advance(i: nat, n: nat): (j: nat)
    requires i < n
    ensures j < n
  {
    if i + 1 < n then i + 1 else 0
  }

  lemma AdvanceIsModular(i: nat, n: nat)
    requires i < n
    ensures Advance(i, n) == (i + 1) % n
  {
  }

  /** The cursor after `k` moves. */
  function CursorAfter(i: nat, n: nat, k: nat): (j: nat)
    requires i < n
    ensures j < n
    decreases k
  {
    if k == 0 then i else CursorAfter(Advance(i, n), n, k - 1)
  }

  /** The items returned by `k` successive read-then-move calls on `s`,
      starting with the cursor at `i`. */
  function Lap<T>(s: seq<T>, i: nat, k: nat): (r: seq<T>)
    requires i < |s|
    ensures |r| == k
    decreases k
  {
    if k == 0 then [] else [s[i]] + Lap(s, Advance(i, |s|), k - 1)
  }

  /** The items returned by `k` successive move-then-read calls on `s`,
      starting with the cursor at `i`. */
  function PreLap<T>(s: seq<T>, i: nat, k: nat): (r: seq<T>)
    requires i < |s|
    ensures |r| == k
    decreases k
  {
    if k == 0 then [] else [s[Advance(i, |s|)]] + PreLap(s, Advance(i, |s|), k - 1)
  }

  /** The `j`-th of `k` read-then-move calls returns the item under the
      cursor after `j` moves. */
  lemma {:induction false} LapAt<T>(s: seq<T>, i: nat, k: nat, j: nat)
    requires i < |s| && j < k
    ensures Lap(s, i, k)[j] == s[CursorAfter(i, |s|, j)]
    decreases k
  {
    if j > 0 {
      LapAt(s, Advance(i, |s|), k - 1, j - 1);
    }
  }

  /** The `j`-th of `k` move-then-read calls returns the item under the
      cursor after `j + 1` moves. */
  lemma {:induction false} PreLapAt<T>(s: seq<T>, i: nat, k: nat, j: nat)
    requires i < |s| && j < k
    ensures PreLap(s, i, k)[j] == s[CursorAfter(i, |s|, j + 1)]
    decreases k
  {
    if j > 0 {
      PreLapAt(s, Advance(i, |s|), k - 1, j - 1);
    }
  }

  /** One more move advances the cursor reached after `k` moves. */
  lemma {:induction false} CursorAfterStep(i: nat, n: nat, k: nat)
    requires i < n
    ensures CursorAfter(i, n, k + 1) == Advance(CursorAfter(i, n, k), n)
    decreases k
  {
    if k > 0 {
      CursorAfterStep(Advance(i, n), n, k - 1);
    }
  }

  /** Within one lap the `d`-th position from `i` is every index once:
      `k` is reached after `(k - i) mod n` moves. */
  lemma ReachedWithinLap(i: nat, n: nat, k: nat)
    requires i < n && k < n
    ensures var d := if i <= k then k - i else n - i + k;
            d < n && CursorAfter(i, n, d) == k
  {
    if i <= k {
      CursorCountsUp(i, n, k - i);
    } else {
      CursorWraps(i, n);
      CursorSplit(i, n, n - i, k);
      CursorCountsUp(0, n, k);
    }
  }

  /** `a + b` moves are `a` moves followed by `b` moves. */
  lemma {:induction false} CursorSplit(i: nat, n: nat, a: nat, b: nat)
    requires i < n
    ensures CursorAfter(i, n, a + b) == CursorAfter(CursorAfter(i, n, a), n, b)
    decreases a
  {
    if a > 0 {
      CursorSplit(Advance(i, n), n, a - 1, b);
      assert a + b - 1 == (a - 1) + b;
    }
  }

  /** Before the wrap the cursor just counts up. */
  lemma {:induction false} CursorCountsUp(i: nat, n: nat, k: nat)
    requires i + k < n
    ensures CursorAfter(i, n, k) == i + k
    decreases k
  {
    if k > 0 {
      CursorCountsUp(i + 1, n, k - 1);
    }
  }

  /** After `n - i` moves the cursor has wrapped to 0. */
  lemma {:induction false} CursorWraps(i: nat, n: nat)
    requires i < n
    ensures CursorAfter(i, n, n - i) == 0
    decreases n - i
  {
    if i + 1 < n {
      CursorWraps(i + 1, n);
    }
  }

  /** From cursor 0, `k <= |s|` reads return the first `k` items in order. */
  lemma LapFromStart<T>(s: seq<T>, k: nat)
    requires 0 < |s| && k <= |s|
    ensures Lap(s, 0, k) == s[..k]
  {
    forall j | 0 <= j < k ensures Lap(s, 0, k)[j] == s[j] {
      LapAt(s, 0, k, j);
      CursorCountsUp(0, |s|, j);
    }
  }

  /** `a + b` reads are `a` reads followed by `b` reads from where the
      cursor then stands. */
  lemma {:induction false} LapSplit<T>(s: seq<T>, i: nat, a: nat, b: nat)
    requires i < |s|
    ensures Lap(s, i, a + b) == Lap(s, i, a) + Lap(s, CursorAfter(i, |s|, a), b)
    decreases a
  {
    if a > 0 {
      LapSplit(s, Advance(i, |s|), a - 1, b);
      assert a + b - 1 == (a - 1) + b;
    }
  }

  /** Fairness of a pool: from cursor 0, `|s|` reads return every stored item
      once, in insertion order, the cursor is back at 0, and the next read
      repeats the first item. */
  lemma FullLap<T>(s: seq<T>)
    requires |s| > 0
    ensures Lap(s, 0, |s|) == s
    ensures CursorAfter(0, |s|, |s|) == 0
    ensures Lap(s, 0, |s| + 1) == s + [s[0]]
  {
    CursorWraps(0, |s|);
    assert |s| - 0 == |s|;
    var c := CursorAfter(0, |s|, |s|);
    assert c == 0;
    LapFromStart(s, |s|);
    assert s[..|s|] == s;
    LapSplit(s, 0, |s|, 1);
    assert Lap(s, c, 1) == [s[0]];
  }

  /** Lap completion of the move-then-read discipline: starting from cursor
      0, the `k`-th move (`1 <= k <= n`) leaves the cursor on the last item
      exactly when `k == n - 1`, or when `n == 1`. */
  lemma LastItemReached(n: nat, k: nat)
    requires 1 <= k <= n
    ensures CursorAfter(0, n, k) == n - 1 <==> (k == n - 1 || n == 1)
  {
    if k < n {
      CursorCountsUp(0, n, k);
    } else {
      CursorWraps(0, n);
    }
  }
}
