/** The pool of block timestamps harvested from executions. Items arrive as
    `uint64`, are stored as big integers built from their `int64`
    reinterpretation, are kept sorted by `big.Int.Uint64()` of the stored
    value, and are walked by a cursor that moves before it reads. */
module TimestampPool {
  import opened Common
  import opened RoundRobin

  /** `big.Int.Uint64()` of a stored value: the low 64 bits of its absolute
      value. A stored value is an `int64`, so this is just its magnitude. */
  function Key(x: Int64): (k: Uint64)
    ensures x >= 0 ==> k == x
    ensures x < 0 ==> k == -(x as int)
  {
    var v: int := x;
    if v < 0 then -v else v
  }

  ghost predicate SortedByKey(s: seq<Int64>)
  {
    forall i, j :: 0 <= i < j < |s| ==> Key(s[i]) <= Key(s[j])
  }

  /** Inserts `x` in front of the first item with a larger key. */
  function InsertByKey(s: seq<Int64>, x: Int64): (r: seq<Int64>)
    decreases |s|
  {
    if s == [] then [x]
    else if Key(x) <= Key(s[0]) then [x] + s
    else [s[0]] + InsertByKey(s[1..], x)
  }

  /** An ordering of `s` by `Key`; `sort.Slice` is not stable, so any order
      among equal keys would do, and this one is insertion order reversed
      for ties. */
  function SortByKey(s: seq<Int64>): (r: seq<Int64>)
    decreases |s|
  {
    if s == [] then [] else InsertByKey(SortByKey(s[..|s| - 1]), s[|s| - 1])
  }

  lemma {:induction false} InsertByKeyPermutes(s: seq<Int64>, x: Int64)
    ensures multiset(InsertByKey(s, x)) == multiset(s) + multiset{x}
    decreases |s|
  {
    if s != [] && Key(x) > Key(s[0]) {
      InsertByKeyPermutes(s[1..], x);
      assert s == [s[0]] + s[1..];
    }
  }

  /** A lower bound on every key survives the insertion of a key above it. */
  lemma {:induction false} InsertByKeyBounded(s: seq<Int64>, x: Int64, lo: int)
    requires forall i :: 0 <= i < |s| ==> lo <= Key(s[i])
    requires lo <= Key(x)
    ensures forall i :: 0 <= i < |InsertByKey(s, x)| ==> lo <= Key(InsertByKey(s, x)[i])
    decreases |s|
  {
    if s != [] && Key(x) > Key(s[0]) {
      InsertByKeyBounded(s[1..], x, lo);
    }
  }

  lemma {:induction false} InsertByKeySorted(s: seq<Int64>, x: Int64)
    requires SortedByKey(s)
    ensures SortedByKey(InsertByKey(s, x))
    decreases |s|
  {
    if s != [] && Key(x) > Key(s[0]) {
      var t := s[1..];
      InsertByKeySorted(t, x);
      InsertByKeyBounded(t, x, Key(s[0]));
      assert InsertByKey(s, x) == [s[0]] + InsertByKey(t, x);
    }
  }

  /** `SortByKey` returns a sorted permutation of its input. */
  lemma {:induction false} SortByKeyCorrect(s: seq<Int64>)
    ensures SortedByKey(SortByKey(s))
    ensures multiset(SortByKey(s)) == multiset(s)
    decreases |s|
  {
    if s != [] {
      var init := s[..|s| - 1];
      SortByKeyCorrect(init);
      InsertByKeySorted(SortByKey(init), s[|s| - 1]);
      InsertByKeyPermutes(SortByKey(init), s[|s| - 1]);
      assert s == init + [s[|s| - 1]];
    }
  }

  class TimestampPool {
    var idx: nat
    /** `big.NewInt(int64(item))` of every added item. */
    var storage: seq<Int64>
    /** The `uint64` items added, as the keys of `storageMap`. */
    var storageMap: set<Uint64>

    ghost predicate Valid()
      reads this
    {
      && (storage == [] ==> idx == 0)
      && (storage != [] ==> idx < |storage|)
      && storageMap == set x: Uint64 | ToInt64(x) in storage
    }

    /** `GetTimestampPool`: empty, cursor 0. */
    constructor ()
      ensures Valid()
      ensures idx == 0 && storage == [] && storageMap == {}
    {
      idx := 0;
      storage := [];
      storageMap := {};
    }

    method Add(item: Uint64)
      requires Valid()
      modifies this`storage, this`storageMap
      ensures Valid()
      ensures storage == old(storage) + [ToInt64(item)]
      ensures storageMap == old(storageMap) + {item}
      ensures idx == old(idx)
    {
      storage := storage + [ToInt64(item)];
      storageMap := storageMap + {item};
      forall x: Uint64 | ToInt64(x) == ToInt64(item) ensures x == item {
        ToInt64Injective(x, item);
      }
    }

    /** Move-then-read: the cursor first wraps forward, then the item under
        it is returned; `None` (nil) on an empty pool. */
    method Next() returns (item: Option<Int64>)
      requires Valid()
      modifies this`idx
      ensures Valid()
      ensures old(storage) == [] ==> item == None && idx == old(idx)
      ensures old(storage) != [] ==> idx == Advance(old(idx), |storage|) && item == Some(storage[idx])
      ensures old(storage) != [] ==> [item.value] == PreLap(storage, old(idx), 1)
    {
      if |storage| == 0 {
        return None;
      }
      AdvanceIsModular(idx, |storage|);
      idx := (idx + 1) % |storage|;
      item := Some(storage[idx]);
    }

    /** The item under the cursor without moving it; `None` when empty. */
    function GetCurrent(): (item: Option<Int64>)
      requires Valid()
      reads this
      ensures item.None? <==> storage == []
      ensures item.Some? ==> item.value == storage[idx]
    {
      if |storage| == 0 then None else Some(storage[idx])
    }

    /** The cursor stands on the last item. */
    function AllPassed(): (b: bool)
      reads this
      ensures b <==> (storage != [] && idx == |storage| - 1)
    {
      |storage| > 0 && idx + 1 == |storage|
    }

    function Contains(val: Uint64): (b: bool)
      requires Valid()
      reads this
      ensures b <==> ToInt64(val) in storage
    {
      val in storageMap
    }

    /** Reorders the stored items by `Key`; cursor and seen set stay. */
    method Sort()
      requires Valid()
      modifies this`storage
      ensures Valid()
      ensures storage == SortByKey(old(storage))
      ensures SortedByKey(storage)
      ensures multiset(storage) == multiset(old(storage))
    {
      SortByKeyCorrect(storage);
      var sorted := SortByKey(storage);
      assert |sorted| == |storage| by {
        assert |multiset(sorted)| == |multiset(storage)|;
      }
      forall x: Int64 ensures x in sorted <==> x in storage {
        assert x in sorted <==> x in multiset(sorted);
        assert x in storage <==> x in multiset(storage);
      }
      storage := sorted;
    }

    function Size(): (n: nat)
      reads this
      ensures n == |storage|
    {
      |storage|
    }
  }
}
