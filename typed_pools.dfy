/** The typed value pools: one generic definition stands for the five Go
    pool types `int8pool`, `int16pool`, `int32pool`, `int64pool`,
    `bytes32pool` and `stringpool`, which differ only in the element type
    and in the zero value `Next` returns on an empty pool. Membership is
    exact equality of elements. */
module TypedPools {
  import opened Common
  import opened RoundRobin

  class TypedPool<T(==)> {
    /** The zero value of the element type. */
    const zero: T
    var idx: nat
    var storage: seq<T>
    /** The keys of `storageMap` (its values are always true). */
    var storageMap: set<T>

    ghost predicate Valid()
      reads this
    {
      && (storage == [] ==> idx == 0)
      && (storage != [] ==> idx < |storage|)
      && storageMap == set x | x in storage
    }

    /** An empty pool, cursor 0. */
    constructor (zero: T)
      ensures Valid()
      ensures this.zero == zero
      ensures idx == 0 && storage == [] && storageMap == {}
    {
      this.zero := zero;
      idx := 0;
      storage := [];
      storageMap := {};
    }

    /** Appends `item` and marks it seen; duplicates are not rejected here. */
    method Add(item: T)
      requires Valid()
      modifies this`storage, this`storageMap
      ensures Valid()
      ensures storage == old(storage) + [item]
      ensures storageMap == old(storageMap) + {item}
      ensures idx == old(idx)
    {
      storage := storage + [item];
      storageMap := storageMap + {item};
    }

    /** Read-then-move; the zero value on an empty pool. */
    method Next() returns (item: T)
      requires Valid()
      modifies this`idx
      ensures Valid()
      ensures old(storage) == [] ==> item == zero && idx == old(idx)
      ensures old(storage) != [] ==> item == storage[old(idx)] && idx == Advance(old(idx), |storage|)
      ensures old(storage) != [] ==> [item] == Lap(storage, old(idx), 1)
    {
      if |storage| == 0 {
        return zero;
      }
      item := storage[idx];
      AdvanceIsModular(idx, |storage|);
      idx := (idx + 1) % |storage|;
    }

    function Contains(val: T): (b: bool)
      requires Valid()
      reads this
      ensures b <==> val in storage
    {
      val in storageMap
    }

    function Size(): (n: nat)
      reads this
      ensures n == |storage|
    {
      |storage|
    }
  }

  method GetInt8Pool() returns (p: TypedPool<Int8>)
    ensures fresh(p) && p.Valid() && p.zero == 0 && p.storage == [] && p.idx == 0
  {
    p := new TypedPool(0);
  }

  /** The int16 pool file is not part of this model; its factory is taken to
      follow the other integer pools, as its use in `GetArgPool` requires. */
  method GetInt16Pool() returns (p: TypedPool<Int16>)
    ensures fresh(p) && p.Valid() && p.zero == 0 && p.storage == [] && p.idx == 0
  {
    p := new TypedPool(0);
  }

  method GetInt32Pool() returns (p: TypedPool<Int32>)
    ensures fresh(p) && p.Valid() && p.zero == 0 && p.storage == [] && p.idx == 0
  {
    p := new TypedPool(0);
  }

  method GetInt64Pool() returns (p: TypedPool<Int64>)
    ensures fresh(p) && p.Valid() && p.zero == 0 && p.storage == [] && p.idx == 0
  {
    p := new TypedPool(0);
  }

  method GetBytes32Pool() returns (p: TypedPool<Bytes32>)
    ensures fresh(p) && p.Valid() && p.zero == ZeroBytes32 && p.storage == [] && p.idx == 0
  {
    p := new TypedPool(ZeroBytes32);
  }

  method GetStringPool() returns (p: TypedPool<string>)
    ensures fresh(p) && p.Valid() && p.zero == "" && p.storage == [] && p.idx == 0
  {
    p := new TypedPool("");
  }
}
