/** The corpus of argument values (`ArgPool`): one pool per argument kind,
    with guarded adds that keep every pool free of duplicates, reads that
    walk each pool round-robin, and the package singleton behind
    `GetArgPool` and `ResetArgPool`. */
module ArgPool {
  import opened Common
  import opened Pool
  import opened TypedPools
  import opened TimestampPool

  /** The contents of a pool after a guarded add: unchanged if `x` is
      already there, otherwise `x` appended. */
  function GuardedAdd<T(==)>(s: seq<T>, x: T): seq<T>
  {
    if x in s then s else s + [x]
  }

  /** The same for the untyped pool, whose membership test compares
      renderings. */
  function GuardedAddRendered(s: seq<PoolValue>, x: PoolValue): seq<PoolValue>
  {
    if exists i :: 0 <= i < |s| && Render(s[i]) == Render(x) then s else s + [x]
  }

  /** The timestamp pool after `AddTimestamp`: a new item is appended and
      the whole pool re-sorted. */
  function GuardedAddTimestamp(s: seq<Int64>, x: Uint64): seq<Int64>
  {
    if ToInt64(x) in s then s else SortByKey(s + [ToInt64(x)])
  }

  /** A guarded add keeps a pool duplicate-free, always leaves `x` in it,
      grows it by at most one item and never drops one. */
  lemma GuardedAddKeepsDistinct<T>(s: seq<T>, x: T)
    requires Distinct(s)
    ensures Distinct(GuardedAdd(s, x))
    ensures x in GuardedAdd(s, x)
    ensures IsPrefix(s, GuardedAdd(s, x))
    ensures |GuardedAdd(s, x)| == if x in s then |s| else |s| + 1
  {
    if x !in s {
      var r := s + [x];
      forall i, j | 0 <= i < j < |r| ensures r[i] != r[j] {
        if j == |s| {
          assert r[i] == s[i];
        }
      }
      assert r[..|s|] == s;
    }
  }

  /** Adding the same item twice is the same as adding it once. */
  lemma GuardedAddIdempotent<T>(s: seq<T>, x: T)
    ensures GuardedAdd(GuardedAdd(s, x), x) == GuardedAdd(s, x)
  {
    assert x in GuardedAdd(s, x) by {
      if x !in s {
        assert GuardedAdd(s, x)[|s|] == x;
      }
    }
  }

  lemma GuardedAddRenderedKeepsDistinct(s: seq<PoolValue>, x: PoolValue)
    requires RenderDistinct(s)
    ensures RenderDistinct(GuardedAddRendered(s, x))
    ensures exists i :: 0 <= i < |GuardedAddRendered(s, x)| && Render(GuardedAddRendered(s, x)[i]) == Render(x)
  {
    if exists i :: 0 <= i < |s| && Render(s[i]) == Render(x) {
    } else {
      var r := s + [x];
      forall i, j | 0 <= i < j < |r| ensures Render(r[i]) != Render(r[j]) {
        if j == |s| {
          assert r[i] == s[i];
        }
      }
      assert Render(r[|s|]) == Render(x);
    }
  }

  lemma GuardedAddRenderedIdempotent(s: seq<PoolValue>, x: PoolValue)
    ensures GuardedAddRendered(GuardedAddRendered(s, x), x) == GuardedAddRendered(s, x)
  {
    var r := GuardedAddRendered(s, x);
    if !exists i :: 0 <= i < |s| && Render(s[i]) == Render(x) {
      assert Render(r[|s|]) == Render(x);
    }
  }

  /** `AddTimestamp` keeps the timestamp pool sorted and duplicate-free,
      and the new item is in it. */
  lemma GuardedAddTimestampKeepsInvariant(s: seq<Int64>, x: Uint64)
    requires SortedByKey(s) && Distinct(s)
    ensures SortedByKey(GuardedAddTimestamp(s, x))
    ensures Distinct(GuardedAddTimestamp(s, x))
    ensures ToInt64(x) in GuardedAddTimestamp(s, x)
    ensures multiset(GuardedAddTimestamp(s, x)) == if ToInt64(x) in s then multiset(s) else multiset(s) + multiset{ToInt64(x)}
    ensures forall y :: y in s ==> y in GuardedAddTimestamp(s, x)
  {
    if ToInt64(x) !in s {
      var t := s + [ToInt64(x)];
      GuardedAddKeepsDistinct(s, ToInt64(x));
      SortByKeyCorrect(t);
      DistinctPermutation(t, SortByKey(t));
      assert ToInt64(x) in multiset(t);
      forall y | y in s ensures y in SortByKey(t) {
        assert y in multiset(t);
      }
    }
  }

  ghost predicate OnlyAddresses(s: seq<PoolValue>)
  {
    forall i :: 0 <= i < |s| ==> s[i].AddressValue?
  }

  ghost predicate OnlyBigInts(s: seq<PoolValue>)
  {
    forall i :: 0 <= i < |s| ==> s[i].BigIntValue?
  }

  /** What the address pool and the BigInt pool keep, whichever `ArgPool`
      currently holds them. */
  ghost predicate AddressPoolInvariant(p: Pool)
    reads p
  {
    p.Valid() && RenderDistinct(p.storage) && OnlyAddresses(p.storage)
  }

  ghost predicate BigIntPoolInvariant(p: Pool)
    reads p
  {
    p.Valid() && RenderDistinct(p.storage) && OnlyBigInts(p.storage)
  }

  /** A typed pool is well formed, duplicate-free and returns `zero` when
      empty. */
  ghost predicate TypedPoolInvariant<T>(p: TypedPool<T>, zero: T)
    reads p
  {
    p.Valid() && Distinct(p.storage) && p.zero == zero
  }

  ghost predicate TimestampPoolInvariant(p: TimestampPool)
    reads p
  {
    p.Valid() && Distinct(p.storage) && SortedByKey(p.storage)
  }

  /** The cached untyped pools keep their invariants between corpora. */
  ghost predicate CacheInvariant(cache: PoolCache)
    reads cache, cache.pools.Values
  {
    && ("Address" in cache.pools ==> AddressPoolInvariant(cache.pools["Address"]))
    && ("BigInt" in cache.pools ==> BigIntPoolInvariant(cache.pools["BigInt"]))
    && ("Address" in cache.pools && "BigInt" in cache.pools ==> cache.pools["Address"] != cache.pools["BigInt"])
  }

  /** The contents of every pool of an `ArgPool`, without the cursors. */
  datatype Stores = Stores(
    int8s: seq<Int8>, int16s: seq<Int16>, int32s: seq<Int32>, int64s: seq<Int64>,
    bytes32s: seq<Bytes32>, addresses: seq<PoolValue>, bigInts: seq<PoolValue>,
    strings: seq<string>, timestamps: seq<Int64>)

  class ArgPool {
    const int8Pool: TypedPool<Int8>
    const int16Pool: TypedPool<Int16>
    const int32Pool: TypedPool<Int32>
    const int64Pool: TypedPool<Int64>
    const bytes32Pool: TypedPool<Bytes32>
    const addressPool: Pool
    const bigIntPool: Pool
    const stringPool: TypedPool<string>
    const timestampPool: TimestampPool

    ghost function Repr(): set<object>
      reads this
    {
      {int8Pool, int16Pool, int32Pool, int64Pool, bytes32Pool, addressPool, bigIntPool, stringPool, timestampPool}
    }

    /** What the pools hold. */
    ghost function Contents(): Stores
      reads int8Pool`storage, int16Pool`storage, int32Pool`storage, int64Pool`storage
      reads bytes32Pool`storage, addressPool`storage, bigIntPool`storage
      reads stringPool`storage, timestampPool`storage
    {
      Stores(int8Pool.storage, int16Pool.storage, int32Pool.storage, int64Pool.storage,
             bytes32Pool.storage, addressPool.storage, bigIntPool.storage,
             stringPool.storage, timestampPool.storage)
    }

    /** Every pool is well formed and free of duplicates, the timestamp
        pool is sorted, the two untyped pools hold values of their kind,
        and no two fields share a pool. */
    ghost predicate Valid()
      reads this, Repr()
    {
      && TypedPoolInvariant(int8Pool, 0)
      && TypedPoolInvariant(int16Pool, 0)
      && TypedPoolInvariant(int32Pool, 0)
      && TypedPoolInvariant(int64Pool, 0)
      && TypedPoolInvariant(bytes32Pool, ZeroBytes32)
      && TypedPoolInvariant(stringPool, "")
      && AddressPoolInvariant(addressPool)
      && BigIntPoolInvariant(bigIntPool)
      && TimestampPoolInvariant(timestampPool)
      && addressPool != bigIntPool
      && int8Pool as object != int16Pool as object
      && int8Pool as object != int32Pool as object
      && int8Pool as object != int64Pool as object
      && int16Pool as object != int32Pool as object
      && int16Pool as object != int64Pool as object
      && int32Pool as object != int64Pool as object
    }

    /** The struct literal of `GetArgPool`: fresh typed pools and the two
        cached untyped pools. */
    constructor (addressPool: Pool, bigIntPool: Pool)
      requires AddressPoolInvariant(addressPool) && BigIntPoolInvariant(bigIntPool)
      requires addressPool != bigIntPool
      ensures Valid()
      ensures this.addressPool == addressPool && this.bigIntPool == bigIntPool
      ensures fresh(int8Pool) && fresh(int16Pool) && fresh(int32Pool) && fresh(int64Pool)
      ensures fresh(bytes32Pool) && fresh(stringPool) && fresh(timestampPool)
      ensures int8Pool.storage == [] && int16Pool.storage == [] && int32Pool.storage == []
      ensures int64Pool.storage == [] && bytes32Pool.storage == [] && stringPool.storage == []
      ensures timestampPool.storage == []
    {
      int8Pool := new TypedPool(0);
      int16Pool := new TypedPool(0);
      int32Pool := new TypedPool(0);
      int64Pool := new TypedPool(0);
      bytes32Pool := new TypedPool(ZeroBytes32);
      this.addressPool := addressPool;
      this.bigIntPool := bigIntPool;
      stringPool := new TypedPool("");
      timestampPool := new TimestampPool();
    }

    method AddInt64(item: Int64)
      requires Valid()
      modifies int64Pool`storage, int64Pool`storageMap
      ensures Valid()
      ensures int64Pool.storage == GuardedAdd(old(int64Pool.storage), item)
      ensures Contents() == old(Contents()).(int64s := GuardedAdd(old(Contents()).int64s, item))
    {
      GuardedAddKeepsDistinct(int64Pool.storage, item);
      if !int64Pool.Contains(item) {
        int64Pool.Add(item);
      }
    }

    method AddInt32(item: Int32)
      requires Valid()
      modifies int32Pool`storage, int32Pool`storageMap
      ensures Valid()
      ensures int32Pool.storage == GuardedAdd(old(int32Pool.storage), item)
      ensures Contents() == old(Contents()).(int32s := GuardedAdd(old(Contents()).int32s, item))
    {
      GuardedAddKeepsDistinct(int32Pool.storage, item);
      if !int32Pool.Contains(item) {
        int32Pool.Add(item);
      }
    }

    method AddInt16(item: Int16)
      requires Valid()
      modifies int16Pool`storage, int16Pool`storageMap
      ensures Valid()
      ensures int16Pool.storage == GuardedAdd(old(int16Pool.storage), item)
      ensures Contents() == old(Contents()).(int16s := GuardedAdd(old(Contents()).int16s, item))
    {
      GuardedAddKeepsDistinct(int16Pool.storage, item);
      if !int16Pool.Contains(item) {
        int16Pool.Add(item);
      }
    }

    method AddInt8(item: Int8)
      requires Valid()
      modifies int8Pool`storage, int8Pool`storageMap
      ensures Valid()
      ensures int8Pool.storage == GuardedAdd(old(int8Pool.storage), item)
      ensures Contents() == old(Contents()).(int8s := GuardedAdd(old(Contents()).int8s, item))
    {
      GuardedAddKeepsDistinct(int8Pool.storage, item);
      if !int8Pool.Contains(item) {
        int8Pool.Add(item);
      }
    }

    method AddBytes32(item: Bytes32)
      requires Valid()
      modifies bytes32Pool`storage, bytes32Pool`storageMap
      ensures Valid()
      ensures bytes32Pool.storage == GuardedAdd(old(bytes32Pool.storage), item)
      ensures Contents() == old(Contents()).(bytes32s := GuardedAdd(old(Contents()).bytes32s, item))
    {
      GuardedAddKeepsDistinct(bytes32Pool.storage, item);
      if !bytes32Pool.Contains(item) {
        bytes32Pool.Add(item);
      }
    }

    method AddAddress(item: Address)
      requires Valid()
      modifies addressPool`storage, addressPool`storageMap
      ensures Valid()
      ensures addressPool.storage == GuardedAddRendered(old(addressPool.storage), AddressValue(item))
      ensures Contents() == old(Contents()).(addresses := GuardedAddRendered(old(Contents()).addresses, AddressValue(item)))
    {
      GuardedAddRenderedKeepsDistinct(addressPool.storage, AddressValue(item));
      if !addressPool.Contains(AddressValue(item)) {
        addressPool.Add(AddressValue(item));
      }
    }

    method AddBigInt(item: int)
      requires Valid()
      modifies bigIntPool`storage, bigIntPool`storageMap
      ensures Valid()
      ensures bigIntPool.storage == GuardedAddRendered(old(bigIntPool.storage), BigIntValue(item))
      ensures Contents() == old(Contents()).(bigInts := GuardedAddRendered(old(Contents()).bigInts, BigIntValue(item)))
    {
      GuardedAddRenderedKeepsDistinct(bigIntPool.storage, BigIntValue(item));
      if !bigIntPool.Contains(BigIntValue(item)) {
        bigIntPool.Add(BigIntValue(item));
      }
    }

    method AddString(item: string)
      requires Valid()
      modifies stringPool`storage, stringPool`storageMap
      ensures Valid()
      ensures stringPool.storage == GuardedAdd(old(stringPool.storage), item)
      ensures Contents() == old(Contents()).(strings := GuardedAdd(old(Contents()).strings, item))
    {
      GuardedAddKeepsDistinct(stringPool.storage, item);
      if !stringPool.Contains(item) {
        stringPool.Add(item);
      }
    }

    /** A new timestamp is added and the pool re-sorted; the cursor stays
        where it was, so it may now stand on a different item. */
    method AddTimestamp(item: Uint64)
      requires Valid()
      modifies timestampPool`storage, timestampPool`storageMap
      ensures Valid()
      ensures timestampPool.storage == GuardedAddTimestamp(old(timestampPool.storage), item)
      ensures Contents() == old(Contents()).(timestamps := GuardedAddTimestamp(old(Contents()).timestamps, item))
      ensures timestampPool.idx == old(timestampPool.idx)
    {
      GuardedAddTimestampKeepsInvariant(timestampPool.storage, item);
      if !timestampPool.Contains(item) {
        timestampPool.Add(item);
        timestampPool.Sort();
      }
    }

    method NextInt64() returns (r: Int64)
      requires Valid()
      modifies int64Pool`idx
      ensures Valid()
      ensures Contents() == old(Contents())
      ensures old(int64Pool.storage) == [] ==> r == 0
      ensures old(int64Pool.storage) != [] ==> r == int64Pool.storage[old(int64Pool.idx)]
    {
      r := int64Pool.Next();
    }

    method NextInt32() returns (r: Int32)
      requires Valid()
      modifies int32Pool`idx
      ensures Valid()
      ensures Contents() == old(Contents())
      ensures old(int32Pool.storage) == [] ==> r == 0
      ensures old(int32Pool.storage) != [] ==> r == int32Pool.storage[old(int32Pool.idx)]
    {
      r := int32Pool.Next();
    }

    method NextInt16() returns (r: Int16)
      requires Valid()
      modifies int16Pool`idx
      ensures Valid()
      ensures Contents() == old(Contents())
      ensures old(int16Pool.storage) == [] ==> r == 0
      ensures old(int16Pool.storage) != [] ==> r == int16Pool.storage[old(int16Pool.idx)]
    {
      r := int16Pool.Next();
    }

    method NextInt8() returns (r: Int8)
      requires Valid()
      modifies int8Pool`idx
      ensures Valid()
      ensures Contents() == old(Contents())
      ensures old(int8Pool.storage) == [] ==> r == 0
      ensures old(int8Pool.storage) != [] ==> r == int8Pool.storage[old(int8Pool.idx)]
    {
      r := int8Pool.Next();
    }

    method NextBytes32() returns (r: Bytes32)
      requires Valid()
      modifies bytes32Pool`idx
      ensures Valid()
      ensures Contents() == old(Contents())
      ensures old(bytes32Pool.storage) == [] ==> r == ZeroBytes32
      ensures old(bytes32Pool.storage) != [] ==> r == bytes32Pool.storage[old(bytes32Pool.idx)]
    {
      r := bytes32Pool.Next();
    }

    method NextString() returns (r: string)
      requires Valid()
      modifies stringPool`idx
      ensures Valid()
      ensures Contents() == old(Contents())
      ensures old(stringPool.storage) == [] ==> r == ""
      ensures old(stringPool.storage) != [] ==> r == stringPool.storage[old(stringPool.idx)]
    {
      r := stringPool.Next();
    }

    /** The type assertion `.(common.Address)` panics on the nil an empty
        pool returns. */
    method NextAddress() returns (r: Result<Address>)
      requires Valid()
      modifies addressPool`idx
      ensures Valid()
      ensures Contents() == old(Contents())
      ensures r.Panic? <==> old(addressPool.storage) == []
      ensures r.Ok? ==> AddressValue(r.value) == addressPool.storage[old(addressPool.idx)]
      ensures r.Ok? ==> addressPool.idx == RoundRobin.Advance(old(addressPool.idx), |addressPool.storage|)
    {
      var item := addressPool.Next();
      assert item.Some? ==> item.value.AddressValue?;
      match item {
        case Some(AddressValue(a)) => r := Ok(a);
        case Some(BigIntValue(_)) => r := Panic("interface conversion: interface {} is *big.Int, not common.Address");
        case None => r := Panic("interface conversion: interface is nil, not common.Address");
      }
    }

    /** The same for `.(*big.Int)`. */
    method NextBigInt() returns (r: Result<int>)
      requires Valid()
      modifies bigIntPool`idx
      ensures Valid()
      ensures Contents() == old(Contents())
      ensures r.Panic? <==> old(bigIntPool.storage) == []
      ensures r.Ok? ==> BigIntValue(r.value) == bigIntPool.storage[old(bigIntPool.idx)]
      ensures r.Ok? ==> bigIntPool.idx == RoundRobin.Advance(old(bigIntPool.idx), |bigIntPool.storage|)
    {
      var item := bigIntPool.Next();
      assert item.Some? ==> item.value.BigIntValue?;
      match item {
        case Some(BigIntValue(n)) => r := Ok(n);
        case Some(AddressValue(_)) => r := Panic("interface conversion: interface {} is common.Address, not *big.Int");
        case None => r := Panic("interface conversion: interface is nil, not *big.Int");
      }
    }

    /** The next timestamp and whether the walk has reached the last one;
        on an empty pool the wall-clock time `now` and false. */
    method NextTimestamp(now: Int64) returns (t: int, allPassed: bool)
      requires Valid()
      modifies timestampPool`idx
      ensures Valid()
      ensures Contents() == old(Contents())
      ensures old(timestampPool.storage) == [] ==> t == now && !allPassed && timestampPool.idx == old(timestampPool.idx)
      ensures old(timestampPool.storage) != [] ==>
        && timestampPool.idx == RoundRobin.Advance(old(timestampPool.idx), |timestampPool.storage|)
        && t == timestampPool.storage[timestampPool.idx]
        && (allPassed <==> timestampPool.idx == |timestampPool.storage| - 1)
    {
      if timestampPool.Size() == 0 {
        return now, false;
      }
      var item := timestampPool.Next();
      t := item.value;
      allPassed := timestampPool.AllPassed();
    }

    /** The timestamp under the cursor, or `now` on an empty pool. */
    function CurrentTimestamp(now: Int64): (t: int)
      requires Valid()
      reads this, Repr()
      ensures timestampPool.storage == [] ==> t == now
      ensures timestampPool.storage != [] ==> t == timestampPool.storage[timestampPool.idx]
      ensures timestampPool.storage != [] ==> exists k :: 0 <= k < |timestampPool.storage| && t == timestampPool.storage[k]
    {
      if timestampPool.Size() == 0 then now else timestampPool.GetCurrent().value
    }

    /** The pool sizes by kind; the bytes32 pool is not reported. */
    function GetSizes(): (m: map<string, int>)
      reads this, Repr()
      ensures m.Keys == {"int8", "int16", "int32", "int64", "string", "address", "bigInt", "timestamp"}
      ensures "bytes32" !in m
      ensures m["int8"] == |int8Pool.storage| && m["int16"] == |int16Pool.storage|
      ensures m["int32"] == |int32Pool.storage| && m["int64"] == |int64Pool.storage|
      ensures m["string"] == |stringPool.storage| && m["address"] == |addressPool.storage|
      ensures m["bigInt"] == |bigIntPool.storage| && m["timestamp"] == |timestampPool.storage|
    {
      map[
        "int8" := int8Pool.Size(),
        "int16" := int16Pool.Size(),
        "int32" := int32Pool.Size(),
        "int64" := int64Pool.Size(),
        "string" := stringPool.Size(),
        "address" := addressPool.Size(),
        "bigInt" := bigIntPool.Size(),
        "timestamp" := timestampPool.Size()
      ]
    }
  }

  /** The package state of the corpus: the `argPool` singleton (null after
      a reset) and the cache of untyped pools by id. */
  class Registry {
    var argPool: ArgPool?
    const cache: PoolCache

    ghost predicate Valid()
      reads this, cache, cache.pools.Values, argPool, if argPool == null then {} else argPool.Repr()
    {
      && CacheInvariant(cache)
      && (argPool != null ==>
            && argPool.Valid()
            && "Address" in cache.pools && "BigInt" in cache.pools
            && argPool.addressPool == cache.pools["Address"]
            && argPool.bigIntPool == cache.pools["BigInt"])
    }

    /** The state at start-up: no corpus and an empty cache. */
    constructor ()
      ensures Valid() && argPool == null && fresh(cache) && cache.pools == map[]
    {
      argPool := null;
      cache := new PoolCache();
    }

    /** The existing corpus, or a new one whose typed pools are fresh and
        empty but whose address and BigInt pools are the cached ones, so
        they keep whatever they held before a reset. */
    method GetArgPool() returns (ap: ArgPool)
      requires Valid()
      modifies this, cache
      ensures Valid() && argPool == ap
      ensures old(argPool) != null ==> ap == old(argPool) && cache.pools == old(cache.pools)
      ensures old(argPool) == null ==> fresh(ap) && ap.int8Pool.storage == [] && ap.int16Pool.storage == []
      ensures old(argPool) == null ==> ap.int32Pool.storage == [] && ap.int64Pool.storage == []
      ensures old(argPool) == null ==> ap.bytes32Pool.storage == [] && ap.stringPool.storage == []
      ensures old(argPool) == null ==> ap.timestampPool.storage == []
      ensures "Address" in old(cache.pools) ==> ap.addressPool == old(cache.pools["Address"])
      ensures "BigInt" in old(cache.pools) ==> ap.bigIntPool == old(cache.pools["BigInt"])
      ensures "Address" in old(cache.pools) ==> ap.addressPool.storage == old(cache.pools["Address"].storage)
      ensures "BigInt" in old(cache.pools) ==> ap.bigIntPool.storage == old(cache.pools["BigInt"].storage)
    {
      if argPool == null {
        var a := cache.GetPool("Address");
        var b := cache.GetPool("BigInt");
        ap := new ArgPool(a, b);
        argPool := ap;
      } else {
        ap := argPool;
      }
    }

    /** Drops the singleton; the cache and its pools stay. */
    method ResetArgPool()
      requires Valid()
      modifies this
      ensures Valid() && argPool == null
    {
      argPool := null;
    }
  }
}
