/** The untyped value pool of the corpus (one instance holds addresses, one
    holds arbitrary-precision integers) and the package-level cache that
    hands out one pool per id. Membership is decided on the `%v` text of a
    value, so the map of seen keys holds strings. */
module Pool {
  import opened Common
  import opened RoundRobin

  /** The dynamic values the untyped pool is used with. */
  datatype PoolValue = AddressValue(address: Address) | BigIntValue(n: int)

  /** `fmt.Sprintf("%v", v)`: a `*big.Int` prints in decimal; an address
      prints through its `String` method as "0x" and 40 hex digits. The
      mixed-case checksum of that text is not modelled: lower case, like
      the checksummed text, is a different text for every address. */
  function Render(v: PoolValue): string
  {
    match v
    case BigIntValue(n) => IntToDecimal(n)
    case AddressValue(a) => "0x" + HexEncode(AddressBytes(a))
  }

  function Renderings(s: seq<PoolValue>): set<string>
  {
    set x | x in s :: Render(x)
  }

  /** No two stored items share a rendering: what the corpus guards keep. */
  ghost predicate RenderDistinct(s: seq<PoolValue>)
  {
    forall i, j :: 0 <= i < j < |s| ==> Render(s[i]) != Render(s[j])
  }

  class Pool {
    /** Cursor of the next item `Next` returns. */
    var idx: nat
    /** The items in insertion order. */
    var storage: seq<PoolValue>
    /** The set of keys of `map[string]bool storageMap` (values are always true). */
    var storageMap: set<string>

    ghost predicate Valid()
      reads this
    {
      && (storage == [] ==> idx == 0)
      && (storage != [] ==> idx < |storage|)
      && storageMap == Renderings(storage)
    }

    /** The pool literal of `GetPool`: empty, cursor 0. */
    constructor ()
      ensures Valid()
      ensures idx == 0 && storage == [] && storageMap == {}
    {
      idx := 0;
      storage := [];
      storageMap := {};
    }

    /** Appends `item` and records its rendering; it does not look for
        duplicates. */
    method Add(item: PoolValue)
      requires Valid()
      modifies this`storage, this`storageMap
      ensures Valid()
      ensures storage == old(storage) + [item]
      ensures storageMap == old(storageMap) + {Render(item)}
      ensures idx == old(idx)
    {
      storage := storage + [item];
      storageMap := storageMap + {Render(item)};
    }

    /** Read-then-move: `None` (Go's nil) on an empty pool, otherwise the item
        under the cursor, after which the cursor wraps forward. */
    method Next() returns (item: Option<PoolValue>)
      requires Valid()
      modifies this`idx
      ensures Valid()
      ensures old(storage) == [] ==> item == None && idx == old(idx)
      ensures old(storage) != [] ==> item == Some(storage[old(idx)]) && idx == Advance(old(idx), |storage|)
      ensures old(storage) != [] ==> [item.value] == Lap(storage, old(idx), 1)
    {
      if |storage| == 0 {
        return None;
      }
      item := Some(storage[idx]);
      AdvanceIsModular(idx, |storage|);
      idx := (idx + 1) % |storage|;
    }

    /** True iff some stored item renders like `val`. */
    function Contains(val: PoolValue): (b: bool)
      requires Valid()
      reads this
      ensures b <==> exists i :: 0 <= i < |storage| && Render(storage[i]) == Render(val)
    {
      Render(val) in storageMap
    }

    function Size(): (n: nat)
      reads this
      ensures n == |storage|
    {
      |storage|
    }
  }

  /** The package variable `pools map[string]*pool` behind `GetPool`. */
  class PoolCache {
    var pools: map<string, Pool>

    constructor ()
      ensures pools == map[]
    {
      pools := map[];
    }

    /** The same instance for a known id; otherwise a new empty pool, which
        is remembered under that id. */
    method GetPool(id: string) returns (p: Pool)
      requires id in pools ==> pools[id].Valid()
      modifies this
      ensures id in old(pools) ==> p == old(pools)[id] && pools == old(pools)
      ensures id !in old(pools) ==> fresh(p) && pools == old(pools)[id := p]
      ensures id !in old(pools) ==> p.storage == [] && p.idx == 0 && p.storageMap == {}
      ensures p.Valid()
    {
      if id !in pools {
        p := new Pool();
        pools := pools[id := p];
      } else {
        p := pools[id];
      }
    }
  }
}
