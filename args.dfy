/** Building call arguments from the corpus and feeding return values back
    into it: a recursive fill over the ABI type tree that draws every leaf
    from its pool, a recursive harvest over a returned value tree that adds
    every leaf to its pool, and the initial seeding of the corpus. */
module Args {
  import opened Common
  import opened Abi
  import opened Pool
  import opened ArgPool

  // ---------------------------------------------------------------------
  // fillRecursively

  /** `fillRecursively` panics exactly when it reaches a type it has no
      case for, or an address or BigInt while that pool is empty. An array
      of length 0 reaches nothing; a slice always has an element. */
  predicate FillPanics(t: AbiType, s: Stores)
  {
    match t
    case AddressT => s.addresses == []
    case BigIntT => s.bigInts == []
    case ArrayT(e, n) => !IsBytes32(t) && n > 0 && FillPanics(e, s)
    case SliceT(e) => FillPanics(e, s)
    case OtherT(_) => true
    case _ => false
  }

  /** Every leaf of `v` was taken from the pool of its kind (through Go's
      unsigned conversion for the unsigned types), or is the pool's zero
      value when that pool is empty; a bool is always false. */
  ghost predicate Drawn(v: Value, s: Stores)
    decreases v, 1
  {
    match v
    case Int8V(x) => x in s.int8s || (s.int8s == [] && x == 0)
    case UInt8V(u) => (exists x :: x in s.int8s && u == ToByte(x)) || (s.int8s == [] && u == 0)
    case Int16V(x) => x in s.int16s || (s.int16s == [] && x == 0)
    case UInt16V(u) => (exists x :: x in s.int16s && u == ToUint16(x)) || (s.int16s == [] && u == 0)
    case Int32V(x) => x in s.int32s || (s.int32s == [] && x == 0)
    case UInt32V(u) => (exists x :: x in s.int32s && u == ToUint32(x)) || (s.int32s == [] && u == 0)
    case Int64V(x) => x in s.int64s || (s.int64s == [] && x == 0)
    case UInt64V(u) => (exists x :: x in s.int64s && u == ToUint64(x)) || (s.int64s == [] && u == 0)
    case Bytes32V(b) => b in s.bytes32s || (s.bytes32s == [] && b == ZeroBytes32)
    case AddressV(a) => AddressValue(a) in s.addresses
    case StringV(x) => x in s.strings || (s.strings == [] && x == "")
    case BoolV(b) => !b
    case BigIntV(n) => BigIntValue(n) in s.bigInts
    case ArrayV(es) => AllDrawn(es, s)
    case SliceV(es) => AllDrawn(es, s)
    case OtherV(_) => false
  }

  ghost predicate AllDrawn(vs: seq<Value>, s: Stores)
    decreases vs, 0
  {
    forall i :: 0 <= i < |vs| ==> Drawn(vs[i], s)
  }

  /** The cases of the `switch` of `fillRecursively` for 8- and 16-bit
      integers: the unsigned kinds take the signed pool value converted. */
  method FillSmallInt(t: AbiType, ap: ArgPool, ghost s: Stores) returns (r: Value)
    requires t == Int8T || t == UInt8T || t == Int16T || t == UInt16T
    requires ap.Valid() && ap.Contents() == s
    modifies ap.int8Pool`idx, ap.int16Pool`idx
    ensures ap.Valid() && ap.Contents() == s
    ensures Conforms(r, t) && Drawn(r, s)
  {
    if t == Int8T || t == UInt8T {
      var x := ap.NextInt8();
      r := if t == Int8T then Int8V(x) else UInt8V(ToByte(x));
    } else {
      var x := ap.NextInt16();
      r := if t == Int16T then Int16V(x) else UInt16V(ToUint16(x));
    }
  }

  /** The same for 32- and 64-bit integers. */
  method FillWideInt(t: AbiType, ap: ArgPool, ghost s: Stores) returns (r: Value)
    requires t == Int32T || t == UInt32T || t == Int64T || t == UInt64T
    requires ap.Valid() && ap.Contents() == s
    modifies ap.int32Pool`idx, ap.int64Pool`idx
    ensures ap.Valid() && ap.Contents() == s
    ensures Conforms(r, t) && Drawn(r, s)
  {
    if t == Int32T || t == UInt32T {
      var x := ap.NextInt32();
      r := if t == Int32T then Int32V(x) else UInt32V(ToUint32(x));
    } else {
      var x := ap.NextInt64();
      r := if t == Int64T then Int64V(x) else UInt64V(ToUint64(x));
    }
  }

  /** The cases for bytes32 and string, which cannot fail. */
  method FillPlain(t: AbiType, ap: ArgPool, ghost s: Stores) returns (r: Value)
    requires IsBytes32(t) || t == StringT
    requires ap.Valid() && ap.Contents() == s
    modifies ap.bytes32Pool`idx, ap.stringPool`idx
    ensures ap.Valid() && ap.Contents() == s
    ensures Conforms(r, t) && Drawn(r, s)
  {
    if IsBytes32(t) {
      var b := ap.NextBytes32();
      r := Bytes32V(b);
    } else {
      var x := ap.NextString();
      r := StringV(x);
    }
  }

  /** The cases for addresses and BigInts, which panic on an empty pool. */
  method FillUntyped(t: AbiType, ap: ArgPool, ghost s: Stores) returns (r: Result<Value>)
    requires t == AddressT || t == BigIntT
    requires ap.Valid() && ap.Contents() == s
    modifies ap.addressPool`idx, ap.bigIntPool`idx
    ensures ap.Valid() && ap.Contents() == s
    ensures r.Panic? <==> FillPanics(t, s)
    ensures r.Ok? ==> Conforms(r.value, t) && Drawn(r.value, s)
  {
    if t == AddressT {
      var a := ap.NextAddress();
      r := if a.Ok? then Ok(AddressV(a.value)) else Panic(a.reason);
    } else {
      var n := ap.NextBigInt();
      r := if n.Ok? then Ok(BigIntV(n.value)) else Panic(n.reason);
    }
  }

  /** The integer types, signed and unsigned. */
  predicate IsIntType(t: AbiType)
  {
    t.Int8T? || t.UInt8T? || t.Int16T? || t.UInt16T? || t.Int32T? || t.UInt32T? || t.Int64T? || t.UInt64T?
  }

  /** The integer cases of `fillRecursively`. */
  method FillInt(t: AbiType, ap: ArgPool, ghost s: Stores) returns (r: Value)
    requires IsIntType(t)
    requires ap.Valid() && ap.Contents() == s
    modifies ap.int8Pool`idx, ap.int16Pool`idx, ap.int32Pool`idx, ap.int64Pool`idx
    ensures ap.Valid() && ap.Contents() == s
    ensures Conforms(r, t) && Drawn(r, s)
  {
    if t == Int8T || t == UInt8T || t == Int16T || t == UInt16T {
      r := FillSmallInt(t, ap, s);
    } else {
      r := FillWideInt(t, ap, s);
    }
  }

  /** The leaf cases of `fillRecursively` other than the integers. */
  method FillOther(t: AbiType, ap: ArgPool, ghost s: Stores) returns (r: Result<Value>)
    requires IsBytes32(t) || t == StringT || t == BoolT || t == AddressT || t == BigIntT
    requires ap.Valid() && ap.Contents() == s
    modifies ap.bytes32Pool`idx, ap.addressPool`idx, ap.bigIntPool`idx, ap.stringPool`idx
    ensures ap.Valid() && ap.Contents() == s
    ensures r.Panic? <==> FillPanics(t, s)
    ensures r.Ok? ==> Conforms(r.value, t) && Drawn(r.value, s)
  {
    if t == AddressT || t == BigIntT {
      r := FillUntyped(t, ap, s);
    } else if t == BoolT {
      r := Ok(BoolV(false));
    } else {
      var v := FillPlain(t, ap, s);
      r := Ok(v);
    }
  }

  /** `fillRecursively`: a value of type `t` whose leaves are drawn from
      the pools. Only the pool cursors move; a slice gets between 1 and 16
      elements, chosen at random. */
  method Fill(t: AbiType, ap: ArgPool, ghost s: Stores) returns (r: Result<Value>)
    requires ap.Valid() && ap.Contents() == s
    modifies ap.int8Pool`idx, ap.int16Pool`idx, ap.int32Pool`idx, ap.int64Pool`idx, ap.bytes32Pool`idx, ap.addressPool`idx, ap.bigIntPool`idx, ap.stringPool`idx
    ensures ap.Valid() && ap.Contents() == s
    ensures r.Panic? <==> FillPanics(t, s)
    ensures r.Ok? ==> Conforms(r.value, t) && Drawn(r.value, s)
    ensures r.Ok? && t.SliceT? ==> 1 <= |r.value.elems| <= 16
    decreases t, 1
  {
    if IsIntType(t) {
      var v := FillInt(t, ap, s);
      assert !FillPanics(t, s);
      r := Ok(v);
    } else if IsBytes32(t) || t == StringT || t == BoolT || t == AddressT || t == BigIntT {
      r := FillOther(t, ap, s);
    } else if t.OtherT? {
      assert FillPanics(t, s);
      r := Panic("type: " + t.name + " was not recognized");
    } else {
      r := FillComposite(t, ap, s);
    }
  }

  /** The array and slice cases of `fillRecursively`. */
  method FillComposite(t: AbiType, ap: ArgPool, ghost s: Stores) returns (r: Result<Value>)
    requires (t.ArrayT? || t.SliceT?) && !IsBytes32(t)
    requires ap.Valid() && ap.Contents() == s
    modifies ap.int8Pool`idx, ap.int16Pool`idx, ap.int32Pool`idx, ap.int64Pool`idx, ap.bytes32Pool`idx, ap.addressPool`idx, ap.bigIntPool`idx, ap.stringPool`idx
    ensures ap.Valid() && ap.Contents() == s
    ensures r.Panic? <==> FillPanics(t, s)
    ensures r.Ok? ==> Conforms(r.value, t) && Drawn(r.value, s)
    ensures r.Ok? && t.SliceT? ==> 1 <= |r.value.elems| <= 16
    decreases t, 0
  {
    if t.ArrayT? {
      assert FillPanics(t, s) == (t.len > 0 && FillPanics(t.elem, s));
      var es := FillElems(t.elem, t.len, ap, s);
      r := if es.Ok? then Ok(ArrayV(es.value)) else Panic(es.reason);
    } else {
      var n :| 1 <= n <= 16;
      assert FillPanics(t, s) == FillPanics(t.elem, s);
      var es := FillElems(t.elem, n, ap, s);
      r := if es.Ok? then Ok(SliceV(es.value)) else Panic(es.reason);
    }
  }

  /** The element loops of `fillRecursively`. */
  method FillElems(e: AbiType, n: nat, ap: ArgPool, ghost s: Stores) returns (r: Result<seq<Value>>)
    requires ap.Valid() && ap.Contents() == s
    modifies ap.int8Pool`idx, ap.int16Pool`idx, ap.int32Pool`idx, ap.int64Pool`idx, ap.bytes32Pool`idx, ap.addressPool`idx, ap.bigIntPool`idx, ap.stringPool`idx
    ensures ap.Valid()
    ensures ap.Contents() == s
    ensures r.Panic? <==> n > 0 && FillPanics(e, s)
    ensures r.Ok? ==> |r.value| == n
    ensures r.Ok? ==> AllConform(r.value, e) && AllDrawn(r.value, s)
    decreases e, 2
  {
    var elems: seq<Value> := [];
    while |elems| < n
      invariant |elems| <= n
      invariant ap.Valid() && ap.Contents() == s
      invariant forall k :: 0 <= k < |elems| ==> Conforms(elems[k], e) && Drawn(elems[k], s)
      invariant |elems| > 0 ==> !FillPanics(e, s)
      decreases n - |elems|
    {
      var x := Fill(e, ap, s);
      if x.Panic? {
        return Panic(x.reason);
      }
      elems := elems + [x.value];
    }
    r := Ok(elems);
  }

  /** `ConstructArgs`: one value per argument, in order. */
  method ConstructArgs(args: seq<AbiType>, ap: ArgPool) returns (r: Result<seq<Value>>)
    requires ap.Valid()
    modifies ap.int8Pool`idx, ap.int16Pool`idx, ap.int32Pool`idx, ap.int64Pool`idx, ap.bytes32Pool`idx, ap.addressPool`idx, ap.bigIntPool`idx, ap.stringPool`idx
    ensures ap.Valid()
    ensures ap.Contents() == old(ap.Contents())
    ensures r.Panic? <==> exists i :: 0 <= i < |args| && FillPanics(args[i], old(ap.Contents()))
    ensures r.Ok? ==> |r.value| == |args|
    ensures r.Ok? ==> forall i :: 0 <= i < |args| ==> Conforms(r.value[i], args[i]) && Drawn(r.value[i], old(ap.Contents()))
  {
    ghost var s := ap.Contents();
    var out: seq<Value> := [];
    for i := 0 to |args|
      invariant |out| == i
      invariant ap.Valid() && ap.Contents() == s
      invariant forall k :: 0 <= k < i ==> !FillPanics(args[k], s)
      invariant forall k :: 0 <= k < i ==> Conforms(out[k], args[k]) && Drawn(out[k], s)
    {
      var v := Fill(args[i], ap, s);
      if v.Panic? {
        return Panic(v.reason);
      }
      out := out + [v.value];
    }
    r := Ok(out);
  }

  // ---------------------------------------------------------------------
  // updateRecursively

  /** Some stored item renders like `x`: the untyped pools' membership. */
  ghost predicate HasRendering(s: seq<PoolValue>, x: PoolValue)
  {
    exists i :: 0 <= i < |s| && Render(s[i]) == Render(x)
  }

  /** The pools after `updateRecursively(v)`: int8, uint8 and bool leaves
      (and types without a case) are skipped, unsigned leaves are added
      through Go's signed conversion, and arrays and slices are walked
      element by element. */
  function Harvest(s: Stores, v: Value): Stores
    decreases v, 1
  {
    match v
    case Int16V(x) => s.(int16s := GuardedAdd(s.int16s, x))
    case UInt16V(u) => s.(int16s := GuardedAdd(s.int16s, ToInt16(u)))
    case Int32V(x) => s.(int32s := GuardedAdd(s.int32s, x))
    case UInt32V(u) => s.(int32s := GuardedAdd(s.int32s, ToInt32(u)))
    case Int64V(x) => s.(int64s := GuardedAdd(s.int64s, x))
    case UInt64V(u) => s.(int64s := GuardedAdd(s.int64s, ToInt64(u)))
    case BigIntV(n) => s.(bigInts := GuardedAddRendered(s.bigInts, BigIntValue(n)))
    case AddressV(a) => s.(addresses := GuardedAddRendered(s.addresses, AddressValue(a)))
    case StringV(x) => s.(strings := GuardedAdd(s.strings, x))
    case Bytes32V(b) => s.(bytes32s := GuardedAdd(s.bytes32s, b))
    case ArrayV(es) => HarvestAll(s, es)
    case SliceV(es) => HarvestAll(s, es)
    case _ => s
  }

  function HarvestAll(s: Stores, es: seq<Value>): Stores
    decreases es, 0
  {
    if es == [] then s else HarvestAll(Harvest(s, es[0]), es[1..])
  }

  /** The pools of `b` hold everything `a` holds, in the same order, and
      the pools a harvest never touches are equal. */
  ghost predicate Extends(a: Stores, b: Stores)
  {
    && a.int8s == b.int8s && a.timestamps == b.timestamps
    && IsPrefix(a.int16s, b.int16s) && IsPrefix(a.int32s, b.int32s) && IsPrefix(a.int64s, b.int64s)
    && IsPrefix(a.bytes32s, b.bytes32s) && IsPrefix(a.addresses, b.addresses)
    && IsPrefix(a.bigInts, b.bigInts) && IsPrefix(a.strings, b.strings)
  }

  lemma PrefixTransitive<T>(a: seq<T>, b: seq<T>, c: seq<T>)
    requires IsPrefix(a, b) && IsPrefix(b, c)
    ensures IsPrefix(a, c)
  {
    assert c[..|a|] == c[..|b|][..|a|];
  }

  lemma ExtendsTransitive(a: Stores, b: Stores, c: Stores)
    requires Extends(a, b) && Extends(b, c)
    ensures Extends(a, c)
  {
    PrefixTransitive(a.int16s, b.int16s, c.int16s);
    PrefixTransitive(a.int32s, b.int32s, c.int32s);
    PrefixTransitive(a.int64s, b.int64s, c.int64s);
    PrefixTransitive(a.bytes32s, b.bytes32s, c.bytes32s);
    PrefixTransitive(a.addresses, b.addresses, c.addresses);
    PrefixTransitive(a.bigInts, b.bigInts, c.bigInts);
    PrefixTransitive(a.strings, b.strings, c.strings);
  }

  /** A harvest only appends: nothing is removed or reordered, and the
      int8 and timestamp pools are left alone. */
  lemma {:induction false} HarvestExtends(s: Stores, v: Value)
    ensures Extends(s, Harvest(s, v))
    decreases v, 1
  {
    match v
    case ArrayV(es) => HarvestAllExtends(s, es);
    case SliceV(es) => HarvestAllExtends(s, es);
    case _ =>
  }

  lemma {:induction false} HarvestAllExtends(s: Stores, es: seq<Value>)
    ensures Extends(s, HarvestAll(s, es))
    decreases es, 0
  {
    if es != [] {
      HarvestExtends(s, es[0]);
      HarvestAllExtends(Harvest(s, es[0]), es[1..]);
      ExtendsTransitive(s, Harvest(s, es[0]), HarvestAll(Harvest(s, es[0]), es[1..]));
    }
  }

  /** The corpus invariant on pool contents: no duplicates in any pool. */
  ghost predicate PoolsDistinct(s: Stores)
  {
    && Distinct(s.int16s) && Distinct(s.int32s) && Distinct(s.int64s)
    && Distinct(s.bytes32s) && Distinct(s.strings)
    && RenderDistinct(s.addresses) && RenderDistinct(s.bigInts)
  }

  /** A harvest keeps every pool duplicate-free. */
  lemma {:induction false} HarvestKeepsDistinct(s: Stores, v: Value)
    requires PoolsDistinct(s)
    ensures PoolsDistinct(Harvest(s, v))
    decreases v, 1
  {
    match v
    case Int16V(x) =>
      GuardedAddKeepsDistinct(s.int16s, x);
      assert Harvest(s, v) == s.(int16s := GuardedAdd(s.int16s, x));
    case UInt16V(u) =>
      GuardedAddKeepsDistinct(s.int16s, ToInt16(u));
      assert Harvest(s, v) == s.(int16s := GuardedAdd(s.int16s, ToInt16(u)));
    case Int32V(x) =>
      GuardedAddKeepsDistinct(s.int32s, x);
      assert Harvest(s, v) == s.(int32s := GuardedAdd(s.int32s, x));
    case UInt32V(u) =>
      GuardedAddKeepsDistinct(s.int32s, ToInt32(u));
      assert Harvest(s, v) == s.(int32s := GuardedAdd(s.int32s, ToInt32(u)));
    case Int64V(x) =>
      GuardedAddKeepsDistinct(s.int64s, x);
      assert Harvest(s, v) == s.(int64s := GuardedAdd(s.int64s, x));
    case UInt64V(u) =>
      GuardedAddKeepsDistinct(s.int64s, ToInt64(u));
      assert Harvest(s, v) == s.(int64s := GuardedAdd(s.int64s, ToInt64(u)));
    case BigIntV(n) =>
      GuardedAddRenderedKeepsDistinct(s.bigInts, BigIntValue(n));
      assert Harvest(s, v) == s.(bigInts := GuardedAddRendered(s.bigInts, BigIntValue(n)));
    case AddressV(a) =>
      GuardedAddRenderedKeepsDistinct(s.addresses, AddressValue(a));
      assert Harvest(s, v) == s.(addresses := GuardedAddRendered(s.addresses, AddressValue(a)));
    case StringV(x) =>
      GuardedAddKeepsDistinct(s.strings, x);
      assert Harvest(s, v) == s.(strings := GuardedAdd(s.strings, x));
    case Bytes32V(b) =>
      GuardedAddKeepsDistinct(s.bytes32s, b);
      assert Harvest(s, v) == s.(bytes32s := GuardedAdd(s.bytes32s, b));
    case ArrayV(es) => HarvestAllKeepsDistinct(s, es);
    case SliceV(es) => HarvestAllKeepsDistinct(s, es);
    case _ =>
  }

  lemma {:induction false} HarvestAllKeepsDistinct(s: Stores, es: seq<Value>)
    requires PoolsDistinct(s)
    ensures PoolsDistinct(HarvestAll(s, es))
    decreases es, 0
  {
    if es != [] {
      HarvestKeepsDistinct(s, es[0]);
      HarvestAllKeepsDistinct(Harvest(s, es[0]), es[1..]);
    }
  }

  /** Every leaf a harvest would add is already in the pools. */
  ghost predicate Harvested(v: Value, s: Stores)
    decreases v
  {
    match v
    case Int16V(x) => x in s.int16s
    case UInt16V(u) => ToInt16(u) in s.int16s
    case Int32V(x) => x in s.int32s
    case UInt32V(u) => ToInt32(u) in s.int32s
    case Int64V(x) => x in s.int64s
    case UInt64V(u) => ToInt64(u) in s.int64s
    case BigIntV(n) => HasRendering(s.bigInts, BigIntValue(n))
    case AddressV(a) => HasRendering(s.addresses, AddressValue(a))
    case StringV(x) => x in s.strings
    case Bytes32V(b) => b in s.bytes32s
    case ArrayV(es) => forall i :: 0 <= i < |es| ==> Harvested(es[i], s)
    case SliceV(es) => forall i :: 0 <= i < |es| ==> Harvested(es[i], s)
    case _ => true
  }

  lemma PrefixHasRendering(a: seq<PoolValue>, b: seq<PoolValue>, x: PoolValue)
    requires IsPrefix(a, b) && HasRendering(a, x)
    ensures HasRendering(b, x)
  {
    var i :| 0 <= i < |a| && Render(a[i]) == Render(x);
    assert b[..|a|][i] == b[i];
  }

  lemma PrefixHas<T>(a: seq<T>, b: seq<T>, x: T)
    requires IsPrefix(a, b) && x in a
    ensures x in b
  {
    var i :| 0 <= i < |a| && a[i] == x;
    assert b[..|a|][i] == b[i];
  }

  /** Pools that only grew still hold every leaf they held. */
  lemma {:induction false} HarvestedMonotone(v: Value, a: Stores, b: Stores)
    requires Harvested(v, a) && Extends(a, b)
    ensures Harvested(v, b)
    decreases v
  {
    match v
    case Int16V(x) => PrefixHas(a.int16s, b.int16s, x);
    case UInt16V(u) => PrefixHas(a.int16s, b.int16s, ToInt16(u));
    case Int32V(x) => PrefixHas(a.int32s, b.int32s, x);
    case UInt32V(u) => PrefixHas(a.int32s, b.int32s, ToInt32(u));
    case Int64V(x) => PrefixHas(a.int64s, b.int64s, x);
    case UInt64V(u) => PrefixHas(a.int64s, b.int64s, ToInt64(u));
    case BigIntV(n) => PrefixHasRendering(a.bigInts, b.bigInts, BigIntValue(n));
    case AddressV(x) => PrefixHasRendering(a.addresses, b.addresses, AddressValue(x));
    case StringV(x) => PrefixHas(a.strings, b.strings, x);
    case Bytes32V(x) => PrefixHas(a.bytes32s, b.bytes32s, x);
    case ArrayV(es) =>
      forall i | 0 <= i < |es| ensures Harvested(es[i], b) {
        HarvestedMonotone(es[i], a, b);
      }
    case SliceV(es) =>
      forall i | 0 <= i < |es| ensures Harvested(es[i], b) {
        HarvestedMonotone(es[i], a, b);
      }
    case _ =>
  }

  /** After a harvest, every leaf of the value is in its pool. */
  lemma {:induction false} HarvestCollects(s: Stores, v: Value)
    ensures Harvested(v, Harvest(s, v))
    decreases v, 1
  {
    match v
    case BigIntV(n) => GuardedAddRenderedAppends(s.bigInts, BigIntValue(n));
    case AddressV(a) => GuardedAddRenderedAppends(s.addresses, AddressValue(a));
    case Int16V(x) => GuardedAddAppends(s.int16s, x);
    case UInt16V(u) => GuardedAddAppends(s.int16s, ToInt16(u));
    case Int32V(x) => GuardedAddAppends(s.int32s, x);
    case UInt32V(u) => GuardedAddAppends(s.int32s, ToInt32(u));
    case Int64V(x) => GuardedAddAppends(s.int64s, x);
    case UInt64V(u) => GuardedAddAppends(s.int64s, ToInt64(u));
    case StringV(x) => GuardedAddAppends(s.strings, x);
    case Bytes32V(b) => GuardedAddAppends(s.bytes32s, b);
    case ArrayV(es) => HarvestAllCollects(s, es);
    case SliceV(es) => HarvestAllCollects(s, es);
    case _ =>
  }

  lemma {:induction false} HarvestAllCollects(s: Stores, es: seq<Value>)
    ensures forall i :: 0 <= i < |es| ==> Harvested(es[i], HarvestAll(s, es))
    decreases es, 0
  {
    if es != [] {
      var s1 := Harvest(s, es[0]);
      HarvestCollects(s, es[0]);
      HarvestAllCollects(s1, es[1..]);
      HarvestAllExtends(s1, es[1..]);
      HarvestedMonotone(es[0], s1, HarvestAll(s1, es[1..]));
      forall i | 1 <= i < |es| ensures Harvested(es[i], HarvestAll(s, es)) {
        assert es[i] == es[1..][i - 1];
      }
    }
  }

  lemma GuardedAddAppends<T>(s: seq<T>, x: T)
    ensures x in GuardedAdd(s, x)
  {
    if x !in s {
      assert GuardedAdd(s, x)[|s|] == x;
    }
  }

  lemma GuardedAddRenderedAppends(s: seq<PoolValue>, x: PoolValue)
    ensures HasRendering(GuardedAddRendered(s, x), x)
  {
    if !HasRendering(s, x) {
      assert GuardedAddRendered(s, x)[|s|] == x;
    }
  }

  /** A value whose leaves are all present changes nothing. */
  lemma {:induction false} HarvestOfHarvested(s: Stores, v: Value)
    requires Harvested(v, s)
    ensures Harvest(s, v) == s
    decreases v, 1
  {
    match v
    case ArrayV(es) => HarvestAllOfHarvested(s, es);
    case SliceV(es) => HarvestAllOfHarvested(s, es);
    case _ =>
  }

  lemma {:induction false} HarvestAllOfHarvested(s: Stores, es: seq<Value>)
    requires forall i :: 0 <= i < |es| ==> Harvested(es[i], s)
    ensures HarvestAll(s, es) == s
    decreases es, 0
  {
    if es != [] {
      HarvestOfHarvested(s, es[0]);
      assert forall i :: 0 <= i < |es[1..]| ==> es[1..][i] == es[i + 1];
      HarvestAllOfHarvested(s, es[1..]);
    }
  }

  /** Feeding the same return value back twice is the same as once. */
  lemma HarvestIdempotent(s: Stores, v: Value)
    ensures Harvest(Harvest(s, v), v) == Harvest(s, v)
  {
    HarvestCollects(s, v);
    HarvestOfHarvested(Harvest(s, v), v);
  }

  /** `updateRecursively`. */
  method Update(v: Value, ap: ArgPool)
    requires ap.Valid()
    modifies ap.int16Pool`storage, ap.int16Pool`storageMap, ap.int32Pool`storage, ap.int32Pool`storageMap, ap.int64Pool`storage, ap.int64Pool`storageMap, ap.bytes32Pool`storage, ap.bytes32Pool`storageMap, ap.addressPool`storage, ap.addressPool`storageMap, ap.bigIntPool`storage, ap.bigIntPool`storageMap, ap.stringPool`storage, ap.stringPool`storageMap
    ensures ap.Valid()
    ensures ap.Contents() == Harvest(old(ap.Contents()), v)
    decreases v, 1
  {
    if v.ArrayV? || v.SliceV? {
      UpdateAll(v.elems, ap);
    } else if IsWideIntValue(v) {
      UpdateInt(v, ap);
    } else {
      UpdateLeaf(v, ap);
    }
  }

  /** The values `updateRecursively` adds to an integer pool. */
  predicate IsWideIntValue(v: Value)
  {
    v.Int16V? || v.UInt16V? || v.Int32V? || v.UInt32V? || v.Int64V? || v.UInt64V?
  }

  /** The integer cases of `updateRecursively`: an unsigned value goes to
      the pool of its width through Go's signed conversion. */
  method UpdateInt(v: Value, ap: ArgPool)
    requires IsWideIntValue(v)
    requires ap.Valid()
    modifies ap.int16Pool`storage, ap.int16Pool`storageMap, ap.int32Pool`storage, ap.int32Pool`storageMap, ap.int64Pool`storage, ap.int64Pool`storageMap
    ensures ap.Valid()
    ensures ap.Contents() == Harvest(old(ap.Contents()), v)
  {
    ghost var s := ap.Contents();
    if v.Int16V? || v.UInt16V? {
      var x := if v.Int16V? then v.i16 else ToInt16(v.u16);
      assert Harvest(s, v) == s.(int16s := GuardedAdd(s.int16s, x));
      ap.AddInt16(x);
    } else if v.Int32V? || v.UInt32V? {
      var x := if v.Int32V? then v.i32 else ToInt32(v.u32);
      assert Harvest(s, v) == s.(int32s := GuardedAdd(s.int32s, x));
      ap.AddInt32(x);
    } else {
      var x := if v.Int64V? then v.i64 else ToInt64(v.u64);
      assert Harvest(s, v) == s.(int64s := GuardedAdd(s.int64s, x));
      ap.AddInt64(x);
    }
  }

  /** The other leaf cases of `updateRecursively`; int8, uint8 and bool
      values, and values of types without a case, are skipped. */
  method UpdateLeaf(v: Value, ap: ArgPool)
    requires !v.ArrayV? && !v.SliceV? && !IsWideIntValue(v)
    requires ap.Valid()
    modifies ap.bytes32Pool`storage, ap.bytes32Pool`storageMap, ap.addressPool`storage, ap.addressPool`storageMap, ap.bigIntPool`storage, ap.bigIntPool`storageMap, ap.stringPool`storage, ap.stringPool`storageMap
    ensures ap.Valid()
    ensures ap.Contents() == Harvest(old(ap.Contents()), v)
  {
    ghost var s := ap.Contents();
    if v.BigIntV? {
      assert Harvest(s, v) == s.(bigInts := GuardedAddRendered(s.bigInts, BigIntValue(v.n)));
      ap.AddBigInt(v.n);
    } else if v.AddressV? {
      assert Harvest(s, v) == s.(addresses := GuardedAddRendered(s.addresses, AddressValue(v.addr)));
      ap.AddAddress(v.addr);
    } else if v.StringV? {
      assert Harvest(s, v) == s.(strings := GuardedAdd(s.strings, v.str));
      ap.AddString(v.str);
    } else if v.Bytes32V? {
      assert Harvest(s, v) == s.(bytes32s := GuardedAdd(s.bytes32s, v.b32));
      ap.AddBytes32(v.b32);
    } else {
      assert Harvest(s, v) == s;
    }
  }

  /** The element loop of `updateRecursively`, and the loop of `UpdatePool`. */
  method UpdateAll(es: seq<Value>, ap: ArgPool)
    requires ap.Valid()
    modifies ap.int16Pool`storage, ap.int16Pool`storageMap, ap.int32Pool`storage, ap.int32Pool`storageMap, ap.int64Pool`storage, ap.int64Pool`storageMap, ap.bytes32Pool`storage, ap.bytes32Pool`storageMap, ap.addressPool`storage, ap.addressPool`storageMap, ap.bigIntPool`storage, ap.bigIntPool`storageMap, ap.stringPool`storage, ap.stringPool`storageMap
    ensures ap.Valid()
    ensures ap.Contents() == HarvestAll(old(ap.Contents()), es)
    decreases es, 0
  {
    for i := 0 to |es|
      invariant ap.Valid()
      invariant HarvestAll(ap.Contents(), es[i..]) == HarvestAll(old(ap.Contents()), es)
    {
      assert es[i..][1..] == es[i + 1..];
      Update(es[i], ap);
    }
  }

  /** `UpdatePool`: `unpacked` is what unpacking the return data gave, or
      `None` when it failed, which is logged and adds nothing. */
  method UpdatePool(unpacked: Option<seq<Value>>, ap: ArgPool)
    requires ap.Valid()
    modifies ap.int16Pool`storage, ap.int16Pool`storageMap, ap.int32Pool`storage, ap.int32Pool`storageMap, ap.int64Pool`storage, ap.int64Pool`storageMap, ap.bytes32Pool`storage, ap.bytes32Pool`storageMap, ap.addressPool`storage, ap.addressPool`storageMap, ap.bigIntPool`storage, ap.bigIntPool`storageMap, ap.stringPool`storage, ap.stringPool`storageMap
    ensures ap.Valid()
    ensures unpacked.None? ==> ap.Contents() == old(ap.Contents())
    ensures unpacked.Some? ==> ap.Contents() == HarvestAll(old(ap.Contents()), unpacked.value)
  {
    var values := if unpacked.Some? then unpacked.value else [];
    UpdateAll(values, ap);
  }

  // ---------------------------------------------------------------------
  // InitArgPool

  /** The bound of the powers-of-two loop, `1E18`. */
  const PowerBound: int := 1_000_000_000_000_000_000

  /** Every pool of `b` holds what the same pool of `a` holds, in the same
      order, and the timestamps are untouched. */
  ghost predicate Grows(a: Stores, b: Stores)
  {
    && IsPrefix(a.int8s, b.int8s) && IsPrefix(a.int16s, b.int16s)
    && IsPrefix(a.int32s, b.int32s) && IsPrefix(a.int64s, b.int64s)
    && IsPrefix(a.bytes32s, b.bytes32s) && IsPrefix(a.addresses, b.addresses)
    && IsPrefix(a.bigInts, b.bigInts) && IsPrefix(a.strings, b.strings)
    && a.timestamps == b.timestamps
  }

  lemma GrowsTransitive(a: Stores, b: Stores, c: Stores)
    requires Grows(a, b) && Grows(b, c)
    ensures Grows(a, c)
  {
    PrefixTransitive(a.int8s, b.int8s, c.int8s);
    PrefixTransitive(a.int16s, b.int16s, c.int16s);
    PrefixTransitive(a.int32s, b.int32s, c.int32s);
    PrefixTransitive(a.int64s, b.int64s, c.int64s);
    PrefixTransitive(a.bytes32s, b.bytes32s, c.bytes32s);
    PrefixTransitive(a.addresses, b.addresses, c.addresses);
    PrefixTransitive(a.bigInts, b.bigInts, c.bigInts);
    PrefixTransitive(a.strings, b.strings, c.strings);
  }

  /** A guarded add only appends. */
  lemma GuardedAddGrows<T>(s: seq<T>, x: T)
    ensures IsPrefix(s, GuardedAdd(s, x))
  {
    assert (s + [x])[..|s|] == s;
  }

  lemma GuardedAddRenderedGrows(s: seq<PoolValue>, x: PoolValue)
    ensures IsPrefix(s, GuardedAddRendered(s, x))
  {
    assert (s + [x])[..|s|] == s;
  }

  /** One round of the powers-of-two loop: `i` goes to the int32 pool and
      the int16 pool when it fits their range, and always to the BigInt
      and the int64 pool. */
  function PowerSeeded(s: Stores, i: Int64): Stores
    requires i >= 0
  {
    var s1 := if i <= 0x7fff_ffff then s.(int32s := GuardedAdd(s.int32s, i)) else s;
    var s2 := if i <= 0x7fff then s1.(int16s := GuardedAdd(s1.int16s, i)) else s1;
    s2.(bigInts := GuardedAddRendered(s2.bigInts, BigIntValue(i)), int64s := GuardedAdd(s2.int64s, i))
  }

  /** The powers-of-two loop from `i` on: `i` doubles while it is below
      `1E18`, so the rounds add 2^0 ... 2^59. */
  function PowersSeeded(s: Stores, i: Int64): Stores
    requires i >= 1
    decreases PowerBound - i
  {
    if i >= PowerBound then s else PowersSeeded(PowerSeeded(s, i), i * 2)
  }

  /** One round of the byte loop: Go's `int8(i)`, `int16(i)`, `int32(i)`
      and `int64(i)`. */
  function SmallIntSeeded(s: Stores, i: int): Stores
    requires 0 <= i < 0x100
  {
    s.(int8s := GuardedAdd(s.int8s, ToInt8(i)), int16s := GuardedAdd(s.int16s, i),
       int32s := GuardedAdd(s.int32s, i), int64s := GuardedAdd(s.int64s, i))
  }

  /** The byte loop from `i` to 255. */
  function SmallIntsSeeded(s: Stores, i: int): Stores
    requires 0 <= i <= 0x100
    decreases 0x100 - i
  {
    if i == 0x100 then s else SmallIntsSeeded(SmallIntSeeded(s, i), i + 1)
  }

  /** The random 32-byte arrays, in order. */
  function BytesSeeded(s: Stores, words: seq<Bytes32>): Stores
    decreases |words|
  {
    if words == [] then s
    else BytesSeeded(s.(bytes32s := GuardedAdd(s.bytes32s, words[0])), words[1..])
  }

  /** The accounts, in order: each address, and each balance as a BigInt. */
  function AccountsSeeded(s: Stores, accounts: seq<Account>): Stores
    decreases |accounts|
  {
    if accounts == [] then s
    else AccountsSeeded(
      s.(addresses := GuardedAddRendered(s.addresses, AddressValue(accounts[0].address)),
         bigInts := GuardedAddRendered(s.bigInts, BigIntValue(accounts[0].amount))),
      accounts[1..])
  }

  /** The first two adds of `InitArgPool`: BigInt 0 and int64 -1. */
  function FirstSeeded(s: Stores): Stores
  {
    s.(bigInts := GuardedAddRendered(s.bigInts, BigIntValue(0)), int64s := GuardedAdd(s.int64s, -1))
  }

  /** The dummy string. */
  function StringSeeded(s: Stores): Stores
  {
    s.(strings := GuardedAdd(s.strings, "ChainSecurity"))
  }

  /** The pools after `InitArgPool`, given the ten random arrays it draws
      and the accounts of the metadata, stage by stage. */
  function Seeded(s: Stores, words: seq<Bytes32>, accounts: seq<Account>): Stores
  {
    AccountsSeeded(SmallIntsSeeded(StringSeeded(BytesSeeded(PowersSeeded(FirstSeeded(s), 1), words)), 0), accounts)
  }

  lemma PowerSeededGrows(s: Stores, i: Int64)
    requires i >= 0
    ensures Grows(s, PowerSeeded(s, i))
  {
    GuardedAddGrows(s.int32s, if i <= 0x7fff_ffff then i else 0);
    GuardedAddGrows(s.int16s, if i <= 0x7fff then i else 0);
    GuardedAddRenderedGrows(s.bigInts, BigIntValue(i));
    GuardedAddGrows(s.int64s, i);
  }

  lemma {:induction false} PowersSeededGrows(s: Stores, i: Int64)
    requires i >= 1
    ensures Grows(s, PowersSeeded(s, i))
    decreases PowerBound - i
  {
    if i < PowerBound {
      PowerSeededGrows(s, i);
      PowersSeededGrows(PowerSeeded(s, i), i * 2);
      GrowsTransitive(s, PowerSeeded(s, i), PowersSeeded(s, i));
    }
  }

  lemma {:induction false} SmallIntsSeededGrows(s: Stores, i: int)
    requires 0 <= i <= 0x100
    ensures Grows(s, SmallIntsSeeded(s, i))
    decreases 0x100 - i
  {
    if i < 0x100 {
      var s1 := SmallIntSeeded(s, i);
      GuardedAddGrows(s.int8s, ToInt8(i));
      GuardedAddGrows(s.int16s, i);
      GuardedAddGrows(s.int32s, i);
      GuardedAddGrows(s.int64s, i);
      SmallIntsSeededGrows(s1, i + 1);
      GrowsTransitive(s, s1, SmallIntsSeeded(s, i));
    }
  }

  lemma {:induction false} BytesSeededGrows(s: Stores, words: seq<Bytes32>)
    ensures Grows(s, BytesSeeded(s, words))
    decreases |words|
  {
    if words != [] {
      var s1 := s.(bytes32s := GuardedAdd(s.bytes32s, words[0]));
      GuardedAddGrows(s.bytes32s, words[0]);
      BytesSeededGrows(s1, words[1..]);
      GrowsTransitive(s, s1, BytesSeeded(s, words));
    }
  }

  lemma {:induction false} AccountsSeededGrows(s: Stores, accounts: seq<Account>)
    ensures Grows(s, AccountsSeeded(s, accounts))
    decreases |accounts|
  {
    if accounts != [] {
      var s1 := s.(addresses := GuardedAddRendered(s.addresses, AddressValue(accounts[0].address)),
                   bigInts := GuardedAddRendered(s.bigInts, BigIntValue(accounts[0].amount)));
      GuardedAddRenderedGrows(s.addresses, AddressValue(accounts[0].address));
      GuardedAddRenderedGrows(s.bigInts, BigIntValue(accounts[0].amount));
      AccountsSeededGrows(s1, accounts[1..]);
      GrowsTransitive(s, s1, AccountsSeeded(s, accounts));
    }
  }

  lemma FirstSeededGrows(s: Stores)
    ensures Grows(s, FirstSeeded(s))
  {
    GuardedAddRenderedGrows(s.bigInts, BigIntValue(0));
    GuardedAddGrows(s.int64s, -1);
  }

  lemma StringSeededGrows(s: Stores)
    ensures Grows(s, StringSeeded(s))
  {
    GuardedAddGrows(s.strings, "ChainSecurity");
  }

  /** Seeding only adds: every pool keeps what it held, in order, and the
      timestamp pool is not touched. */
  lemma SeededGrows(s: Stores, words: seq<Bytes32>, accounts: seq<Account>)
    ensures Grows(s, Seeded(s, words, accounts))
  {
    var s1 := FirstSeeded(s);
    FirstSeededGrows(s);
    var s2 := PowersSeeded(s1, 1);
    PowersSeededGrows(s1, 1);
    GrowsTransitive(s, s1, s2);
    var s3 := BytesSeeded(s2, words);
    BytesSeededGrows(s2, words);
    GrowsTransitive(s, s2, s3);
    var s4 := StringSeeded(s3);
    StringSeededGrows(s3);
    GrowsTransitive(s, s3, s4);
    var s5 := SmallIntsSeeded(s4, 0);
    SmallIntsSeededGrows(s4, 0);
    GrowsTransitive(s, s4, s5);
    AccountsSeededGrows(s5, accounts);
    GrowsTransitive(s, s5, Seeded(s, words, accounts));
  }

  /** Every stage of `InitArgPool` only adds to what the stages before it
      left. */
  lemma SeededStagesGrow(s: Stores, words: seq<Bytes32>, accounts: seq<Account>)
    ensures var s1 := FirstSeeded(s);
            var s2 := PowersSeeded(s1, 1);
            var s3 := BytesSeeded(s2, words);
            var s4 := StringSeeded(s3);
            var s5 := SmallIntsSeeded(s4, 0);
            var r := Seeded(s, words, accounts);
            Grows(s1, r) && Grows(s2, r) && Grows(s3, r) && Grows(s4, r) && Grows(s5, r)
  {
    var s1 := FirstSeeded(s);
    var s2 := PowersSeeded(s1, 1);
    var s3 := BytesSeeded(s2, words);
    var s4 := StringSeeded(s3);
    var s5 := SmallIntsSeeded(s4, 0);
    var r := Seeded(s, words, accounts);
    AccountsSeededGrows(s5, accounts);
    SmallIntsSeededGrows(s4, 0);
    GrowsTransitive(s4, s5, r);
    StringSeededGrows(s3);
    GrowsTransitive(s3, s4, r);
    BytesSeededGrows(s2, words);
    GrowsTransitive(s2, s3, r);
    PowersSeededGrows(s1, 1);
    GrowsTransitive(s1, s2, r);
  }

  /** `x` is where the powers-of-two loop puts it: in the int64 and the
      BigInt pool, and in the int32 and the int16 pool when it fits. */
  ghost predicate HoldsPower(r: Stores, x: int)
  {
    && x in r.int64s && HasRendering(r.bigInts, BigIntValue(x))
    && (x <= 0x7fff_ffff ==> x in r.int32s)
    && (x <= 0x7fff ==> x in r.int16s)
  }

  /** The powers of two the loop reaches from `Pow2(j)` on are all added:
      to the int64 and the BigInt pool, and to the int32 and the int16 pool
      when they fit. */
  lemma {:induction false} PowersSeededHolds(s: Stores, j: nat, k: nat)
    requires j <= k && Pow2(j) <= Pow2(k) < PowerBound
    ensures HoldsPower(PowersSeeded(s, Pow2(j)), Pow2(k))
    decreases k - j
  {
    var i := Pow2(j);
    var s1 := PowerSeeded(s, i);
    assert PowersSeeded(s, i) == PowersSeeded(s1, i * 2);
    if j == k {
      var t1 := if i <= 0x7fff_ffff then s.(int32s := GuardedAdd(s.int32s, i)) else s;
      var t2 := if i <= 0x7fff then t1.(int16s := GuardedAdd(t1.int16s, i)) else t1;
      GuardedAddAppends(t2.int64s, i);
      GuardedAddRenderedAppends(t2.bigInts, BigIntValue(i));
      if i <= 0x7fff_ffff {
        GuardedAddAppends(s.int32s, i);
      }
      if i <= 0x7fff {
        GuardedAddAppends(t1.int16s, i);
      }
      var r := PowersSeeded(s1, i * 2);
      PowersSeededGrows(s1, i * 2);
      PrefixHas(s1.int64s, r.int64s, i);
      PrefixHasRendering(s1.bigInts, r.bigInts, BigIntValue(i));
      if i <= 0x7fff_ffff {
        PrefixHas(s1.int32s, r.int32s, i);
      }
      if i <= 0x7fff {
        PrefixHas(s1.int16s, r.int16s, i);
      }
    } else {
      Pow2Monotone(j + 1, k);
      PowersSeededHolds(s1, j + 1, k);
    }
  }

  lemma {:induction false} Pow2Monotone(j: nat, k: nat)
    requires j <= k
    ensures Pow2(j) <= Pow2(k)
    decreases k - j
  {
    if j < k {
      Pow2Monotone(j + 1, k);
    }
  }

  /** The loop runs for 2^0 ... 2^59 and stops at 2^60. */
  lemma PowerRange()
    ensures Pow2(59) < PowerBound <= Pow2(60)
  {
    assert Pow2(10) == 1024;
    assert Pow2(20) == 1024 * Pow2(10) by { Pow2Add(10, 10); }
    assert Pow2(40) == Pow2(20) * Pow2(20) by { Pow2Add(20, 20); }
    assert Pow2(59) == Pow2(40) * Pow2(19) by { Pow2Add(40, 19); }
    assert Pow2(60) == Pow2(40) * Pow2(20) by { Pow2Add(40, 20); }
  }

  lemma {:induction false} Pow2Add(a: nat, b: nat)
    ensures Pow2(a + b) == Pow2(a) * Pow2(b)
    decreases b
  {
    if b > 0 {
      Pow2Add(a, b - 1);
      assert Pow2(a + b) == 2 * Pow2(a + b - 1);
    }
  }

  /** The byte loop from `i` on adds every `x` in `i..255`, as Go's
      `int8(x)` to the int8 pool and unchanged to the int16, int32 and
      int64 pools. */
  lemma {:induction false} SmallIntsSeededHolds(s: Stores, i: int, x: int)
    requires 0 <= i <= x < 0x100
    ensures var r := SmallIntsSeeded(s, i);
            ToInt8(x) in r.int8s && x in r.int16s && x in r.int32s && x in r.int64s
    decreases x - i
  {
    var s1 := SmallIntSeeded(s, i);
    assert SmallIntsSeeded(s, i) == SmallIntsSeeded(s1, i + 1);
    if i == x {
      GuardedAddAppends(s.int8s, ToInt8(x));
      GuardedAddAppends(s.int16s, x);
      GuardedAddAppends(s.int32s, x);
      GuardedAddAppends(s.int64s, x);
      var r := SmallIntsSeeded(s1, i + 1);
      SmallIntsSeededGrows(s1, i + 1);
      PrefixHas(s1.int8s, r.int8s, ToInt8(x));
      PrefixHas(s1.int16s, r.int16s, x);
      PrefixHas(s1.int32s, r.int32s, x);
      PrefixHas(s1.int64s, r.int64s, x);
    } else {
      SmallIntsSeededHolds(s1, i + 1, x);
    }
  }

  /** Every random array is added. */
  lemma {:induction false} BytesSeededHolds(s: Stores, words: seq<Bytes32>, w: Bytes32)
    requires w in words
    ensures w in BytesSeeded(s, words).bytes32s
    decreases |words|
  {
    var s1 := s.(bytes32s := GuardedAdd(s.bytes32s, words[0]));
    if w == words[0] {
      GuardedAddAppends(s.bytes32s, w);
      BytesSeededGrows(s1, words[1..]);
      PrefixHas(s1.bytes32s, BytesSeeded(s1, words[1..]).bytes32s, w);
    } else {
      BytesSeededHolds(s1, words[1..], w);
    }
  }

  /** Every account's address and balance are added. */
  lemma {:induction false} AccountsSeededHolds(s: Stores, accounts: seq<Account>, a: Account)
    requires a in accounts
    ensures var r := AccountsSeeded(s, accounts);
            HasRendering(r.addresses, AddressValue(a.address)) && HasRendering(r.bigInts, BigIntValue(a.amount))
    decreases |accounts|
  {
    var s1 := s.(addresses := GuardedAddRendered(s.addresses, AddressValue(accounts[0].address)),
                 bigInts := GuardedAddRendered(s.bigInts, BigIntValue(accounts[0].amount)));
    if a == accounts[0] {
      GuardedAddRenderedAppends(s.addresses, AddressValue(a.address));
      GuardedAddRenderedAppends(s.bigInts, BigIntValue(a.amount));
      var r := AccountsSeeded(s1, accounts[1..]);
      AccountsSeededGrows(s1, accounts[1..]);
      PrefixHasRendering(s1.addresses, r.addresses, AddressValue(a.address));
      PrefixHasRendering(s1.bigInts, r.bigInts, BigIntValue(a.amount));
    } else {
      AccountsSeededHolds(s1, accounts[1..], a);
    }
  }

  /** Go's `int8(i)` for `i` in 0..255 reaches every int8 value. */
  lemma ToInt8Onto(y: Int8)
    ensures 0 <= y % 0x100 < 0x100 && ToInt8(y % 0x100) == y
  {
  }

  /** After `InitArgPool` the BigInt pool holds 0, the int64 pool -1 and
      the string pool "ChainSecurity", whatever the pools held before. */
  lemma SeededHoldsConstants(s: Stores, words: seq<Bytes32>, accounts: seq<Account>)
    ensures var r := Seeded(s, words, accounts);
            HasRendering(r.bigInts, BigIntValue(0)) && -1 in r.int64s && "ChainSecurity" in r.strings
  {
    var s1 := FirstSeeded(s);
    var s4 := StringSeeded(BytesSeeded(PowersSeeded(s1, 1), words));
    var r := Seeded(s, words, accounts);
    SeededStagesGrow(s, words, accounts);
    GuardedAddRenderedAppends(s.bigInts, BigIntValue(0));
    GuardedAddAppends(s.int64s, -1);
    GuardedAddAppends(BytesSeeded(PowersSeeded(s1, 1), words).strings, "ChainSecurity");
    PrefixHasRendering(s1.bigInts, r.bigInts, BigIntValue(0));
    PrefixHas(s1.int64s, r.int64s, -1);
    PrefixHas(s4.strings, r.strings, "ChainSecurity");
  }

  /** After `InitArgPool` every power of two below `1E18` (2^0 ... 2^59) is
      in the int64 and the BigInt pool; those up to `MaxInt32` (2^0 ...
      2^30) are in the int32 pool and those up to `MaxInt16` (2^0 ... 2^14)
      in the int16 pool. */
  lemma SeededHoldsPowers(s: Stores, words: seq<Bytes32>, accounts: seq<Account>)
    ensures forall k: nat :: Pow2(k) < PowerBound ==> HoldsPower(Seeded(s, words, accounts), Pow2(k))
  {
    SeededStagesGrow(s, words, accounts);
    forall k: nat | Pow2(k) < PowerBound
      ensures HoldsPower(Seeded(s, words, accounts), Pow2(k))
    {
      Pow2Monotone(0, k);
      PowersSeededHolds(FirstSeeded(s), 0, k);
      PowerHeld(PowersSeeded(FirstSeeded(s), 1), Seeded(s, words, accounts), Pow2(k));
    }
  }

  /** What the powers-of-two loop added stays in pools that only grow. */
  lemma PowerHeld(a: Stores, b: Stores, x: int)
    requires Grows(a, b)
    requires HoldsPower(a, x)
    ensures HoldsPower(b, x)
  {
    PrefixHas(a.int64s, b.int64s, x);
    PrefixHasRendering(a.bigInts, b.bigInts, BigIntValue(x));
    if x <= 0x7fff_ffff {
      PrefixHas(a.int32s, b.int32s, x);
    }
    if x <= 0x7fff {
      PrefixHas(a.int16s, b.int16s, x);
    }
  }

  /** After `InitArgPool` the int8 pool holds all 256 int8 values, and the
      int16, int32 and int64 pools hold 0 ... 255. */
  lemma SeededHoldsSmallInts(s: Stores, words: seq<Bytes32>, accounts: seq<Account>)
    ensures var r := Seeded(s, words, accounts);
            && (forall y: Int8 :: y in r.int8s)
            && (forall x :: 0 <= x < 0x100 ==> x in r.int16s && x in r.int32s && x in r.int64s)
  {
    var s4 := StringSeeded(BytesSeeded(PowersSeeded(FirstSeeded(s), 1), words));
    var s5 := SmallIntsSeeded(s4, 0);
    var r := Seeded(s, words, accounts);
    SeededStagesGrow(s, words, accounts);
    forall y: Int8
      ensures y in r.int8s
    {
      ToInt8Onto(y);
      SmallIntsSeededHolds(s4, 0, y % 0x100);
      PrefixHas(s5.int8s, r.int8s, y);
    }
    forall x | 0 <= x < 0x100
      ensures x in r.int16s && x in r.int32s && x in r.int64s
    {
      SmallIntsSeededHolds(s4, 0, x);
      PrefixHas(s5.int16s, r.int16s, x);
      PrefixHas(s5.int32s, r.int32s, x);
      PrefixHas(s5.int64s, r.int64s, x);
    }
  }

  /** After `InitArgPool` every random array is in the bytes32 pool and
      every account's address and balance are in the address and the BigInt
      pool. */
  lemma SeededHoldsInputs(s: Stores, words: seq<Bytes32>, accounts: seq<Account>)
    ensures var r := Seeded(s, words, accounts);
            && (forall w :: w in words ==> w in r.bytes32s)
            && (forall a :: a in accounts ==>
                 HasRendering(r.addresses, AddressValue(a.address)) && HasRendering(r.bigInts, BigIntValue(a.amount)))
  {
    var s2 := PowersSeeded(FirstSeeded(s), 1);
    var s3 := BytesSeeded(s2, words);
    var s5 := SmallIntsSeeded(StringSeeded(s3), 0);
    var r := Seeded(s, words, accounts);
    SeededStagesGrow(s, words, accounts);
    forall w | w in words
      ensures w in r.bytes32s
    {
      BytesSeededHolds(s2, words, w);
      PrefixHas(s3.bytes32s, r.bytes32s, w);
    }
    forall a | a in accounts
      ensures HasRendering(r.addresses, AddressValue(a.address)) && HasRendering(r.bigInts, BigIntValue(a.amount))
    {
      AccountsSeededHolds(s5, accounts, a);
    }
  }

  /** One round of the powers-of-two loop of `InitArgPool`: what is left
      of the loop after it is the loop from `i * 2` on. */
  method SeedPowerOfTwo(i: Int64, ap: ArgPool)
    requires 1 <= i < PowerBound && ap.Valid()
    modifies ap.int16Pool`storage, ap.int16Pool`storageMap, ap.int32Pool`storage, ap.int32Pool`storageMap
    modifies ap.int64Pool`storage, ap.int64Pool`storageMap, ap.bigIntPool`storage, ap.bigIntPool`storageMap
    ensures ap.Valid()
    ensures ap.Contents() == PowerSeeded(old(ap.Contents()), i)
    ensures PowersSeeded(ap.Contents(), i * 2) == PowersSeeded(old(ap.Contents()), i)
  {
    if i <= 0x7fff_ffff {
      ap.AddInt32(i);
    }
    if i <= 0x7fff {
      ap.AddInt16(i);
    }
    ap.AddBigInt(i);
    ap.AddInt64(i);
  }

  /** The powers-of-two loop: `i` runs over 1, 2, 4, ... while it is below
      `1E18`, so the doubling never overflows an int64. */
  method SeedPowersOfTwo(ap: ArgPool)
    requires ap.Valid()
    modifies ap.int16Pool`storage, ap.int16Pool`storageMap, ap.int32Pool`storage, ap.int32Pool`storageMap
    modifies ap.int64Pool`storage, ap.int64Pool`storageMap, ap.bigIntPool`storage, ap.bigIntPool`storageMap
    ensures ap.Valid()
    ensures ap.Contents() == PowersSeeded(old(ap.Contents()), 1)
  {
    var i: Int64 := 1;
    ghost var target := PowersSeeded(ap.Contents(), 1);
    while i < PowerBound
      invariant 1 <= i < 2 * PowerBound
      invariant ap.Valid()
      invariant PowersSeeded(ap.Contents(), i) == target
      decreases PowerBound - i
    {
      SeedPowerOfTwo(i, ap);
      i := i * 2;
    }
  }

  /** The 32 bytes of one random array: byte `k` is Go's `byte(rand.Int()
      % 256)` for the `k`-th draw. */
  function RandomWord(draws: seq<nat>): (w: Bytes32)
    requires |draws| == 32
    ensures forall k :: 0 <= k < 32 ==> w[k] == draws[k] % 0x100
  {
    seq(32, k requires 0 <= k < 32 => draws[k] % 0x100)
  }

  /** The ten random arrays from the 320 draws, 32 per array. */
  function RandomWords(draws: seq<nat>): (ws: seq<Bytes32>)
    requires |draws| == 320
    ensures |ws| == 10
    ensures forall c :: 0 <= c < 10 ==> ws[c] == RandomWord(draws[32 * c..32 * c + 32])
  {
    seq(10, c requires 0 <= c < 10 => RandomWord(draws[32 * c..32 * c + 32]))
  }

  /** The inner loop of the random arrays: fill a zero array byte by byte. */
  method DrawWord(draws: seq<nat>) returns (w: Bytes32)
    requires |draws| == 32
    ensures w == RandomWord(draws)
  {
    w := ZeroBytes32;
    for k := 0 to 32
      invariant forall m :: 0 <= m < k ==> w[m] == draws[m] % 0x100
    {
      w := w[k := draws[k] % 0x100];
    }
  }

  /** The random-array loop: ten arrays, each added to the bytes32 pool. */
  method SeedRandomWords(draws: seq<nat>, ap: ArgPool)
    requires |draws| == 320 && ap.Valid()
    modifies ap.bytes32Pool`storage, ap.bytes32Pool`storageMap
    ensures ap.Valid()
    ensures ap.Contents() == BytesSeeded(old(ap.Contents()), RandomWords(draws))
  {
    ghost var words := RandomWords(draws);
    for c := 0 to 10
      invariant ap.Valid()
      invariant BytesSeeded(ap.Contents(), words[c..]) == BytesSeeded(old(ap.Contents()), words)
    {
      var w := DrawWord(draws[32 * c..32 * c + 32]);
      assert words[c..][1..] == words[c + 1..];
      ap.AddBytes32(w);
    }
  }

  /** One round of the byte loop. */
  method SeedSmallInt(i: int, ap: ArgPool)
    requires 0 <= i < 0x100 && ap.Valid()
    modifies ap.int8Pool`storage, ap.int8Pool`storageMap, ap.int16Pool`storage, ap.int16Pool`storageMap
    modifies ap.int32Pool`storage, ap.int32Pool`storageMap, ap.int64Pool`storage, ap.int64Pool`storageMap
    ensures ap.Valid()
    ensures ap.Contents() == SmallIntSeeded(old(ap.Contents()), i)
  {
    ap.AddInt8(ToInt8(i));
    ap.AddInt16(i);
    ap.AddInt32(i);
    ap.AddInt64(i);
  }

  /** The byte loop: `i` from 0 to 255. */
  method SeedSmallInts(ap: ArgPool)
    requires ap.Valid()
    modifies ap.int8Pool`storage, ap.int8Pool`storageMap, ap.int16Pool`storage, ap.int16Pool`storageMap
    modifies ap.int32Pool`storage, ap.int32Pool`storageMap, ap.int64Pool`storage, ap.int64Pool`storageMap
    ensures ap.Valid()
    ensures ap.Contents() == SmallIntsSeeded(old(ap.Contents()), 0)
  {
    for i := 0 to 0x100
      invariant ap.Valid()
      invariant SmallIntsSeeded(ap.Contents(), i) == SmallIntsSeeded(old(ap.Contents()), 0)
    {
      SeedSmallInt(i, ap);
    }
  }

  /** The account loop: each address, then its balance. */
  method SeedAccounts(accounts: seq<Account>, ap: ArgPool)
    requires ap.Valid()
    modifies ap.addressPool`storage, ap.addressPool`storageMap, ap.bigIntPool`storage, ap.bigIntPool`storageMap
    ensures ap.Valid()
    ensures ap.Contents() == AccountsSeeded(old(ap.Contents()), accounts)
  {
    for k := 0 to |accounts|
      invariant ap.Valid()
      invariant AccountsSeeded(ap.Contents(), accounts[k..]) == AccountsSeeded(old(ap.Contents()), accounts)
    {
      assert accounts[k..][1..] == accounts[k + 1..];
      ap.AddAddress(accounts[k].address);
      ap.AddBigInt(accounts[k].amount);
    }
  }

  /** `InitArgPool`: the seeding adds before any fuzzing. `draws` are the
      320 results of `rand.Int()` the random arrays are made of, and
      `accounts` is what `ReadAccounts` reads from the metadata. */
  method InitArgPool(ap: ArgPool, draws: seq<nat>, accounts: seq<Account>)
    requires |draws| == 320 && ap.Valid()
    modifies ap.int8Pool`storage, ap.int8Pool`storageMap, ap.int16Pool`storage, ap.int16Pool`storageMap
    modifies ap.int32Pool`storage, ap.int32Pool`storageMap, ap.int64Pool`storage, ap.int64Pool`storageMap
    modifies ap.bytes32Pool`storage, ap.bytes32Pool`storageMap, ap.stringPool`storage, ap.stringPool`storageMap
    modifies ap.addressPool`storage, ap.addressPool`storageMap, ap.bigIntPool`storage, ap.bigIntPool`storageMap
    ensures ap.Valid()
    ensures ap.Contents() == Seeded(old(ap.Contents()), RandomWords(draws), accounts)
  {
    SeedNumbers(ap);
    SeedRandomWords(draws, ap);
    SeedRest(ap, accounts);
  }

  /** The seeding up to the random arrays. */
  method SeedNumbers(ap: ArgPool)
    requires ap.Valid()
    modifies ap.int16Pool`storage, ap.int16Pool`storageMap, ap.int32Pool`storage, ap.int32Pool`storageMap
    modifies ap.int64Pool`storage, ap.int64Pool`storageMap, ap.bigIntPool`storage, ap.bigIntPool`storageMap
    ensures ap.Valid()
    ensures ap.Contents() == PowersSeeded(FirstSeeded(old(ap.Contents())), 1)
  {
    ap.AddBigInt(0);
    ap.AddInt64(-1);
    SeedPowersOfTwo(ap);
  }

  /** The seeding after the random arrays. */
  method SeedRest(ap: ArgPool, accounts: seq<Account>)
    requires ap.Valid()
    modifies ap.int8Pool`storage, ap.int8Pool`storageMap, ap.int16Pool`storage, ap.int16Pool`storageMap
    modifies ap.int32Pool`storage, ap.int32Pool`storageMap, ap.int64Pool`storage, ap.int64Pool`storageMap
    modifies ap.stringPool`storage, ap.stringPool`storageMap
    modifies ap.addressPool`storage, ap.addressPool`storageMap, ap.bigIntPool`storage, ap.bigIntPool`storageMap
    ensures ap.Valid()
    ensures ap.Contents() == AccountsSeeded(SmallIntsSeeded(StringSeeded(old(ap.Contents())), 0), accounts)
  {
    ap.AddString("ChainSecurity");
    SeedSmallInts(ap);
    SeedAccounts(accounts, ap);
  }
}
