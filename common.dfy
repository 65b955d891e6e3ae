/** Types and helpers shared by the whole model: option and result wrappers,
    the Go integer widths the fuzzer uses, Ethereum addresses and 32-byte
    words, two's-complement conversions and the text rendering of numbers. */
module Common {

  datatype Option<+T> = None | Some(value: T)

  /** The outcome of an operation that can hit a Go run-time panic. A panic
      ends the fuzzing process, so every caller propagates it unchanged. */
  datatype Result<+T> = Ok(value: T) | Panic(reason: string)

  type Byte = x: int | 0 <= x < 0x100
  type Int8 = x: int | -0x80 <= x < 0x80
  type Int16 = x: int | -0x8000 <= x < 0x8000
  type Int32 = x: int | -0x8000_0000 <= x < 0x8000_0000
  type Int64 = x: int | -0x8000_0000_0000_0000 <= x < 0x8000_0000_0000_0000
  type Uint16 = x: int | 0 <= x < 0x1_0000
  type Uint32 = x: int | 0 <= x < 0x1_0000_0000
  type Uint64 = x: int | 0 <= x < 0x1_0000_0000_0000_0000

  /** A 20-byte account address, as the number it encodes big-endian. */
  type Address = x: int | 0 <= x < 0x1_0000_0000_0000_0000_0000_0000_0000_0000_0000

  /** A Go `[32]byte`. */
  type Bytes32 = s: seq<Byte> | |s| == 32 witness Zeros(32)

  /** `n` zero bytes. */
  function Zeros(n: nat): (r: seq<Byte>)
    ensures |r| == n && forall i :: 0 <= i < n ==> r[i] == 0
  {
    if n == 0 then [] else [0] + Zeros(n - 1)
  }

  const ZeroBytes32: Bytes32 := [0, 0, 0, 0, 0, 0, 0, 0, 0, 0, 0, 0, 0, 0, 0, 0, 0, 0, 0, 0, 0, 0, 0, 0, 0, 0, 0, 0, 0, 0, 0, 0]

  function Pow2(k: nat): (r: nat)
    ensures r >= 1
  {
    if k == 0 then 1 else 2 * Pow2(k - 1)
  }

  /** Two's-complement truncation of `x` to `m` = 2^k values, read as a
      signed number: Go's `int8(x)`, `int16(x)`, `int32(x)`, `int64(x)`. */
  function Signed(x: int, m: nat): (r: int)
    requires m >= 2 && m % 2 == 0
    ensures -(m / 2) <= r < m / 2
    ensures -(m / 2) <= x < m / 2 ==> r == x
  {
    var low := x % m;
    if low >= m / 2 then low - m else low
  }

  function ToInt8(x: int): Int8 { Signed(x, 0x100) }
  function ToInt16(x: int): Int16 { Signed(x, 0x1_0000) }
  function ToInt32(x: int): Int32 { Signed(x, 0x1_0000_0000) }
  function ToInt64(x: int): Int64 { Signed(x, 0x1_0000_0000_0000_0000) }

  /** Go's `uint8(x)`, `uint16(x)`, `uint32(x)`, `uint64(x)`: the low bits
      of `x` read as an unsigned number. */
  function ToByte(x: int): Byte { x % 0x100 }
  function ToUint16(x: int): Uint16 { x % 0x1_0000 }
  function ToUint32(x: int): Uint32 { x % 0x1_0000_0000 }
  function ToUint64(x: int): Uint64 { x % 0x1_0000_0000_0000_0000 }

  /** Go's `int64(u)` for a `uint64` u is injective. */
  lemma ToInt64Injective(a: Uint64, b: Uint64)
    requires ToInt64(a) == ToInt64(b)
    ensures a == b
  {
  }

  /** Exact exponentiation `a^b` (big.Int.Exp with a nil modulus). */
  function Pow(a: int, b: nat): int
  {
    if b == 0 then 1 else a * Pow(a, b - 1)
  }

  /** No element occurs twice. */
  ghost predicate Distinct<T>(s: seq<T>)
  {
    forall i, j :: 0 <= i < j < |s| ==> s[i] != s[j]
  }

  lemma {:induction false} DistinctHasSingletons<T>(s: seq<T>, x: T)
    requires Distinct(s)
    ensures multiset(s)[x] <= 1
  {
    if s != [] {
      var t := s[..|s| - 1];
      assert s == t + [s[|s| - 1]];
      assert Distinct(t);
      DistinctHasSingletons(t, x);
      if x == s[|s| - 1] {
        assert x !in t;
      }
    }
  }

  /** Being duplicate-free depends only on the multiset of elements, so
      any permutation (a sort, say) keeps it. */
  lemma DistinctPermutation<T>(a: seq<T>, b: seq<T>)
    requires Distinct(a)
    requires multiset(a) == multiset(b)
    ensures Distinct(b)
  {
    forall i, j | 0 <= i < j < |b|
      ensures b[i] != b[j]
    {
      if b[i] == b[j] {
        assert b == b[..i] + [b[i]] + b[i + 1..j] + [b[j]] + b[j + 1..];
        assert multiset(b)[b[i]] >= 2;
        DistinctHasSingletons(a, b[i]);
        assert false;
      }
    }
  }

  /** Decimal digits of a natural number (no sign, no leading zeros). */
  function NatToDecimal(n: nat): (s: string)
    ensures |s| >= 1
    decreases n
  {
    if n < 10 then [('0' as int + n) as char] else NatToDecimal(n / 10) + [('0' as int + n % 10) as char]
  }

  /** `fmt.Sprintf("%v", x)` of a `*big.Int` or of any Go integer. */
  function IntToDecimal(x: int): (s: string)
    ensures |s| >= 1
  {
    if x < 0 then "-" + NatToDecimal(-x) else NatToDecimal(x)
  }

  /** The 20 bytes of an address, most significant first. */
  function AddressBytes(a: Address): (r: seq<Byte>)
    ensures |r| == 20
  {
    BigEndian(a, 20)
  }

  function BigEndian(x: nat, n: nat): (r: seq<Byte>)
    ensures |r| == n
  {
    if n == 0 then [] else BigEndian(x / 0x100, n - 1) + [x % 0x100]
  }

  const HexDigits: string := "0123456789abcdef"

  /** The lower-case hexadecimal text of a byte string (Go's `%x`). */
  function HexEncode(bs: seq<Byte>): (s: string)
    ensures |s| == 2 * |bs|
  {
    if bs == [] then "" else [HexDigits[bs[0] / 16], HexDigits[bs[0] % 16]] + HexEncode(bs[1..])
  }

  /** `p` is a prefix of `s` (Go's `strings.Index(s, p) == 0`). */
  predicate IsPrefix<T(==)>(p: seq<T>, s: seq<T>)
  {
    |p| <= |s| && s[..|p|] == p
  }
}
