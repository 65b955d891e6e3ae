/** What the fuzzer knows about the project under test: the argument types
    of the contract ABI (in place of Go reflection types), the dynamic
    argument values, the per-contract ABI and payable tables, and the
    accounts. All of it is read from the project's metadata files, which
    are not part of this model, so it enters as a read-only `Metadata`. */
module Abi {
  import opened Common

  /** The Go types an ABI argument is decoded to. A Go `[32]uint8` is the
      Bytes32 type whichever way it is written; `OtherT` stands for every
      type the fuzzer has no case for (structs, `[]interface{}`, ...). */
  datatype AbiType =
    | Int8T | UInt8T | Int16T | UInt16T | Int32T | UInt32T | Int64T | UInt64T
    | Bytes32T | AddressT | StringT | BoolT | BigIntT
    | ArrayT(elem: AbiType, len: nat)
    | SliceT(elem: AbiType)
    | OtherT(name: string)

  /** The reflect type `t` equals `Bytes32Type`. */
  predicate IsBytes32(t: AbiType)
  {
    t == Bytes32T || t == ArrayT(UInt8T, 32)
  }

  /** A dynamic argument value (`interface{}` holding one of the types
      above). */
  datatype Value =
    | Int8V(i8: Int8) | UInt8V(u8: Byte)
    | Int16V(i16: Int16) | UInt16V(u16: Uint16)
    | Int32V(i32: Int32) | UInt32V(u32: Uint32)
    | Int64V(i64: Int64) | UInt64V(u64: Uint64)
    | Bytes32V(b32: Bytes32) | AddressV(addr: Address) | StringV(str: string)
    | BoolV(b: bool) | BigIntV(n: int)
    | ArrayV(elems: seq<Value>)
    | SliceV(elems: seq<Value>)
    | OtherV(name: string)

  /** `v` is a value of Go type `t`: arrays have their declared length and
      slices hold values of their element type. */
  predicate Conforms(v: Value, t: AbiType)
    decreases v, 1
  {
    match t
    case Int8T => v.Int8V?
    case UInt8T => v.UInt8V?
    case Int16T => v.Int16V?
    case UInt16T => v.UInt16V?
    case Int32T => v.Int32V?
    case UInt32T => v.UInt32V?
    case Int64T => v.Int64V?
    case UInt64T => v.UInt64V?
    case Bytes32T => v.Bytes32V?
    case AddressT => v.AddressV?
    case StringT => v.StringV?
    case BoolT => v.BoolV?
    case BigIntT => v.BigIntV?
    case ArrayT(e, n) =>
      if IsBytes32(t) then v.Bytes32V?
      else v.ArrayV? && |v.elems| == n && AllConform(v.elems, e)
    case SliceT(e) => v.SliceV? && AllConform(v.elems, e)
    case OtherT(name) => v == OtherV(name)
  }

  /** Every value of `vs` is of type `t`. */
  predicate AllConform(vs: seq<Value>, t: AbiType)
    decreases vs, 0
  {
    forall i :: 0 <= i < |vs| ==> Conforms(vs[i], t)
  }

  /** Inputs, outputs and constness of an ABI method. */
  datatype MethodAbi = MethodAbi(inputs: seq<AbiType>, outputs: seq<AbiType>, isConst: bool)

  /** A contract's ABI: its constructor and its methods by name. */
  datatype ContractAbi = ContractAbi(constructor_: MethodAbi, methods: map<string, MethodAbi>)

  /** One account of the test chain with its initial balance. */
  datatype Account = Account(address: Address, amount: int)

  /** The tables read from the metadata files: `ABIMap`, `Payable`,
      `Libraries`, the swarm-hash-to-contract table of the deployment
      bytecodes, and the accounts (whose keys the fuzzer holds). */
  datatype Metadata = Metadata(
    abis: map<string, ContractAbi>,
    payable: map<string, map<string, bool>>,
    libraries: set<string>,
    contractHashes: map<string, string>,
    accounts: seq<Account>)

  /** A deployed contract: its addresses, in deployment order, and the
      methods the fuzzer may call. */
  datatype Contract = Contract(addresses: seq<Address>, methods: seq<string>)

  /** `LastTxInput`: what the last generated transaction was. */
  datatype TxInput = TxInput(
    contract: string, method_: string, isConst: bool, ether: int,
    input: seq<Value>, outArgs: seq<AbiType>, sender: Address)
}
