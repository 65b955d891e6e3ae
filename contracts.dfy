/** Helpers over the project's contracts: payable lookup, swarm-hash
    extraction from deployment bytecode, linker-placeholder replacement,
    swap-removal from a slice, the contract and method ignore lists, the
    fuzzing configuration, library removal, and the ABI lookups the
    transaction generator relies on. */
module Contracts {
  import opened Common
  import opened Abi
  import opened Backend
  import opened ArgPool
  import opened TimestampPool

  /** `IsPayable`: a missing contract or method reads as false. */
  function IsPayable(meta: Metadata, contract: string, method_: string): (b: bool)
    ensures b <==> contract in meta.payable && method_ in meta.payable[contract] && meta.payable[contract][method_]
  {
    contract in meta.payable && method_ in meta.payable[contract] && meta.payable[contract][method_]
  }

  /** The hexadecimal text of the bytes 0xa1 0x65 followed by the ASCII
      of "bzzr0": the CBOR prefix of the swarm hash at the end of Solidity
      bytecode. */
  const Bzzr0: string := "a165627a7a7230"

  /** `sub` occurs in `s` at position `j`. */
  predicate OccursAt(s: string, sub: string, j: int)
  {
    0 <= j && j + |sub| <= |s| && s[j..j + |sub|] == sub
  }

  /** The last occurrence of `sub` at or before position `k`, or -1. */
  function LastIndexUpTo(s: string, sub: string, k: int): (r: int)
    requires k <= |s| - |sub|
    ensures r == -1 || 0 <= r <= k
    decreases k + 1
  {
    if k < 0 then -1
    else if s[k..k + |sub|] == sub then k
    else LastIndexUpTo(s, sub, k - 1)
  }

  /** `LastIndexUpTo` finds an occurrence, and no later one up to `k`. */
  lemma {:induction false} LastIndexUpToCorrect(s: string, sub: string, k: int)
    requires k <= |s| - |sub|
    ensures var r := LastIndexUpTo(s, sub, k);
            && (r >= 0 ==> OccursAt(s, sub, r))
            && forall j :: r < j <= k ==> !OccursAt(s, sub, j)
    decreases k + 1
  {
    if k >= 0 && s[k..k + |sub|] != sub {
      LastIndexUpToCorrect(s, sub, k - 1);
    }
  }

  /** `strings.LastIndex`. */
  function LastIndex(s: string, sub: string): int
  {
    if |sub| > |s| then -1 else LastIndexUpTo(s, sub, |s| - |sub|)
  }

  /** `LastIndex` is -1 exactly when `sub` does not occur, and otherwise
      the position of its last occurrence. */
  lemma LastIndexCorrect(s: string, sub: string)
    ensures var r := LastIndex(s, sub);
            && (r == -1 <==> forall j :: !OccursAt(s, sub, j))
            && (r >= 0 ==> OccursAt(s, sub, r) && forall j :: OccursAt(s, sub, j) ==> j <= r)
  {
    if |sub| <= |s| {
      LastIndexUpToCorrect(s, sub, |s| - |sub|);
    }
  }

  /** `GetSwarmHash`: `None` when the marker is absent, otherwise the 64
      characters after its last occurrence; slicing past the end of the
      text is a run-time panic. */
  function GetSwarmHash(bytecode: string): (r: Result<Option<string>>)
  {
    var idx := LastIndex(bytecode, Bzzr0);
    if idx == -1 then Ok(None)
    else if idx + |Bzzr0| + 64 > |bytecode| then Panic("slice bounds out of range")
    else Ok(Some(bytecode[idx + |Bzzr0|..idx + |Bzzr0| + 64]))
  }

  /** What `GetSwarmHash` finds: nothing when the marker is absent, a panic
      when its last occurrence has fewer than 64 characters after it, and
      otherwise those 64 characters. */
  lemma GetSwarmHashCorrect(bytecode: string)
    ensures var r := GetSwarmHash(bytecode);
            && (r == Ok(None) <==> forall j :: !OccursAt(bytecode, Bzzr0, j))
            && (r.Panic? <==> exists j :: OccursAt(bytecode, Bzzr0, j) && j + |Bzzr0| + 64 > |bytecode|
                                          && forall k :: OccursAt(bytecode, Bzzr0, k) ==> k <= j)
            && (r.Ok? && r.value.Some? ==>
                 exists j :: && OccursAt(bytecode, Bzzr0, j)
                             && (forall k :: OccursAt(bytecode, Bzzr0, k) ==> k <= j)
                             && j + |Bzzr0| + 64 <= |bytecode|
                             && r.value.value == bytecode[j + |Bzzr0|..j + |Bzzr0| + 64])
            && (r.Ok? && r.value.Some? ==> |r.value.value| == 64)
  {
    LastIndexCorrect(bytecode, Bzzr0);
  }

  /** The position of the first `v` in `a`. */
  function FirstIndex<T(==)>(a: seq<T>, v: T): (i: nat)
    requires v in a
    ensures i < |a| && a[i] == v && v !in a[..i]
  {
    if a[0] == v then 0 else
      var j := FirstIndex(a[1..], v);
      assert a[1..][..j] == a[1..j + 1];
      assert a[..j + 1] == [a[0]] + a[1..j + 1];
      j + 1
  }

  /** `deleteFromSlice`: the first `v` is overwritten by the last element
      and the slice shortened by one; without a `v` nothing changes. */
  function Deleted(a: seq<string>, v: string): seq<string>
  {
    if v in a then a[FirstIndex(a, v) := a[|a| - 1]][..|a| - 1] else a
  }

  /** Overwriting position `i` with the last element and dropping the last
      position removes `a[i]` once from the multiset. */
  lemma SwapRemove(a: seq<string>, i: nat)
    requires i < |a|
    ensures multiset(a[i := a[|a| - 1]][..|a| - 1]) == multiset(a) - multiset{a[i]}
  {
    var n := |a|;
    var r := a[i := a[n - 1]][..n - 1];
    if i == n - 1 {
      assert r == a[..n - 1];
      assert a == a[..n - 1] + [a[i]];
    } else {
      assert r == a[..i] + [a[n - 1]] + a[i + 1..n - 1];
      assert a == a[..i] + [a[i]] + a[i + 1..n - 1] + [a[n - 1]];
    }
  }

  /** Deleting removes exactly one occurrence of `v` when there is one and
      keeps every other element. */
  lemma DeletedRemovesOne(a: seq<string>, v: string)
    ensures v in a ==> |Deleted(a, v)| == |a| - 1
    ensures v in a ==> multiset(Deleted(a, v)) == multiset(a) - multiset{v}
    ensures v !in a ==> Deleted(a, v) == a
    ensures forall x :: x in Deleted(a, v) ==> x in a
  {
    if v in a {
      SwapRemove(a, FirstIndex(a, v));
      forall x | x in Deleted(a, v) ensures x in a {
        assert x in multiset(Deleted(a, v));
      }
    }
  }

  method DeleteFromSlice(val: string, a: seq<string>) returns (r: seq<string>)
    ensures r == Deleted(a, val)
  {
    for i := 0 to |a|
      invariant val !in a[..i]
    {
      if a[i] == val {
        r := a[i := a[|a| - 1]][..|a| - 1];
        return;
      }
      assert a[..i + 1] == a[..i] + [a[i]];
    }
    assert a[..|a|] == a;
    r := a;
  }

  /** A deployed contract is dropped from the contracts and from the list
      the fuzzer picks from; an unknown name changes nothing. */
  method IgnoreContract(contract: string, b: Backend)
    modifies b`deployedContracts, b`contractsList
    ensures contract in old(b.deployedContracts) ==>
      && b.deployedContracts == old(b.deployedContracts) - {contract}
      && b.contractsList == Deleted(old(b.contractsList), contract)
    ensures contract !in old(b.deployedContracts) ==>
      b.deployedContracts == old(b.deployedContracts) && b.contractsList == old(b.contractsList)
  {
    if contract in b.deployedContracts {
      b.deployedContracts := b.deployedContracts - {contract};
      b.contractsList := DeleteFromSlice(contract, b.contractsList);
    }
  }

  /** One occurrence of the method is removed from that contract's list. */
  method IgnoreContractMethod(contract: string, method_: string, b: Backend)
    modifies b`deployedContracts
    ensures contract in old(b.deployedContracts) ==>
      b.deployedContracts == old(b.deployedContracts)[contract :=
        old(b.deployedContracts)[contract].(methods := Deleted(old(b.deployedContracts)[contract].methods, method_))]
    ensures contract !in old(b.deployedContracts) ==> b.deployedContracts == old(b.deployedContracts)
  {
    if contract in b.deployedContracts {
      var ms := DeleteFromSlice(method_, b.deployedContracts[contract].methods);
      b.deployedContracts := b.deployedContracts[contract := b.deployedContracts[contract].(methods := ms)];
    }
  }

  /** The linker placeholder text: 40 zero digits. */
  const ZeroAddressText: string := "0000000000000000000000000000000000000000"

  /** `ReplacePlaceHolders`: every '_' starts a 40-character placeholder,
      written as 40 zeros; when fewer than 40 characters are left, the
      zeros are still written and the text ends. */
  function Replaced(s: string): (r: string)
    decreases |s|
  {
    if s == [] then []
    else if s[0] == '_' then ZeroAddressText + Replaced(s[if |s| < 40 then |s| else 40..])
    else [s[0]] + Replaced(s[1..])
  }

  /** Every placeholder in `s` has its full 40 characters. */
  predicate PlaceholdersComplete(s: string)
    decreases |s|
  {
    if s == [] then true
    else if s[0] == '_' then |s| >= 40 && PlaceholdersComplete(s[40..])
    else PlaceholdersComplete(s[1..])
  }

  /** The output is never shorter than the input, and has the same length
      exactly when every placeholder is complete. */
  lemma {:induction false} ReplacedLength(s: string)
    ensures |Replaced(s)| >= |s|
    ensures |Replaced(s)| == |s| <==> PlaceholdersComplete(s)
    decreases |s|
  {
    if s == [] {
    } else if s[0] == '_' {
      ReplacedLength(s[if |s| < 40 then |s| else 40..]);
    } else {
      ReplacedLength(s[1..]);
    }
  }

  /** No underscore survives the replacement. */
  lemma {:induction false} ReplacedHasNoPlaceholder(s: string)
    ensures '_' !in Replaced(s)
    decreases |s|
  {
    if s == [] {
    } else if s[0] == '_' {
      ReplacedHasNoPlaceholder(s[if |s| < 40 then |s| else 40..]);
      assert '_' !in ZeroAddressText;
    } else {
      ReplacedHasNoPlaceholder(s[1..]);
    }
  }

  /** Text without placeholders is copied unchanged. */
  lemma {:induction false} ReplacedIdentity(s: string)
    requires '_' !in s
    ensures Replaced(s) == s
    decreases |s|
  {
    if s != [] {
      assert s == [s[0]] + s[1..];
      ReplacedIdentity(s[1..]);
    }
  }

  /** One step of `Replaced` at position `i` of `s`. */
  lemma ReplacedAt(s: string, i: nat)
    requires i < |s|
    ensures s[i] == '_' ==> Replaced(s[i..]) == ZeroAddressText + Replaced(s[if i + 40 <= |s| then i + 40 else |s|..])
    ensures s[i] != '_' ==> Replaced(s[i..]) == [s[i]] + Replaced(s[i + 1..])
  {
    var rest := s[i..];
    if s[i] == '_' {
      if i + 40 <= |s| {
        assert rest[40..] == s[i + 40..];
      } else {
        assert rest[|rest|..] == s[|s|..];
      }
    } else {
      assert rest[1..] == s[i + 1..];
    }
  }

  /** The scan: `i` walks the text; at a '_' it writes 40 zeros and jumps
      40 characters ahead, otherwise it copies one character. */
  method ReplacePlaceHolders(bytecode: string) returns (r: string)
    ensures r == Replaced(bytecode)
  {
    var buffer: string := [];
    var i := 0;
    while i < |bytecode|
      invariant 0 <= i <= |bytecode| + 39
      invariant i <= |bytecode| ==> buffer + Replaced(bytecode[i..]) == Replaced(bytecode)
      invariant i > |bytecode| ==> buffer == Replaced(bytecode)
      decreases |bytecode| - i
    {
      ReplacedAt(bytecode, i);
      if bytecode[i] == '_' {
        ghost var next := if i + 40 <= |bytecode| then i + 40 else |bytecode|;
        assert (buffer + ZeroAddressText) + Replaced(bytecode[next..]) == Replaced(bytecode);
        assert next == |bytecode| ==> Replaced(bytecode[next..]) == [];
        i := i + 39;
        buffer := buffer + ZeroAddressText;
        i := i + 1;
        continue;
      }
      buffer := buffer + [bytecode[i]];
      i := i + 1;
    }
    if i == |bytecode| {
      assert bytecode[i..] == [];
    }
    r := buffer;
  }

  /** The fuzzing configuration of one contract. */
  datatype ContractConfig = ContractConfig(ignoreAll: bool, ignoredFunctions: seq<string>, timestamps: seq<Uint64>)

  /** The method list after ignoring each listed method in turn. */
  function DeletedAll(ms: seq<string>, ignored: seq<string>): seq<string>
    decreases |ignored|
  {
    if ignored == [] then ms else DeletedAll(Deleted(ms, ignored[0]), ignored[1..])
  }

  /** Ignoring a list of methods never adds one and removes every method
      that occurred once. */
  lemma {:induction false} DeletedAllShrinks(ms: seq<string>, ignored: seq<string>)
    ensures multiset(DeletedAll(ms, ignored)) <= multiset(ms)
    ensures forall m :: m in ignored && multiset(ms)[m] <= 1 ==> m !in DeletedAll(ms, ignored)
    decreases |ignored|
  {
    if ignored != [] {
      DeletedRemovesOne(ms, ignored[0]);
      DeletedAllShrinks(Deleted(ms, ignored[0]), ignored[1..]);
      forall m | m in ignored && multiset(ms)[m] <= 1
        ensures m !in DeletedAll(ms, ignored)
      {
        if m == ignored[0] {
          assert multiset(Deleted(ms, m))[m] == 0;
          DeletedAllKeepsAbsent(Deleted(ms, m), ignored[1..], m);
        } else {
          assert m in ignored[1..];
          assert multiset(Deleted(ms, ignored[0]))[m] <= multiset(ms)[m];
        }
      }
    }
  }

  lemma {:induction false} DeletedAllKeepsAbsent(ms: seq<string>, ignored: seq<string>, m: string)
    requires m !in ms
    ensures m !in DeletedAll(ms, ignored)
    decreases |ignored|
  {
    if ignored != [] {
      DeletedRemovesOne(ms, ignored[0]);
      if ignored[0] in ms {
        assert multiset(Deleted(ms, ignored[0]))[m] == 0;
      }
      DeletedAllKeepsAbsent(Deleted(ms, ignored[0]), ignored[1..], m);
    }
  }

  /** The timestamp pool after adding each of `ts` in turn. */
  function AddedTimestamps(s: seq<Int64>, ts: seq<Uint64>): seq<Int64>
    decreases |ts|
  {
    if ts == [] then s else GuardedAddTimestamp(AddedTimestamps(s, ts[..|ts| - 1]), ts[|ts| - 1])
  }

  /** `x` is one of the timestamps `ts`, as the pool stores it. */
  ghost predicate IsTimestampOf(ts: seq<Uint64>, x: Int64)
  {
    exists k :: 0 <= k < |ts| && x == ToInt64(ts[k])
  }

  /** Adding a list of timestamps keeps the pool sorted and duplicate-free,
      keeps what was there, leaves every added timestamp in it and adds
      nothing else. */
  lemma {:induction false} AddedTimestampsKeepInvariant(s: seq<Int64>, ts: seq<Uint64>)
    requires SortedByKey(s) && Distinct(s)
    ensures SortedByKey(AddedTimestamps(s, ts)) && Distinct(AddedTimestamps(s, ts))
    ensures forall x :: x in s ==> x in AddedTimestamps(s, ts)
    ensures forall k :: 0 <= k < |ts| ==> ToInt64(ts[k]) in AddedTimestamps(s, ts)
    ensures forall x :: x in AddedTimestamps(s, ts) ==> x in s || IsTimestampOf(ts, x)
    decreases |ts|
  {
    if ts != [] {
      var init := ts[..|ts| - 1];
      var p := AddedTimestamps(s, init);
      AddedTimestampsKeepInvariant(s, init);
      GuardedAddTimestampKeepsInvariant(p, ts[|ts| - 1]);
      assert AddedTimestamps(s, ts) == GuardedAddTimestamp(p, ts[|ts| - 1]);
      forall k | 0 <= k < |ts| - 1 ensures ToInt64(ts[k]) in p {
        assert ts[k] == init[k];
      }
      forall x | x in AddedTimestamps(s, ts) ensures x in s || IsTimestampOf(ts, x) {
        assert x in multiset(GuardedAddTimestamp(p, ts[|ts| - 1]));
        if x == ToInt64(ts[|ts| - 1]) {
          assert IsTimestampOf(ts, x);
        } else {
          assert x in p;
          if x !in s {
            var k :| 0 <= k < |init| && x == ToInt64(init[k]);
            assert init[k] == ts[k];
          }
        }
      }
    }
  }

  /** The inner loop of `ProcessConfig` over a contract's timestamps. */
  method AddTimestamps(ts: seq<Uint64>, ap: ArgPool)
    requires ap.Valid()
    modifies ap.timestampPool
    ensures ap.Valid()
    ensures ap.timestampPool.storage == AddedTimestamps(old(ap.timestampPool.storage), ts)
  {
    for i := 0 to |ts|
      invariant ap.Valid()
      invariant ap.timestampPool.storage == AddedTimestamps(old(ap.timestampPool.storage), ts[..i])
    {
      assert ts[..i + 1][..i] == ts[..i];
      ap.AddTimestamp(ts[i]);
    }
    assert ts[..|ts|] == ts;
  }

  /** The inner loop of `ProcessConfig` over a contract's ignored methods. */
  method IgnoreMethods(contract: string, ignored: seq<string>, b: Backend)
    modifies b`deployedContracts
    ensures b.deployedContracts.Keys == old(b.deployedContracts.Keys)
    ensures forall c :: c in b.deployedContracts && c != contract ==> b.deployedContracts[c] == old(b.deployedContracts)[c]
    ensures contract in b.deployedContracts ==>
      b.deployedContracts[contract] == old(b.deployedContracts)[contract].(methods := DeletedAll(old(b.deployedContracts)[contract].methods, ignored))
  {
    for i := 0 to |ignored|
      invariant b.deployedContracts.Keys == old(b.deployedContracts.Keys)
      invariant forall c :: c in b.deployedContracts && c != contract ==> b.deployedContracts[c] == old(b.deployedContracts)[c]
      invariant contract in b.deployedContracts ==>
        DeletedAll(b.deployedContracts[contract].methods, ignored[i..]) == DeletedAll(old(b.deployedContracts)[contract].methods, ignored)
      invariant contract in b.deployedContracts ==>
        b.deployedContracts[contract].addresses == old(b.deployedContracts)[contract].addresses
    {
      assert ignored[i..][1..] == ignored[i + 1..];
      IgnoreContractMethod(contract, ignored[i], b);
    }
    if contract in b.deployedContracts {
      assert ignored[|ignored|..] == [];
    }
  }

  /** The deployed contracts after applying one contract's configuration. */
  function Configured(d: map<string, Contract>, contract: string, cfg: ContractConfig): map<string, Contract>
  {
    if cfg.ignoreAll then d - {contract}
    else if contract in d then d[contract := d[contract].(methods := DeletedAll(d[contract].methods, cfg.ignoredFunctions))]
    else d
  }

  /** The contracts list after applying one contract's configuration: a
      deployed contract ignored as a whole loses one occurrence. */
  function ConfiguredList(list: seq<string>, d: map<string, Contract>, contract: string, cfg: ContractConfig): seq<string>
  {
    if cfg.ignoreAll && contract in d then Deleted(list, contract) else list
  }

  /** How often `c` occurs in the contracts list after `ProcessConfig`:
      once less when it was deployed, listed and ignored as a whole. */
  function ListedAfterConfig(config: map<string, ContractConfig>, d: map<string, Contract>, list: seq<string>,
                             c: string): nat
  {
    if c in config && config[c].ignoreAll && c in d && c in list then multiset(list)[c] - 1 else multiset(list)[c]
  }

  /** The occurrences in `list` once the contracts outside `remaining` are
      configured. */
  ghost predicate ListedSoFar(config: map<string, ContractConfig>, d: map<string, Contract>, list0: seq<string>,
                              remaining: set<string>, list: seq<string>)
  {
    forall c :: multiset(list)[c] == if c in remaining then multiset(list0)[c] else ListedAfterConfig(config, d, list0, c)
  }

  lemma ListedSoFarStep(config: map<string, ContractConfig>, d: map<string, Contract>, list0: seq<string>,
                        remaining: set<string>, list: seq<string>, contract: string)
    requires ListedSoFar(config, d, list0, remaining, list)
    requires contract in remaining && contract in config
    ensures ListedSoFar(config, d, list0, remaining - {contract}, ConfiguredList(list, d, contract, config[contract]))
  {
    DeletedRemovesOne(list, contract);
    assert contract in list <==> contract in list0 by {
      assert multiset(list)[contract] == multiset(list0)[contract];
    }
  }

  /** The deployed contracts once the contracts outside `remaining` are
      configured. */
  ghost predicate DeployedSoFar(config: map<string, ContractConfig>, d0: map<string, Contract>,
                                remaining: set<string>, d: map<string, Contract>)
  {
    && (forall c :: c in d <==> c in d0 && !(c in config && c !in remaining && config[c].ignoreAll))
    && (forall c :: c in d ==>
          d[c] == if c in config && c !in remaining then d0[c].(methods := DeletedAll(d0[c].methods, config[c].ignoredFunctions))
                  else d0[c])
  }

  lemma DeployedSoFarStep(config: map<string, ContractConfig>, d0: map<string, Contract>,
                          remaining: set<string>, d: map<string, Contract>, contract: string)
    requires DeployedSoFar(config, d0, remaining, d)
    requires contract in remaining && contract in config
    ensures contract in d <==> contract in d0
    ensures DeployedSoFar(config, d0, remaining - {contract}, Configured(d, contract, config[contract]))
  {
  }

  /** The body of the loop of `ProcessConfig` for one contract, after its
      timestamps are added. */
  method ConfigureContract(contract: string, cfg: ContractConfig, b: Backend)
    modifies b`deployedContracts, b`contractsList
    ensures b.deployedContracts == Configured(old(b.deployedContracts), contract, cfg)
    ensures b.contractsList == ConfiguredList(old(b.contractsList), old(b.deployedContracts), contract, cfg)
  {
    if cfg.ignoreAll {
      IgnoreContract(contract, b);
    } else {
      IgnoreMethods(contract, cfg.ignoredFunctions, b);
    }
  }

  /** The timestamp half of the loop of `ProcessConfig`. */
  method AddConfigTimestamps(config: map<string, ContractConfig>, ap: ArgPool)
    requires ap.Valid()
    modifies ap.timestampPool
    ensures ap.Valid()
    ensures forall c, k :: c in config && 0 <= k < |config[c].timestamps| ==> ToInt64(config[c].timestamps[k]) in ap.timestampPool.storage
    ensures forall x :: x in old(ap.timestampPool.storage) ==> x in ap.timestampPool.storage
    ensures forall x :: x in ap.timestampPool.storage ==> x in old(ap.timestampPool.storage) || IsConfigTimestamp(config, x)
  {
    var remaining := config.Keys;
    while remaining != {}
      invariant remaining <= config.Keys
      invariant ap.Valid()
      invariant forall c, k :: c in config && c !in remaining && 0 <= k < |config[c].timestamps| ==> ToInt64(config[c].timestamps[k]) in ap.timestampPool.storage
      invariant forall x :: x in old(ap.timestampPool.storage) ==> x in ap.timestampPool.storage
      invariant forall x :: x in ap.timestampPool.storage ==> x in old(ap.timestampPool.storage) || IsConfigTimestamp(config, x)
      decreases remaining
    {
      var contract :| contract in remaining;
      AddedTimestampsKeepInvariant(ap.timestampPool.storage, config[contract].timestamps);
      AddTimestamps(config[contract].timestamps, ap);
      forall x | x in ap.timestampPool.storage && IsTimestampOf(config[contract].timestamps, x)
        ensures IsConfigTimestamp(config, x)
      {
        var k :| 0 <= k < |config[contract].timestamps| && x == ToInt64(config[contract].timestamps[k]);
      }
      remaining := remaining - {contract};
    }
  }

  /** `x` is a timestamp of some contract's configuration. */
  ghost predicate IsConfigTimestamp(config: map<string, ContractConfig>, x: Int64)
  {
    exists c, k :: c in config && 0 <= k < |config[c].timestamps| && x == ToInt64(config[c].timestamps[k])
  }

  /** The ignore-list half of the loop of `ProcessConfig`. */
  method ApplyConfig(config: map<string, ContractConfig>, b: Backend)
    modifies b`deployedContracts, b`contractsList
    ensures forall c :: c in b.deployedContracts <==> c in old(b.deployedContracts) && !(c in config && config[c].ignoreAll)
    ensures forall c :: c in b.deployedContracts ==>
      b.deployedContracts[c] == if c in config then old(b.deployedContracts)[c].(methods := DeletedAll(old(b.deployedContracts)[c].methods, config[c].ignoredFunctions))
                                else old(b.deployedContracts)[c]
    ensures forall c :: multiset(b.contractsList)[c] == ListedAfterConfig(config, old(b.deployedContracts), old(b.contractsList), c)
  {
    var remaining := config.Keys;
    while remaining != {}
      invariant remaining <= config.Keys
      invariant DeployedSoFar(config, old(b.deployedContracts), remaining, b.deployedContracts)
      invariant ListedSoFar(config, old(b.deployedContracts), old(b.contractsList), remaining, b.contractsList)
      decreases remaining
    {
      var contract :| contract in remaining;
      ghost var list := b.contractsList;
      DeployedSoFarStep(config, old(b.deployedContracts), remaining, b.deployedContracts, contract);
      ConfigureContract(contract, config[contract], b);
      ListedSoFarStep(config, old(b.deployedContracts), old(b.contractsList), remaining, list, contract);
      remaining := remaining - {contract};
    }
  }

  /** `ProcessConfig`: every configured contract has its timestamps added
      to the pool and then is ignored as a whole or has each listed method
      ignored. The two kinds of update touch disjoint state, so they are
      made in two passes here. */
  method ProcessConfig(config: map<string, ContractConfig>, ap: ArgPool, b: Backend)
    requires ap.Valid()
    modifies ap.timestampPool, b`deployedContracts, b`contractsList
    ensures ap.Valid()
    ensures forall c, k :: c in config && 0 <= k < |config[c].timestamps| ==> ToInt64(config[c].timestamps[k]) in ap.timestampPool.storage
    ensures forall x :: x in old(ap.timestampPool.storage) ==> x in ap.timestampPool.storage
    ensures forall c :: c in b.deployedContracts <==> c in old(b.deployedContracts) && !(c in config && config[c].ignoreAll)
    ensures forall c :: c in b.deployedContracts ==>
      b.deployedContracts[c] == if c in config then old(b.deployedContracts)[c].(methods := DeletedAll(old(b.deployedContracts)[c].methods, config[c].ignoredFunctions))
                                else old(b.deployedContracts)[c]
    ensures forall c :: multiset(b.contractsList)[c] == ListedAfterConfig(config, old(b.deployedContracts), old(b.contractsList), c)
    ensures forall x :: x in ap.timestampPool.storage ==> x in old(ap.timestampPool.storage) || IsConfigTimestamp(config, x)
  {
    AddConfigTimestamps(config, ap);
    ApplyConfig(config, b);
  }

  /** `RemoveLibraries`: every library name is dropped from the deployed
      contracts (not from the list the fuzzer picks from). */
  method RemoveLibraries(b: Backend)
    modifies b`deployedContracts
    ensures b.deployedContracts == map c | c in old(b.deployedContracts) && c !in b.meta.libraries :: old(b.deployedContracts)[c]
  {
    var remaining := b.meta.libraries;
    while remaining != {}
      invariant remaining <= b.meta.libraries
      invariant b.deployedContracts == map c | c in old(b.deployedContracts) && (c !in b.meta.libraries || c in remaining) :: old(b.deployedContracts)[c]
      decreases remaining
    {
      var contract :| contract in remaining;
      if contract in b.deployedContracts {
        b.deployedContracts := b.deployedContracts - {contract};
      }
      remaining := remaining - {contract};
    }
  }

  /** `GetContractMethod`: the constructor for the empty name, otherwise
      the named method; an unknown contract or method panics. */
  function GetContractMethod(meta: Metadata, contract: string, method_: string): (r: Result<MethodAbi>)
    ensures r.Ok? <==> contract in meta.abis && (method_ == "" || method_ in meta.abis[contract].methods)
    ensures r.Ok? && method_ == "" ==> r.value == meta.abis[contract].constructor_
    ensures r.Ok? && method_ != "" ==> r.value == meta.abis[contract].methods[method_]
  {
    if contract !in meta.abis then Panic("Contract: " + contract + " not found")
    else if method_ == "" then Ok(meta.abis[contract].constructor_)
    else if method_ in meta.abis[contract].methods then Ok(meta.abis[contract].methods[method_])
    else Panic("Contract: " + contract + ", method: " + method_ + " not found")
  }

  /** `GetRandomContract` with the random number `rnd`: an entry of the
      list; an empty list divides by zero. */
  function GetRandomContract(list: seq<string>, rnd: nat): (r: Result<string>)
    ensures r.Panic? <==> list == []
    ensures r.Ok? ==> r.value in list
  {
    if |list| == 0 then Panic("integer divide by zero") else Ok(list[rnd % |list|])
  }

  /** `GetRandomMethod`: one of the contract's methods; an unknown contract
      dereferences nil and a contract without methods divides by zero. */
  function GetRandomMethod(deployed: map<string, Contract>, contract: string, rnd: nat): (r: Result<string>)
    ensures r.Panic? <==> contract !in deployed || deployed[contract].methods == []
    ensures r.Ok? ==> r.value in deployed[contract].methods
  {
    if contract !in deployed then Panic("invalid memory address or nil dereference")
    else if |deployed[contract].methods| == 0 then Panic("integer divide by zero")
    else Ok(deployed[contract].methods[rnd % |deployed[contract].methods|])
  }
}
