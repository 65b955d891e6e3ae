/** The fuzzing round and its retry heuristics. A round picks a block
    timestamp, generates a transaction, executes it, records what it found
    (overflows, failed assertions, violated `fuzz_always_true` properties)
    and counts it; a reverted transaction may be retried with half the
    ether and the same sender, or with another sender. */
module Heuristics {
  import opened Common
  import opened Abi
  import opened Pool
  import opened RoundRobin
  import opened ArgPool
  import opened Statistics
  import opened Backend
  import opened Generator
  import Args
  import Processor

  // ---------------------------------------------------------------------
  // Optimisation flags
  // ---------------------------------------------------------------------

  /** Bit `k` of `x` in two's complement: Go's `x & (1 << k) != 0`. */
  function Bit(x: int, k: nat): bool
  {
    (x / Pow2(k)) % 2 == 1
  }

  /** A binary digit as a number. */
  function Digit(b: bool): int
  {
    if b then 1 else 0
  }

  lemma Mod16Unique(x: int, q: int, r: int)
    requires x == 16 * q + r && 0 <= r < 16
    ensures x % 16 == r
  {
  }

  /** The four flag bits are the binary digits of `x mod 16`. */
  lemma FlagBits(x: int)
    ensures x % 16 == (if Bit(x, 0) then 1 else 0) + (if Bit(x, 1) then 2 else 0)
                      + (if Bit(x, 2) then 4 else 0) + (if Bit(x, 3) then 8 else 0)
  {
    assert Pow2(0) == 1 && Pow2(1) == 2 && Pow2(2) == 4 && Pow2(3) == 8;
    var x1 := x / 2;
    var x2 := x1 / 2;
    var x3 := x2 / 2;
    assert x / 4 == x2;
    assert x / 8 == x3;
    var d0, d1, d2, d3 := x % 2, x1 % 2, x2 % 2, x3 % 2;
    assert d0 == Digit(Bit(x, 0)) && d1 == Digit(Bit(x, 1));
    assert d2 == Digit(Bit(x, 2)) && d3 == Digit(Bit(x, 3));
    assert x == 16 * (x3 / 2) + (d0 + 2 * d1 + 4 * d2 + 8 * d3);
    Mod16Unique(x, x3 / 2, d0 + 2 * d1 + 4 * d2 + 8 * d3);
  }

  /** `OptMode`: which heuristics are on. */
  class OptMode {
    var retryHalfEther: bool
    var retryDiffSender: bool
    var snapshotsEnabled: bool
    var genStatistics: bool

    /** The zero value `OptMode{}`: every heuristic off. */
    constructor ()
      ensures !retryHalfEther && !retryDiffSender && !snapshotsEnabled && !genStatistics
    {
      retryHalfEther := false;
      retryDiffSender := false;
      snapshotsEnabled := false;
      genStatistics := false;
    }

    /** `SetFlag`: bits 0 to 3 of `optFlag` switch on the half-ether retry,
        the other-sender retry, snapshots and statistics; a heuristic that
        is on stays on. */
    method SetFlag(optFlag: int)
      modifies this
      ensures retryHalfEther == (old(retryHalfEther) || Bit(optFlag, 0))
      ensures retryDiffSender == (old(retryDiffSender) || Bit(optFlag, 1))
      ensures snapshotsEnabled == (old(snapshotsEnabled) || Bit(optFlag, 2))
      ensures genStatistics == (old(genStatistics) || Bit(optFlag, 3))
    {
      if Bit(optFlag, 0) {
        retryHalfEther := true;
      }
      if Bit(optFlag, 1) {
        retryDiffSender := true;
      }
      if Bit(optFlag, 2) {
        snapshotsEnabled := true;
      }
      if Bit(optFlag, 3) {
        genStatistics := true;
      }
    }
  }

  // ---------------------------------------------------------------------
  // Block timestamps
  // ---------------------------------------------------------------------

  /** Transactions sent per block timestamp before the next one is taken. */
  const TxPerTimestamp := 2048

  /** `GenTimestamp`: the current pool timestamp while fewer than 2048
      transactions were counted; otherwise the next one, with the counter
      reset and the chain state reverted to its snapshot once the walk
      reaches the last timestamp. `now` is the wall-clock time. */
  method GenTimestamp(b: Backend, ap: ArgPool, now: Int64) returns (t: int)
    requires ap.Valid()
    modifies b.stats`txCntAfterRevert, ap.timestampPool`idx, b`balances
    ensures ap.Valid() && ap.Contents() == old(ap.Contents())
    ensures old(b.stats.txCntAfterRevert) < TxPerTimestamp ==>
      && t == old(ap.CurrentTimestamp(now))
      && b.stats.txCntAfterRevert == old(b.stats.txCntAfterRevert)
      && ap.timestampPool.idx == old(ap.timestampPool.idx)
      && b.balances == old(b.balances)
    ensures old(b.stats.txCntAfterRevert) >= TxPerTimestamp ==>
      var s := ap.timestampPool.storage;
      && b.stats.txCntAfterRevert == 0
      && (s == [] ==> t == now && ap.timestampPool.idx == old(ap.timestampPool.idx) && b.balances == old(b.balances))
      && (s != [] ==>
            && ap.timestampPool.idx == Advance(old(ap.timestampPool.idx), |s|)
            && t == s[ap.timestampPool.idx]
            && b.balances == (if ap.timestampPool.idx == |s| - 1 then old(b.snapshot) else old(b.balances)))
  {
    if b.stats.GetCount() < TxPerTimestamp {
      return ap.CurrentTimestamp(now);
    }
    var shouldRevert;
    t, shouldRevert := ap.NextTimestamp(now);
    b.stats.ResetCounter();
    if shouldRevert {
      b.RevertBackend();
    }
  }

  // ---------------------------------------------------------------------
  // Execution
  // ---------------------------------------------------------------------

  /** `LastTxRes` as the round reads it: the minimum depths of REVERT and
      INVALID (-1 for none), the first overflow message and the return
      data. */
  datatype TxResult = TxResult(revertAtDepth: int, assertionAtDepth: int, overflow: string, output: seq<Byte>)

  /** What the chain does with a transaction: it executes it, leaving the
      trace `logs` and the return data `output`, together with what
      unpacking that data against the called method's outputs gives, the
      address a deployment by the transaction would create and the
      balances once its value has moved; or it rejects it before execution,
      reverting the state to the snapshot taken just before. */
  datatype Execution =
    | Applied(logs: seq<Processor.StructLog>, output: seq<Byte>, unpacked: Option<seq<Value>>, deployAddress: Address,
              balances: map<Address, nat>)
    | Failed

  /** What the outside world supplies to the `n`-th transaction: the wall
      clock, the three random numbers of `GenTransaction` and the
      execution. */
  datatype World = World(now: Int64, rndContract: nat, rndMethod: nat, rndAccount: nat, execution: Execution)

  ghost function LastResult(b: Backend): TxResult
    reads b
  {
    TxResult(b.revertAtDepth, b.assertionAtDepth, b.overflow, b.output)
  }

  /** The part of `commitTransaction` after a successful `ApplyTransaction`:
      the logs of the executed transaction are processed with `options`, so
      the return data is harvested into the corpus and the trace analysed,
      which may panic. On success the corpus and the coverage only grew. */
  method ProcessApplied(b: Backend, ap: ArgPool, to: Address, options: Option<Processor.Options>, e: Execution)
    returns (r: Result<()>)
    requires ap.Valid() && e.Applied?
    modifies b`revertAtDepth, b`assertionAtDepth, b`overflow, b`output, b`opcodeIndices, b`deployedContracts
    modifies ap.int16Pool`storage, ap.int16Pool`storageMap, ap.int32Pool`storage, ap.int32Pool`storageMap
    modifies ap.int64Pool`storage, ap.int64Pool`storageMap, ap.bytes32Pool`storage, ap.bytes32Pool`storageMap
    modifies ap.addressPool`storage, ap.addressPool`storageMap, ap.bigIntPool`storage, ap.bigIntPool`storageMap
    modifies ap.stringPool`storage, ap.stringPool`storageMap, ap.timestampPool`storage, ap.timestampPool`storageMap
    ensures ap.Valid()
    ensures
      var s1 := Processor.AfterReturnData(old(ap.Contents()), options, e.output, e.unpacked);
      var a := Processor.ProcessOutcome(options, Some(to), b.meta.contractHashes, e.deployAddress, e.logs,
                                        old(b.opcodeIndices), old(b.deployedContracts), s1.timestamps);
      && b.output == e.output
      && (r.Panic? <==> a.Panic?)
      && (r.Ok? ==> a == Ok(Processor.Observed(b, ap)) && ap.Contents() == s1.(timestamps := ap.Contents().timestamps))
    ensures r.Ok? ==>
      && Processor.Enriched(old(ap.Contents()), ap.Contents())
      && Processor.CoverageGrew(old(b.opcodeIndices), b.opcodeIndices)
  {
    ghost var s0 := ap.Contents();
    ghost var cov0 := b.opcodeIndices;
    ghost var d0 := b.deployedContracts;
    r := Processor.ProcessLogs(b, ap, Some(to), options, e.logs, e.output, e.unpacked, e.deployAddress);
    if r.Ok? {
      Processor.OutcomeEnriches(options, Some(to), b.meta.contractHashes, e.deployAddress, e.logs, cov0, d0,
                                s0, e.output, e.unpacked, Processor.Observed(b, ap));
    }
  }

  /** `commitTransaction` of a transaction the chain executed: the state
      keeps what the execution left, here the balances after its value has
      moved, and the logs are processed (`ProcessApplied`). */
  method ExecuteTransaction(b: Backend, ap: ArgPool, to: Address, options: Option<Processor.Options>, e: Execution)
    returns (r: Result<()>)
    requires ap.Valid() && e.Applied?
    modifies b`txCount, b`balances, b`revertAtDepth, b`assertionAtDepth, b`overflow, b`output, b`opcodeIndices, b`deployedContracts
    modifies ap.int16Pool`storage, ap.int16Pool`storageMap, ap.int32Pool`storage, ap.int32Pool`storageMap
    modifies ap.int64Pool`storage, ap.int64Pool`storageMap, ap.bytes32Pool`storage, ap.bytes32Pool`storageMap
    modifies ap.addressPool`storage, ap.addressPool`storageMap, ap.bigIntPool`storage, ap.bigIntPool`storageMap
    modifies ap.stringPool`storage, ap.stringPool`storageMap, ap.timestampPool`storage, ap.timestampPool`storageMap
    ensures ap.Valid()
    ensures b.txCount == old(b.txCount) + 1 && b.balances == e.balances
    ensures
      var s1 := Processor.AfterReturnData(old(ap.Contents()), options, e.output, e.unpacked);
      var a := Processor.ProcessOutcome(options, Some(to), b.meta.contractHashes, e.deployAddress, e.logs,
                                        old(b.opcodeIndices), old(b.deployedContracts), s1.timestamps);
      && b.output == e.output
      && (r.Panic? <==> a.Panic?)
      && (r.Ok? ==> a == Ok(Processor.Observed(b, ap)) && ap.Contents() == s1.(timestamps := ap.Contents().timestamps))
    ensures r.Ok? ==>
      && Processor.Enriched(old(ap.Contents()), ap.Contents())
      && Processor.CoverageGrew(old(b.opcodeIndices), b.opcodeIndices)
  {
    b.txCount := b.txCount + 1;
    b.balances := e.balances;
    r := ProcessApplied(b, ap, to, options, e);
  }

  /** `CommitTransaction` of a call to `to`: counts the transaction and
      executes it. A rejected transaction is reverted to the snapshot taken
      before it, so the balances stay; it gets a fresh tracer, so no return
      data, and keeps the previous depths and overflow, the coverage and
      the corpus, because the trace analysis does not run. An executed one
      leaves the balances its value transfer made and has its logs
      processed. Either way the corpus and the coverage only grow. */
  method CommitTransaction(b: Backend, ap: ArgPool, to: Address, options: Option<Processor.Options>, e: Execution)
    returns (r: Result<()>)
    requires ap.Valid()
    modifies b`txCount, b`balances, b`revertAtDepth, b`assertionAtDepth, b`overflow, b`output, b`opcodeIndices, b`deployedContracts
    modifies ap.int16Pool`storage, ap.int16Pool`storageMap, ap.int32Pool`storage, ap.int32Pool`storageMap
    modifies ap.int64Pool`storage, ap.int64Pool`storageMap, ap.bytes32Pool`storage, ap.bytes32Pool`storageMap
    modifies ap.addressPool`storage, ap.addressPool`storageMap, ap.bigIntPool`storage, ap.bigIntPool`storageMap
    modifies ap.stringPool`storage, ap.stringPool`storageMap, ap.timestampPool`storage, ap.timestampPool`storageMap
    ensures ap.Valid()
    ensures b.txCount == old(b.txCount) + 1
    ensures b.balances == if e.Applied? then e.balances else old(b.balances)
    ensures e.Failed? ==>
      && r.Ok? && b.output == []
      && b.revertAtDepth == old(b.revertAtDepth) && b.assertionAtDepth == old(b.assertionAtDepth)
      && b.overflow == old(b.overflow)
      && b.opcodeIndices == old(b.opcodeIndices) && b.deployedContracts == old(b.deployedContracts)
      && ap.Contents() == old(ap.Contents())
    ensures e.Applied? ==>
      var s1 := Processor.AfterReturnData(old(ap.Contents()), options, e.output, e.unpacked);
      var a := Processor.ProcessOutcome(options, Some(to), b.meta.contractHashes, e.deployAddress, e.logs,
                                        old(b.opcodeIndices), old(b.deployedContracts), s1.timestamps);
      && b.output == e.output
      && (r.Panic? <==> a.Panic?)
      && (r.Ok? ==> a == Ok(Processor.Observed(b, ap)) && ap.Contents() == s1.(timestamps := ap.Contents().timestamps))
    ensures r.Ok? ==>
      && Processor.Enriched(old(ap.Contents()), ap.Contents())
      && Processor.CoverageGrew(old(b.opcodeIndices), b.opcodeIndices)
  {
    if e.Failed? {
      b.txCount := b.txCount + 1;
      b.output := [];
      return Ok(());
    }
    r := ExecuteTransaction(b, ap, to, options, e);
  }

  // ---------------------------------------------------------------------
  // Findings
  // ---------------------------------------------------------------------

  /** `ResultsMap`: per contract, the findings keyed by description. */
  type Table = map<string, map<string, string>>

  class Results {
    var table: Table

    constructor ()
      ensures table == map[]
    {
      table := map[];
    }

    /** `result[contract][key] = value`, for a contract with a map. */
    method Put(contract: string, key: string, value: string)
      requires contract in table
      modifies this`table
      ensures table == old(table)[contract := old(table)[contract][key := value]]
    {
      table := table[contract := table[contract][key := value]];
    }
  }

  /** The method is a property to falsify: its name starts with
      `fuzz_always_true`. */
  predicate IsFuzzProperty(method_: string)
  {
    IsPrefix("fuzz_always_true", method_)
  }

  /** The return data is one 32-byte word whose last byte is not 1: the
      property returned something other than true. */
  predicate PropertyViolated(output: seq<Byte>)
  {
    |output| == 32 && output[31] != 1
  }

  /** The round ends the fuzzing: a property returned false or reverted. */
  predicate Stops(method_: string, res: TxResult)
  {
    IsFuzzProperty(method_) && (res.revertAtDepth == 1 || PropertyViolated(res.output))
  }

  function Put(t: Table, contract: string, key: string, value: string): Table
    requires contract in t
  {
    t[contract := t[contract][key := value]]
  }

  /** The findings table after a round of `method_` on `contract` with the
      result `res`. */
  function Findings(t: Table, contract: string, method_: string, res: TxResult): (r: Table)
    ensures contract in r
  {
    var reverted := res.revertAtDepth == 1;
    var t0 := WithContract(t, contract);
    var t1 := if res.overflow != "" && !reverted then Put(t0, contract, method_ + ": Overflow", res.overflow) else t0;
    var t2 := if res.assertionAtDepth != -1 then Put(t1, contract, method_ + ": AssertionFailure", "") else t1;
    if IsFuzzProperty(method_) && !reverted && PropertyViolated(res.output) then
      Put(t2, contract, method_ + ": Property violation", "")
    else if IsFuzzProperty(method_) && reverted then
      Put(t2, contract, method_ + ": Revert in fuzz function", "")
    else t2
  }

  /** The four finding keys of a method. */
  function FindingKeys(method_: string): set<string>
  {
    {method_ + ": Overflow", method_ + ": AssertionFailure", method_ + ": Property violation",
     method_ + ": Revert in fuzz function"}
  }

  /** The four descriptions differ in the character after `": "`. */
  lemma FindingKeysDistinct(m: string)
    ensures m + ": Overflow" != m + ": AssertionFailure"
    ensures m + ": Overflow" != m + ": Property violation"
    ensures m + ": Overflow" != m + ": Revert in fuzz function"
    ensures m + ": AssertionFailure" != m + ": Property violation"
    ensures m + ": AssertionFailure" != m + ": Revert in fuzz function"
    ensures m + ": Property violation" != m + ": Revert in fuzz function"
  {
    var k := |m| + 2;
    assert (m + ": Overflow")[k] == 'O';
    assert (m + ": AssertionFailure")[k] == 'A';
    assert (m + ": Property violation")[k] == 'P';
    assert (m + ": Revert in fuzz function")[k] == 'R';
  }

  /** A finding is present before or the round found it. */
  ghost predicate Entry(t: Table, r: Table, contract: string, key: string, found: bool)
    requires contract in r
  {
    key in r[contract] <==> (contract in t && key in t[contract]) || found
  }

  /** The findings table before the round's findings: the contract has a
      map, a new empty one if it had none. */
  function WithContract(t: Table, contract: string): (r: Table)
    ensures contract in r && r[contract] == (if contract in t then t[contract] else map[])
    ensures forall c :: c != contract ==> (c in r <==> c in t) && (c in t ==> r[c] == t[c])
  {
    if contract in t then t else t[contract := map[]]
  }

  /** An overflow is recorded only if the transaction was not reverted, and
      then with its message. */
  lemma FindingsOverflow(t: Table, contract: string, m: string, res: TxResult)
    ensures var r := Findings(t, contract, m, res);
            var found := res.overflow != "" && res.revertAtDepth != 1;
      && Entry(t, r, contract, m + ": Overflow", found)
      && (found ==> r[contract][m + ": Overflow"] == res.overflow)
  {
    FindingKeysDistinct(m);
  }

  /** A failed assertion is recorded whenever INVALID ran, reverted or not. */
  lemma FindingsAssertion(t: Table, contract: string, m: string, res: TxResult)
    ensures Entry(t, Findings(t, contract, m, res), contract, m + ": AssertionFailure", res.assertionAtDepth != -1)
  {
    FindingKeysDistinct(m);
  }

  /** A property method that returned false or reverted is recorded as
      such, and those are exactly the rounds that stop. */
  lemma FindingsProperty(t: Table, contract: string, m: string, res: TxResult)
    ensures var r := Findings(t, contract, m, res);
            var reverted := res.revertAtDepth == 1;
      && Entry(t, r, contract, m + ": Property violation", IsFuzzProperty(m) && !reverted && PropertyViolated(res.output))
      && Entry(t, r, contract, m + ": Revert in fuzz function", IsFuzzProperty(m) && reverted)
      && (Stops(m, res) <==> (IsFuzzProperty(m) && !reverted && PropertyViolated(res.output)) || (IsFuzzProperty(m) && reverted))
  {
    FindingKeysDistinct(m);
  }

  /** Nothing else of the contract's findings changes and no other
      contract's findings change at all. */
  lemma FindingsFrame(t: Table, contract: string, m: string, res: TxResult)
    ensures var r := Findings(t, contract, m, res);
      && (forall k :: k in r[contract] && k !in FindingKeys(m) ==> contract in t && k in t[contract] && r[contract][k] == t[contract][k])
      && (forall c :: c != contract ==> (c in r <==> c in t) && (c in t ==> r[c] == t[c]))
  {
  }

  /** No finding is ever removed. */
  ghost predicate Grows(t0: Table, t1: Table)
  {
    forall c :: c in t0 ==> c in t1 && t0[c].Keys <= t1[c].Keys
  }

  lemma FindingsGrow(t: Table, contract: string, m: string, res: TxResult)
    ensures Grows(t, Findings(t, contract, m, res))
  {
    FindingsFrame(t, contract, m, res);
  }

  lemma GrowsTransitive(t0: Table, t1: Table, t2: Table)
    requires Grows(t0, t1) && Grows(t1, t2)
    ensures Grows(t0, t2)
  {
  }

  // ---------------------------------------------------------------------
  // A round
  // ---------------------------------------------------------------------

  /** How a round ends: the fuzzing stops, the transaction went through,
      or it was reverted at the outermost call. */
  datatype RoundEnd = Stop | Passed | Reverted

  /** The pool's 0 is affordable for every sender, so the amount draw ends. */
  lemma ZeroAffordable(s: seq<PoolValue>, b: Backend, sender: Result<Address>)
    requires BigIntValue(0) in s
    ensures AmountDrawable(s, b, sender)
  {
    if sender.Ok? {
      var k :| 0 <= k < |s| && s[k] == BigIntValue(0);
      assert s[k].n <= b.GetBalance(sender.value);
    }
  }

  /** Records the round's findings in a table that has the contract's map
      and says whether the fuzzing stops. */
  method Record(results: Results, contract: string, method_: string, res: TxResult) returns (stop: bool)
    requires contract in results.table
    modifies results`table
    ensures results.table == Findings(old(results.table), contract, method_, res)
    ensures stop <==> Stops(method_, res)
  {
    var reverted := res.revertAtDepth == 1;
    if res.overflow != "" && !reverted {
      results.Put(contract, method_ + ": Overflow", res.overflow);
    }
    if res.assertionAtDepth != -1 {
      results.Put(contract, method_ + ": AssertionFailure", "");
    }
    stop := false;
    if IsPrefix("fuzz_always_true", method_) {
      if !reverted && |res.output| == 32 && res.output[31] != 1 {
        results.Put(contract, method_ + ": Property violation", "");
        stop := true;
      } else if reverted {
        results.Put(contract, method_ + ": Revert in fuzz function", "");
        stop := true;
      }
    }
  }

  /** The end of a round, after the transaction is committed: the results
      map gets an entry for the contract, the findings are recorded, the
      round stops on a falsified property, and otherwise it is counted
      once: in the statistics as failed iff reverted when they are on,
      else in the plain counter. (The entry is made before the commit in
      the source; the commit does not touch the results map.) */
  method Judge(b: Backend, results: Results, optMode: OptMode) returns (end: RoundEnd)
    requires b.lastTxIn.Some? && b.stats.Valid()
    modifies b.stats, results
    ensures b.stats.Valid()
    ensures results.table == Findings(old(results.table), b.lastTxIn.value.contract, b.lastTxIn.value.method_, LastResult(b))
    ensures end.Stop? <==> Stops(b.lastTxIn.value.method_, LastResult(b))
    ensures end.Reverted? <==> !end.Stop? && LastResult(b).revertAtDepth == 1
    ensures end.Stop? ==> b.stats.statsMap == old(b.stats.statsMap) && b.stats.txCntAfterRevert == old(b.stats.txCntAfterRevert)
    ensures !end.Stop? ==>
      && b.stats.txCntAfterRevert == old(b.stats.txCntAfterRevert) + 1
      && b.stats.statsMap == (if optMode.genStatistics
                              then Recorded(old(b.stats.statsMap), b.lastTxIn.value.contract, b.lastTxIn.value.method_,
                                            LastResult(b).revertAtDepth == 1)
                              else old(b.stats.statsMap))
  {
    var desc := b.lastTxIn.value;
    if desc.contract !in results.table {
      results.table := results.table[desc.contract := map[]];
    }
    assert results.table == WithContract(old(results.table), desc.contract);
    var stop := Record(results, desc.contract, desc.method_, TxResult(b.revertAtDepth, b.assertionAtDepth, b.overflow, b.output));
    if stop {
      return Stop;
    }
    if optMode.genStatistics {
      b.stats.AddTx(desc.contract, desc.method_, b.revertAtDepth == 1);
    } else {
      b.stats.IncTxCnt();
    }
    if b.revertAtDepth != 1 {
      return Passed;
    }
    return Reverted;
  }

  /** Only 0 prints as "0". */
  lemma ZeroRendering(x: int)
    requires IntToDecimal(x) == "0"
    ensures x == 0
  {
  }

  /** The seeded "0" of the BigInt pool is the value 0, so every round can
      draw an amount. */
  lemma SeededZero(s: seq<PoolValue>)
    requires OnlyBigInts(s) && Args.HasRendering(s, BigIntValue(0))
    ensures BigIntValue(0) in s
  {
    var i :| 0 <= i < |s| && Render(s[i]) == Render(BigIntValue(0));
    ZeroRendering(s[i].n);
  }

  /** `ap.Valid()`, as one fact: the round's proofs only carry it along. */
  ghost predicate Ready(ap: ArgPool)
    reads ap, ap.Repr()
  {
    ap.Valid()
  }

  /** While no pool changes, the pools stay well formed and keep what
      they hold. */
  twostate lemma PoolsKept(ap: ArgPool)
    requires old(Ready(ap))
    requires unchanged(ap.int8Pool, ap.int16Pool, ap.int32Pool, ap.int64Pool, ap.bytes32Pool,
                       ap.addressPool, ap.bigIntPool, ap.stringPool, ap.timestampPool)
    ensures Ready(ap) && ap.Contents() == old(ap.Contents())
  {
  }

  /** The first half of a round: a timestamp and a transaction. */
  method Prepare(b: Backend, ap: ArgPool, hint: Hint, w: World) returns (r: Result<Transaction>)
    requires Ready(ap) && BigIntValue(0) in ap.bigIntPool.storage
    modifies b.stats`txCntAfterRevert, b`balances, b`lastTxIn
    modifies hint`contract, hint`method_, hint`amount, ap.timestampPool`idx
    modifies ap.int8Pool`idx, ap.int16Pool`idx, ap.int32Pool`idx, ap.int64Pool`idx, ap.bytes32Pool`idx
    modifies ap.addressPool`idx, ap.bigIntPool`idx, ap.stringPool`idx
    ensures Ready(ap) && ap.Contents() == old(ap.Contents())
    ensures b.txCount == old(b.txCount) && b.opcodeIndices == old(b.opcodeIndices)
    ensures r.Ok? ==>
      && b.lastTxIn.Some?
      && hint.amount == Some(b.lastTxIn.value.ether)
      && (old(hint.amount).Some? ==> b.lastTxIn.value.ether == old(hint.amount).value)
  {
    var time := StepTimestamp(b, ap, w.now);
    r := Generate(b, ap, hint, w);
  }

  /** What a round needs of `GenTimestamp`: the pools keep their contents. */
  method StepTimestamp(b: Backend, ap: ArgPool, now: Int64) returns (t: int)
    requires Ready(ap)
    modifies b.stats`txCntAfterRevert, ap.timestampPool`idx, b`balances
    ensures Ready(ap) && ap.Contents() == old(ap.Contents())
  {
    t := GenTimestamp(b, ap, now);
  }

  /** What a round needs of `GenTransaction`: the pools keep their contents
      and a generated transaction is the hint's and the backend's last. */
  method Generate(b: Backend, ap: ArgPool, hint: Hint, w: World) returns (r: Result<Transaction>)
    requires Ready(ap) && BigIntValue(0) in ap.bigIntPool.storage
    modifies hint`contract, hint`method_, hint`amount, b`lastTxIn
    modifies ap.int8Pool`idx, ap.int16Pool`idx, ap.int32Pool`idx, ap.int64Pool`idx, ap.bytes32Pool`idx
    modifies ap.addressPool`idx, ap.bigIntPool`idx, ap.stringPool`idx
    ensures Ready(ap) && ap.Contents() == old(ap.Contents())
    ensures r.Ok? ==>
      && b.lastTxIn.Some?
      && hint.amount == Some(b.lastTxIn.value.ether)
      && (old(hint.amount).Some? ==> b.lastTxIn.value.ether == old(hint.amount).value)
  {
    ZeroAffordable(ap.bigIntPool.storage, b, ResolveSender(hint.sender, b.meta.accounts, w.rndAccount));
    r := GenTransaction(b, ap, hint, w.rndContract, w.rndMethod, w.rndAccount);
  }

  /** What a round needs of `CommitTransaction`: one more transaction, the
      balances the execution left, a corpus and a coverage that only grew, and a panic only from the
      analysis of an executed transaction. */
  method Commit(b: Backend, ap: ArgPool, to: Address, options: Option<Processor.Options>, e: Execution)
    returns (r: Result<()>)
    requires Ready(ap)
    modifies b`txCount, b`balances, b`revertAtDepth, b`assertionAtDepth, b`overflow, b`output, b`opcodeIndices, b`deployedContracts
    modifies ap.int16Pool`storage, ap.int16Pool`storageMap, ap.int32Pool`storage, ap.int32Pool`storageMap
    modifies ap.int64Pool`storage, ap.int64Pool`storageMap, ap.bytes32Pool`storage, ap.bytes32Pool`storageMap
    modifies ap.addressPool`storage, ap.addressPool`storageMap, ap.bigIntPool`storage, ap.bigIntPool`storageMap
    modifies ap.stringPool`storage, ap.stringPool`storageMap, ap.timestampPool`storage, ap.timestampPool`storageMap
    ensures Ready(ap)
    ensures b.txCount == old(b.txCount) + 1 && b.lastTxIn == old(b.lastTxIn)
    ensures b.balances == if e.Applied? then e.balances else old(b.balances)
    ensures r.Panic? ==> e.Applied?
    ensures r.Ok? ==>
      && Processor.Enriched(old(ap.Contents()), ap.Contents())
      && Processor.CoverageGrew(old(b.opcodeIndices), b.opcodeIndices)
  {
    r := CommitTransaction(b, ap, to, options, e);
  }

  /** What a round needs of the commit and `Judge`: one more transaction,
      findings only added, and, unless the analysis of an executed
      transaction panics, a corpus and a coverage that only grew and the
      stopping verdict. */
  method Settle(b: Backend, ap: ArgPool, results: Results, optMode: OptMode, options: Option<Processor.Options>,
                to: Address, e: Execution) returns (r: Result<RoundEnd>)
    requires b.lastTxIn.Some? && b.stats.Valid() && Ready(ap)
    modifies b`txCount, b`balances, b`revertAtDepth, b`assertionAtDepth, b`overflow, b`output, b`opcodeIndices, b`deployedContracts
    modifies ap.int16Pool`storage, ap.int16Pool`storageMap, ap.int32Pool`storage, ap.int32Pool`storageMap
    modifies ap.int64Pool`storage, ap.int64Pool`storageMap, ap.bytes32Pool`storage, ap.bytes32Pool`storageMap
    modifies ap.addressPool`storage, ap.addressPool`storageMap, ap.bigIntPool`storage, ap.bigIntPool`storageMap
    modifies ap.stringPool`storage, ap.stringPool`storageMap, ap.timestampPool`storage, ap.timestampPool`storageMap
    modifies b.stats, results
    ensures Ready(ap) && b.stats.Valid()
    ensures b.txCount == old(b.txCount) + 1 && b.lastTxIn == old(b.lastTxIn)
    ensures r.Panic? ==> e.Applied?
    ensures r.Ok? ==>
      && Processor.Enriched(old(ap.Contents()), ap.Contents())
      && Processor.CoverageGrew(old(b.opcodeIndices), b.opcodeIndices)
    ensures Grows(old(results.table), results.table)
    ensures r.Ok? ==> (r.value.Stop? <==> Stops(b.lastTxIn.value.method_, LastResult(b)))
  {
    var c := Commit(b, ap, to, options, e);
    if c.Panic? {
      return Panic(c.reason);
    }
    label Committed:
    var end := Judge(b, results, optMode);
    PoolsKept@Committed(ap);
    FindingsGrow(old(results.table), b.lastTxIn.value.contract, b.lastTxIn.value.method_, LastResult(b));
    r := Ok(end);
  }

  /** A round: a timestamp, a transaction, its commit with `options` and
      its judgement. The corpus and the coverage only grow; in particular
      the seeded BigInt 0 stays. */
  method Round(b: Backend, ap: ArgPool, hint: Hint, results: Results, optMode: OptMode,
               options: Option<Processor.Options>, w: World)
    returns (r: Result<RoundEnd>)
    requires Ready(ap) && b.stats.Valid() && BigIntValue(0) in ap.bigIntPool.storage
    modifies b.stats, b`balances, b`lastTxIn, b`txCount, b`revertAtDepth, b`assertionAtDepth, b`overflow, b`output
    modifies b`opcodeIndices, b`deployedContracts, hint`contract, hint`method_, hint`amount, results
    modifies ap.int8Pool, ap.int16Pool, ap.int32Pool, ap.int64Pool, ap.bytes32Pool
    modifies ap.addressPool, ap.bigIntPool, ap.stringPool, ap.timestampPool
    ensures Ready(ap) && b.stats.Valid()
    ensures Grows(old(results.table), results.table)
    ensures r.Ok? ==>
      && Processor.Enriched(old(ap.Contents()), ap.Contents())
      && BigIntValue(0) in ap.bigIntPool.storage
      && Processor.CoverageGrew(old(b.opcodeIndices), b.opcodeIndices)
    ensures r.Panic? && b.txCount != old(b.txCount) ==> b.txCount == old(b.txCount) + 1 && w.execution.Applied?
    ensures r.Ok? ==>
      && b.txCount == old(b.txCount) + 1
      && b.lastTxIn.Some?
      && hint.amount == Some(b.lastTxIn.value.ether)
      && (old(hint.amount).Some? ==> b.lastTxIn.value.ether == old(hint.amount).value)
      && (r.value.Stop? <==> Stops(b.lastTxIn.value.method_, LastResult(b)))
  {
    var tx := Prepare(b, ap, hint, w);
    if tx.Panic? {
      return Panic(tx.reason);
    }
    ghost var s0 := ap.Contents();
    r := Settle(b, ap, results, optMode, options, tx.value.to, w.execution);
    if r.Ok? {
      Args.PrefixHas(s0.bigInts, ap.bigIntPool.storage, BigIntValue(0));
    }
  }

  /** The half-ether retry: the hint's amount is halved, rounding down, as
      `Rsh` by one does for a positive value. */
  method HalveAmount(hint: Hint)
    requires hint.amount.Some? && hint.amount.value > 0
    modifies hint`amount
    ensures hint.amount == Some(old(hint.amount.value) / 2)
    ensures hint.amount.value < old(hint.amount.value)
  {
    hint.amount := Some(hint.amount.value / 2);
  }

  /** Retries at most this deep with another sender. */
  const MaxSenderRetryDepth := 4

  /** The measure of the retries: sender retries below depth 4, then an
      unset amount, then the amount left to halve. */
  function RetryDepthLeft(depth: int): nat
  {
    if depth < MaxSenderRetryDepth then MaxSenderRetryDepth - depth else 0
  }

  function AmountLeft(amount: Option<int>): nat
  {
    if amount.Some? && amount.value > 0 then amount.value else 0
  }

  /** `Rec`: runs a round and, when its transaction was reverted, retries
      with half the ether and the same sender if that heuristic is on and
      the ether was positive, then with a random sender if that heuristic is
      on and the depth is below 4. It answers true iff the fuzzing must
      stop, which only a first round can decide; every retry answers false.
      Each commit feeds the corpus and the coverage, which only grow: the
      items of every pool stay where they were, as the hint's amount is
      halved as a value of its own. The world of the `n`-th transaction is
      `world(n)`. */
  method Rec(b: Backend, ap: ArgPool, hint: Hint, options: Option<Processor.Options>, results: Results,
             optMode: OptMode, world: nat -> World, depth: int)
    returns (r: Result<bool>)
    requires ap.Valid() && b.stats.Valid() && BigIntValue(0) in ap.bigIntPool.storage
    requires b.txCount >= 0
    modifies b.stats, b`balances, b`lastTxIn, b`txCount, b`revertAtDepth, b`assertionAtDepth, b`overflow, b`output
    modifies b`opcodeIndices, b`deployedContracts, hint`contract, hint`method_, hint`amount, hint`sender, results
    modifies ap.int8Pool, ap.int16Pool, ap.int32Pool, ap.int64Pool, ap.bytes32Pool
    modifies ap.addressPool, ap.bigIntPool, ap.stringPool, ap.timestampPool
    ensures ap.Valid() && b.stats.Valid()
    ensures Grows(old(results.table), results.table)
    ensures r.Ok? ==>
      && Processor.Enriched(old(ap.Contents()), ap.Contents())
      && BigIntValue(0) in ap.bigIntPool.storage
      && Processor.CoverageGrew(old(b.opcodeIndices), b.opcodeIndices)
    ensures r.Ok? ==> b.txCount > old(b.txCount)
    ensures r.Ok? && r.value ==> b.txCount == old(b.txCount) + 1
    ensures r.Ok? && b.txCount == old(b.txCount) + 1 ==>
      b.lastTxIn.Some? && (r.value <==> Stops(b.lastTxIn.value.method_, LastResult(b)))
    ensures r.Ok? && b.txCount != old(b.txCount) + 1 ==> optMode.retryHalfEther || optMode.retryDiffSender
    decreases RetryDepthLeft(depth), (if hint.amount.None? then 1 else 0), AmountLeft(hint.amount), 2
  {
    var round := Round(b, ap, hint, results, optMode, options, world(b.txCount));
    if round.Panic? {
      return Panic(round.reason);
    }
    if round.value.Stop? {
      return Ok(true);
    }
    if round.value.Passed? {
      return Ok(false);
    }
    if !(optMode.retryHalfEther && hint.amount.value > 0) && !(optMode.retryDiffSender && depth < MaxSenderRetryDepth) {
      return Ok(false);
    }
    ghost var before := results.table;
    ghost var s := ap.Contents();
    var retried := Retry(b, ap, hint, options, results, optMode, world, depth);
    if retried.Panic? {
      return Panic(retried.reason);
    }
    GrowsTransitive(old(results.table), before, results.table);
    Processor.EnrichedTransitive(old(ap.Contents()), s, ap.Contents());
    return Ok(false);
  }

  /** The retries of a reverted round, when at least one applies: first
      with half the ether, then with another sender. Each one commits at
      least once more. */
  method Retry(b: Backend, ap: ArgPool, hint: Hint, options: Option<Processor.Options>, results: Results,
               optMode: OptMode, world: nat -> World, depth: int)
    returns (r: Result<()>)
    requires Ready(ap) && b.stats.Valid() && BigIntValue(0) in ap.bigIntPool.storage
    requires b.txCount >= 0 && b.lastTxIn.Some? && hint.amount.Some?
    requires (optMode.retryHalfEther && hint.amount.value > 0) || (optMode.retryDiffSender && depth < MaxSenderRetryDepth)
    modifies b.stats, b`balances, b`lastTxIn, b`txCount, b`revertAtDepth, b`assertionAtDepth, b`overflow, b`output
    modifies b`opcodeIndices, b`deployedContracts, hint`contract, hint`method_, hint`amount, hint`sender, results
    modifies ap.int8Pool, ap.int16Pool, ap.int32Pool, ap.int64Pool, ap.bytes32Pool
    modifies ap.addressPool, ap.bigIntPool, ap.stringPool, ap.timestampPool
    ensures ap.Valid() && b.stats.Valid()
    ensures Grows(old(results.table), results.table)
    ensures r.Ok? ==>
      && Processor.Enriched(old(ap.Contents()), ap.Contents())
      && BigIntValue(0) in ap.bigIntPool.storage
      && Processor.CoverageGrew(old(b.opcodeIndices), b.opcodeIndices)
    ensures r.Ok? ==> b.txCount > old(b.txCount)
    decreases RetryDepthLeft(depth), (if hint.amount.None? then 1 else 0), AmountLeft(hint.amount), 1
  {
    if optMode.retryHalfEther && hint.amount.value > 0 {
      var inner := RetryHalfEther(b, ap, hint, options, results, optMode, world, depth);
      if inner.Panic? {
        return Panic(inner.reason);
      }
    }
    ghost var before := results.table;
    ghost var s1 := ap.Contents();
    if optMode.retryDiffSender && depth < MaxSenderRetryDepth {
      var inner := RetryDiffSender(b, ap, hint, options, results, optMode, world, depth);
      if inner.Panic? {
        return Panic(inner.reason);
      }
      GrowsTransitive(old(results.table), before, results.table);
      Processor.EnrichedTransitive(old(ap.Contents()), s1, ap.Contents());
    }
    r := Ok(());
  }

  /** The half-ether retry: half the amount, the last sender, one level
      deeper. */
  method RetryHalfEther(b: Backend, ap: ArgPool, hint: Hint, options: Option<Processor.Options>, results: Results,
                        optMode: OptMode, world: nat -> World, depth: int)
    returns (r: Result<bool>)
    requires Ready(ap) && b.stats.Valid() && BigIntValue(0) in ap.bigIntPool.storage
    requires b.txCount >= 0 && b.lastTxIn.Some? && hint.amount.Some? && hint.amount.value > 0
    modifies b.stats, b`balances, b`lastTxIn, b`txCount, b`revertAtDepth, b`assertionAtDepth, b`overflow, b`output
    modifies b`opcodeIndices, b`deployedContracts, hint`contract, hint`method_, hint`amount, hint`sender, results
    modifies ap.int8Pool, ap.int16Pool, ap.int32Pool, ap.int64Pool, ap.bytes32Pool
    modifies ap.addressPool, ap.bigIntPool, ap.stringPool, ap.timestampPool
    ensures ap.Valid() && b.stats.Valid()
    ensures Grows(old(results.table), results.table)
    ensures r.Ok? ==>
      && Processor.Enriched(old(ap.Contents()), ap.Contents())
      && BigIntValue(0) in ap.bigIntPool.storage
      && Processor.CoverageGrew(old(b.opcodeIndices), b.opcodeIndices)
    ensures r.Ok? ==> b.txCount > old(b.txCount)
    decreases RetryDepthLeft(depth), 0, AmountLeft(hint.amount), 0
  {
    label Halving:
    HalveAmount(hint);
    hint.sender := Some(b.lastTxIn.value.sender);
    PoolsKept@Halving(ap);
    r := Rec(b, ap, hint, options, results, optMode, world, depth + 1);
  }

  /** The other-sender retry: the hint's sender cleared, one level deeper. */
  method RetryDiffSender(b: Backend, ap: ArgPool, hint: Hint, options: Option<Processor.Options>, results: Results,
                         optMode: OptMode, world: nat -> World, depth: int)
    returns (r: Result<bool>)
    requires Ready(ap) && b.stats.Valid() && BigIntValue(0) in ap.bigIntPool.storage
    requires b.txCount >= 0 && depth < MaxSenderRetryDepth
    modifies b.stats, b`balances, b`lastTxIn, b`txCount, b`revertAtDepth, b`assertionAtDepth, b`overflow, b`output
    modifies b`opcodeIndices, b`deployedContracts, hint`contract, hint`method_, hint`amount, hint`sender, results
    modifies ap.int8Pool, ap.int16Pool, ap.int32Pool, ap.int64Pool, ap.bytes32Pool
    modifies ap.addressPool, ap.bigIntPool, ap.stringPool, ap.timestampPool
    ensures ap.Valid() && b.stats.Valid()
    ensures Grows(old(results.table), results.table)
    ensures r.Ok? ==>
      && Processor.Enriched(old(ap.Contents()), ap.Contents())
      && BigIntValue(0) in ap.bigIntPool.storage
      && Processor.CoverageGrew(old(b.opcodeIndices), b.opcodeIndices)
    ensures r.Ok? ==> b.txCount > old(b.txCount)
    decreases RetryDepthLeft(depth), 0, 0, 0
  {
    label Clearing:
    hint.sender := None;
    PoolsKept@Clearing(ap);
    r := Rec(b, ap, hint, options, results, optMode, world, depth + 1);
  }

  // ---------------------------------------------------------------------
  // The half-ether retry as written
  // ---------------------------------------------------------------------

  /** The BigInt pool after the half-ether retry as written: an amount drawn
      from the pool is the pool's own `*big.Int`, item `k`, and `Rsh`
      halves it where it is stored, while the map of seen renderings keeps
      the old text. */
  function HalvedInPlace(s: seq<PoolValue>, k: nat): (r: seq<PoolValue>)
    requires k < |s| && s[k].BigIntValue?
    ensures |r| == |s| && r[k] == BigIntValue(s[k].n / 2)
    ensures forall i :: 0 <= i < |s| && i != k ==> r[i] == s[i]
  {
    s[k := BigIntValue(s[k].n / 2)]
  }

  /** A pool holding 0 and 1, as the seeding leaves it, that draws 1 for a
      reverted transaction: halving it in place gives two zeros, so the
      pool holds a duplicate and its map of renderings no longer matches,
      which breaks the BigInt pool invariant. */
  lemma InPlaceHalvingBreaksPool()
    ensures var s := [BigIntValue(0), BigIntValue(1)];
      && RenderDistinct(s)
      && !RenderDistinct(HalvedInPlace(s, 1))
      && Renderings(HalvedInPlace(s, 1)) != Renderings(s)
  {
    var s := [BigIntValue(0), BigIntValue(1)];
    var h := HalvedInPlace(s, 1);
    assert Render(s[0]) == "0" && Render(s[1]) == "1";
    assert h[1] == BigIntValue(0);
    assert "1" in Renderings(s);
    assert "1" !in Renderings(h) by {
      forall x | x in h
        ensures Render(x) != "1"
      {
        assert x == BigIntValue(0);
      }
    }
  }
}
