/** The trace analyser (`processLogs`): one pass over the EVM steps of an
    executed transaction that records the first arithmetic overflow, the
    minimum call depths of INVALID and REVERT, the program counters each
    contract executed, the timestamp-like stack values and the contracts a
    deployment transaction created. */
module Processor {
  import opened Common
  import opened Abi
  import opened ArgPool
  import opened TimestampPool
  import opened Args
  import opened Backend
  import opened Contracts

  /** One step of the structured EVM trace: the opcode, the call depth, the
      program counter, the stack before the step (top last) and the
      memory. */
  datatype StructLog = StructLog(op: Byte, depth: nat, pc: nat, stack: seq<int>, memory: seq<Byte>)

  const OpAdd: Byte := 0x01
  const OpMul: Byte := 0x02
  const OpSub: Byte := 0x03
  const OpExp: Byte := 0x0a
  const OpReturn: Byte := 0xf3
  const OpRevert: Byte := 0xfd
  const OpInvalid: Byte := 0xfe

  /** The timestamp window, 2015-01-01 and 2025-01-01 in Unix seconds. */
  const EarliestTime: int := 1420070400
  const LatestTime: int := 1735689600

  /** The EVM word size, 2^256. */
  const WordSize: int := 0x1_0000_0000_0000_0000_0000_0000_0000_0000_0000_0000_0000_0000_0000_0000_0000_0000

  /** The opcodes of the `operators` table. */
  predicate IsArithmetic(op: Byte)
  {
    op == OpAdd || op == OpSub || op == OpMul || op == OpExp
  }

  /** The `operators` table: the exact result of the step for `a` the top
      of the stack and `b` the item below it. `big.Int.Exp` with no modulus
      gives 1 for a non-positive exponent. */
  function Expected(op: Byte, a: int, b: int): int
    requires IsArithmetic(op)
  {
    if op == OpAdd then a + b
    else if op == OpSub then a - b
    else if op == OpMul then a * b
    else if b <= 0 then 1
    else Pow(a, b)
  }

  /** What the EVM computes for the same step: the exact result modulo
      2^256. */
  function WordResult(op: Byte, a: int, b: int): int
    requires IsArithmetic(op)
  {
    Expected(op, a, b) % WordSize
  }

  /** The opcode's name as `vm.OpCode` prints it. */
  function OpName(op: Byte): string
    requires IsArithmetic(op)
  {
    if op == OpAdd then "ADD" else if op == OpSub then "SUB" else if op == OpMul then "MUL" else "EXP"
  }

  /** The overflow message `(a OP b=result), expected:exact`. */
  function OverflowMessage(op: Byte, a: int, b: int, result: int): (m: string)
    requires IsArithmetic(op)
    ensures m != ""
  {
    "(" + IntToDecimal(a) + " " + OpName(op) + " " + IntToDecimal(b) + "=" + IntToDecimal(result)
      + "), expected:" + IntToDecimal(Expected(op, a, b))
  }

  // ---------------------------------------------------------------------
  // One step, concern by concern

  /** The overflow check of step `i`: skipped once an overflow is known and
      for non-arithmetic steps; a stack with fewer than two items panics;
      the last step has no next stack and is never reported; otherwise the
      top of the next step's stack is compared with the exact result. */
  function OverflowStep(logs: seq<StructLog>, i: nat, overflow: string): Result<string>
    requires i < |logs|
  {
    if overflow != "" || !IsArithmetic(logs[i].op) then Ok(overflow)
    else if |logs[i].stack| < 2 then Panic("index out of range")
    else if i == |logs| - 1 then Ok("")
    else if |logs[i + 1].stack| == 0 then Panic("index out of range")
    else
      var st := logs[i].stack;
      var a := st[|st| - 1];
      var b := st[|st| - 2];
      var result := logs[i + 1].stack[|logs[i + 1].stack| - 1];
      if result != Expected(logs[i].op, a, b) then Ok(OverflowMessage(logs[i].op, a, b, result)) else Ok("")
  }

  /** The minimum-depth update for the opcode `op`; -1 stands for none
      seen yet. */
  function MinDepthStep(acc: int, log: StructLog, op: Byte): int
  {
    if log.op == op && (acc == -1 || acc > log.depth) then log.depth else acc
  }

  /** `common.BigToAddress`: the low 20 bytes of the magnitude. */
  function BigToAddress(x: int): Address
  {
    (if x < 0 then -x else x) % 0x1_0000_0000_0000_0000_0000_0000_0000_0000_0000
  }

  /** The coverage update of step `i`: a deeper step pushes the callee, the
      item below the top of the previous step's stack; a shallower step
      pops; the step's program counter is recorded under the top of the
      call stack. Popping or reading an empty stack panics. */
  function CoverageStep(logs: seq<StructLog>, i: nat, callStack: seq<Address>, coverage: map<Address, set<nat>>)
    : (r: Result<(seq<Address>, map<Address, set<nat>>)>)
    requires i < |logs|
    ensures r.Ok? ==> && r.value.0 != []
                      && r.value.1 == coverage[r.value.0[|r.value.0| - 1] := CoveredAt(coverage, r.value.0[|r.value.0| - 1]) + {logs[i].pc}]
    ensures r.Ok? && i > 0 && logs[i].depth > logs[i - 1].depth ==> |r.value.0| == |callStack| + 1 && r.value.0[..|callStack|] == callStack
    ensures r.Ok? && i > 0 && logs[i].depth < logs[i - 1].depth ==> |r.value.0| == |callStack| - 1 && r.value.0 == callStack[..|callStack| - 1]
    ensures r.Ok? && (i == 0 || logs[i].depth == logs[i - 1].depth) ==> r.value.0 == callStack
  {
    var pushed :=
      if i > 0 && logs[i].depth > logs[i - 1].depth then
        (if |logs[i - 1].stack| < 2 then None
         else Some(callStack + [BigToAddress(logs[i - 1].stack[|logs[i - 1].stack| - 2])]))
      else Some(callStack);
    if pushed.None? then Panic("index out of range")
    else if i > 0 && logs[i].depth < logs[i - 1].depth && pushed.value == [] then Panic("slice bounds out of range")
    else
      var cs := if i > 0 && logs[i].depth < logs[i - 1].depth then pushed.value[..|pushed.value| - 1] else pushed.value;
      if cs == [] then Panic("index out of range")
      else
        var top := cs[|cs| - 1];
        Ok((cs, coverage[top := CoveredAt(coverage, top) + {logs[i].pc}]))
  }

  /** The program counters recorded for `a` (a missing entry is empty). */
  function CoveredAt(coverage: map<Address, set<nat>>, a: Address): set<nat>
  {
    if a in coverage then coverage[a] else {}
  }

  /** The deployment check of one step: at a RETURN whose memory holds a
      swarm hash, the contract with that hash gets `address` appended to
      its addresses (an unknown contract starts with none); a hash that
      names no contract panics. */
  function DeployStep(log: StructLog, deployed: map<string, Contract>, hashes: map<string, string>, address: Address)
    : (r: Result<map<string, Contract>>)
  {
    if log.op != OpReturn then Ok(deployed)
    else
      var h := GetSwarmHash(HexEncode(log.memory));
      if h.Panic? then Panic(h.reason)
      else if h.value.None? then Ok(deployed)
      else if h.value.value !in hashes then Panic("Contract with hash: " + h.value.value + " was not found")
      else
        var name := hashes[h.value.value];
        var old_ := if name in deployed then deployed[name] else Contract([], []);
        Ok(deployed[name := old_.(addresses := old_.addresses + [address])])
  }

  /** A stack value goes to the timestamp pool when it is a `uint64`
      strictly inside the window. */
  predicate InWindow(v: int)
  {
    0 <= v < 0x1_0000_0000_0000_0000 && EarliestTime < v < LatestTime
  }

  /** `t` is on the stack and inside the window. */
  predicate InStack(stack: seq<int>, t: int)
  {
    exists k :: 0 <= k < |stack| && InWindow(stack[k]) && stack[k] == t
  }

  /** The timestamp pool after the harvest of one stack, bottom first. */
  function TimestampsAdded(ts: seq<Int64>, stack: seq<int>): seq<Int64>
    decreases |stack|
  {
    if stack == [] then ts
    else TimestampsAdded(if InWindow(stack[0]) then GuardedAddTimestamp(ts, stack[0]) else ts, stack[1..])
  }

  // ---------------------------------------------------------------------
  // The whole pass, concern by concern

  /** Every concern of the loop reads only its own state and the trace,
      so the pass is five independent folds over the steps; the pass
      panics exactly when one of them does. */

  /** The overflow message after the first `n` steps. */
  function OverflowRun(logs: seq<StructLog>, n: nat): Result<string>
    requires n <= |logs|
  {
    if n == 0 then Ok("")
    else
      var r := OverflowRun(logs, n - 1);
      if r.Panic? then r else OverflowStep(logs, n - 1, r.value)
  }

  /** The minimum depth of an `op` step among the first `n`, -1 for none. */
  function MinDepthRun(logs: seq<StructLog>, n: nat, op: Byte): int
    requires n <= |logs|
  {
    if n == 0 then -1 else MinDepthStep(MinDepthRun(logs, n - 1, op), logs[n - 1], op)
  }

  /** The call stack and the coverage table after the first `n` steps. */
  function CoverageRun(logs: seq<StructLog>, n: nat, cs0: seq<Address>, cov0: map<Address, set<nat>>)
    : Result<(seq<Address>, map<Address, set<nat>>)>
    requires n <= |logs|
  {
    if n == 0 then Ok((cs0, cov0))
    else
      var r := CoverageRun(logs, n - 1, cs0, cov0);
      if r.Panic? then r else CoverageStep(logs, n - 1, r.value.0, r.value.1)
  }

  /** The deployed contracts after the first `n` steps. */
  function DeployRun(logs: seq<StructLog>, n: nat, hashes: map<string, string>, address: Address,
                     d0: map<string, Contract>): Result<map<string, Contract>>
    requires n <= |logs|
  {
    if n == 0 then Ok(d0)
    else
      var r := DeployRun(logs, n - 1, hashes, address, d0);
      if r.Panic? then r else DeployStep(logs[n - 1], r.value, hashes, address)
  }

  /** The timestamp pool after the harvest of the first `n` stacks. */
  function TimestampRun(logs: seq<StructLog>, n: nat, ts0: seq<Int64>): seq<Int64>
    requires n <= |logs|
  {
    if n == 0 then ts0 else TimestampsAdded(TimestampRun(logs, n - 1, ts0), logs[n - 1].stack)
  }

  /** `processLogs`'s options; a nil `*Options` is `None`. */
  datatype Options = Options(updateCoverage: bool, checkDeployedContract: bool, updateArgPool: bool,
                             extractTimestamps: bool)

  /** The settings of one pass: which concerns run, the metadata's hash
      table and the address a deployment creates. */
  datatype Config = Config(
    extractTimestamps: bool, updateCoverage: bool, checkDeployedContract: bool,
    hashes: map<string, string>, deployAddress: Address)

  /** The settings `processLogs` derives from its options: a nil `options`
      checks deployments and updates coverage; coverage needs a callee. */
  function ConfigOf(options: Option<Options>, to: Option<Address>, hashes: map<string, string>, deployAddress: Address)
    : (c: Config)
    ensures c.checkDeployedContract <==> options.None? || options.value.checkDeployedContract
    ensures c.updateCoverage <==> (options.None? || options.value.updateCoverage) && to.Some?
    ensures c.extractTimestamps <==> options.Some? && options.value.extractTimestamps
  {
    Config(options.Some? && options.value.extractTimestamps,
           (options.None? || options.value.updateCoverage) && to.Some?,
           options.None? || options.value.checkDeployedContract,
           hashes, deployAddress)
  }

  /** What a pass that does not panic leaves behind. */
  datatype Outcome = Outcome(
    assertionAtDepth: int, revertAtDepth: int, overflow: string,
    coverage: map<Address, set<nat>>, deployed: map<string, Contract>, timestamps: seq<Int64>)

  /** The timestamp pool after `n` steps: harvested only with
      `ExtractTimestamps`. */
  function TimestampsSoFar(c: Config, logs: seq<StructLog>, n: nat, ts0: seq<Int64>): seq<Int64>
    requires n <= |logs|
  {
    if c.extractTimestamps then TimestampRun(logs, n, ts0) else ts0
  }

  /** The call stack and coverage after `n` steps: updated only with
      `UpdateCoverage`. */
  function CoverageSoFar(c: Config, logs: seq<StructLog>, n: nat, callee: Address, cov0: map<Address, set<nat>>)
    : Result<(seq<Address>, map<Address, set<nat>>)>
    requires n <= |logs|
  {
    if c.updateCoverage then CoverageRun(logs, n, [callee], cov0) else Ok(([callee], cov0))
  }

  /** The deployed contracts after `n` steps: updated only with
      `CheckDeployedContract`. */
  function DeploySoFar(c: Config, logs: seq<StructLog>, n: nat, d0: map<string, Contract>): Result<map<string, Contract>>
    requires n <= |logs|
  {
    if c.checkDeployedContract then DeployRun(logs, n, c.hashes, c.deployAddress, d0) else Ok(d0)
  }

  /** The whole pass over `logs`, from the coverage table `cov0`, the
      deployed contracts `d0` and the timestamp pool `ts0`, with `callee`
      the first entry of the call stack. */
  function Analyse(c: Config, logs: seq<StructLog>, callee: Address, cov0: map<Address, set<nat>>,
                   d0: map<string, Contract>, ts0: seq<Int64>): Result<Outcome>
  {
    var ov := OverflowRun(logs, |logs|);
    var cv := CoverageSoFar(c, logs, |logs|, callee, cov0);
    var dp := DeploySoFar(c, logs, |logs|, d0);
    if ov.Panic? || cv.Panic? || dp.Panic? then Panic("runtime error")
    else Ok(Outcome(
      MinDepthRun(logs, |logs|, OpInvalid), MinDepthRun(logs, |logs|, OpRevert), ov.value,
      cv.value.1, dp.value, TimestampsSoFar(c, logs, |logs|, ts0)))
  }

  /** A fold that panicked stays panicked. */
  lemma {:induction false} OverflowRunPanicked(logs: seq<StructLog>, i: nat, n: nat)
    requires i <= n <= |logs| && OverflowRun(logs, i).Panic?
    ensures OverflowRun(logs, n).Panic?
    decreases n
  {
    if i < n {
      OverflowRunPanicked(logs, i, n - 1);
    }
  }

  lemma {:induction false} CoverageRunPanicked(logs: seq<StructLog>, i: nat, n: nat, cs0: seq<Address>, cov0: map<Address, set<nat>>)
    requires i <= n <= |logs| && CoverageRun(logs, i, cs0, cov0).Panic?
    ensures CoverageRun(logs, n, cs0, cov0).Panic?
    decreases n
  {
    if i < n {
      CoverageRunPanicked(logs, i, n - 1, cs0, cov0);
    }
  }

  lemma {:induction false} DeployRunPanicked(logs: seq<StructLog>, i: nat, n: nat, hashes: map<string, string>,
                                             address: Address, d0: map<string, Contract>)
    requires i <= n <= |logs| && DeployRun(logs, i, hashes, address, d0).Panic?
    ensures DeployRun(logs, n, hashes, address, d0).Panic?
    decreases n
  {
    if i < n {
      DeployRunPanicked(logs, i, n - 1, hashes, address, d0);
    }
  }

  // ---------------------------------------------------------------------
  // What the overflow check detects

  /** For EVM words, the exact result differs from the EVM's wrapped one
      exactly when it leaves the word range: an ADD or a MUL that reaches
      2^256, or a SUB whose second operand is larger. */
  lemma DetectsWrapAround(op: Byte, a: int, b: int)
    requires IsArithmetic(op)
    requires 0 <= a < WordSize && 0 <= b < WordSize
    ensures WordResult(op, a, b) != Expected(op, a, b) <==> !(0 <= Expected(op, a, b) < WordSize)
    ensures op == OpAdd ==> (WordResult(op, a, b) != Expected(op, a, b) <==> a + b >= WordSize)
    ensures op == OpSub ==> (WordResult(op, a, b) != Expected(op, a, b) <==> a < b)
    ensures op == OpMul ==> (WordResult(op, a, b) != Expected(op, a, b) <==> a * b >= WordSize)
  {
    var e := Expected(op, a, b);
    if 0 <= e < WordSize {
      assert e % WordSize == e;
    }
    if op == OpMul {
      assert a * b >= 0 by {
        MulNonNegative(a, b);
      }
    }
  }

  lemma MulNonNegative(a: int, b: int)
    requires a >= 0 && b >= 0
    ensures a * b >= 0
  {
  }

  /** Step `i` is an arithmetic step, not the last one, whose next stack
      top differs from the exact result. */
  ghost predicate OverflowAt(logs: seq<StructLog>, i: int)
  {
    && 0 <= i < |logs| - 1
    && IsArithmetic(logs[i].op)
    && |logs[i].stack| >= 2 && |logs[i + 1].stack| >= 1
    && logs[i + 1].stack[|logs[i + 1].stack| - 1]
       != Expected(logs[i].op, logs[i].stack[|logs[i].stack| - 1], logs[i].stack[|logs[i].stack| - 2])
  }

  /** The message recorded for the overflow at step `i`. */
  ghost function MessageAt(logs: seq<StructLog>, i: int): string
    requires OverflowAt(logs, i)
  {
    OverflowMessage(logs[i].op, logs[i].stack[|logs[i].stack| - 1], logs[i].stack[|logs[i].stack| - 2],
                    logs[i + 1].stack[|logs[i + 1].stack| - 1])
  }

  /** The recorded overflow is the one at the first overflowing step, and
      "" when no step overflows; so a later step never overwrites it and
      the last step of the trace is never reported. */
  lemma {:induction false} OverflowRunFirst(logs: seq<StructLog>, n: nat)
    requires n <= |logs| && OverflowRun(logs, n).Ok?
    ensures var o := OverflowRun(logs, n).value;
            && (o == "" <==> forall i :: 0 <= i < n ==> !OverflowAt(logs, i))
            && (o != "" ==>
                 exists i :: && 0 <= i < n && i < |logs| - 1 && OverflowAt(logs, i) && o == MessageAt(logs, i)
                             && forall j :: 0 <= j < i ==> !OverflowAt(logs, j))
  {
    if n > 0 {
      OverflowRunFirst(logs, n - 1);
      var p := OverflowRun(logs, n - 1).value;
      var o := OverflowRun(logs, n).value;
      if p == "" {
        if o != "" {
          assert OverflowAt(logs, n - 1) && o == MessageAt(logs, n - 1);
        } else {
          assert !OverflowAt(logs, n - 1);
        }
      }
    }
  }

  /** Before any overflow is found, an arithmetic step on fewer than two
      stack items, or one followed by an empty stack, panics. */
  lemma OverflowRunShortStack(logs: seq<StructLog>, i: nat)
    requires i < |logs| && OverflowRun(logs, i) == Ok("") && IsArithmetic(logs[i].op)
    requires |logs[i].stack| < 2 || (i < |logs| - 1 && |logs[i + 1].stack| == 0)
    ensures OverflowRun(logs, i + 1).Panic?
  {
  }

  // ---------------------------------------------------------------------
  // Minimum depths

  /** `d` is -1 when no step among the first `n` has opcode `op`, and
      otherwise the smallest depth of such a step. */
  ghost predicate IsMinDepth(logs: seq<StructLog>, n: nat, op: Byte, d: int)
    requires n <= |logs|
  {
    && (d == -1 <==> forall i :: 0 <= i < n ==> logs[i].op != op)
    && (d != -1 ==> exists i :: 0 <= i < n && logs[i].op == op && logs[i].depth == d)
    && (forall i :: 0 <= i < n && logs[i].op == op ==> d <= logs[i].depth)
  }

  lemma MinDepthStepKeeps(logs: seq<StructLog>, n: nat, op: Byte, d: int)
    requires n < |logs| && IsMinDepth(logs, n, op, d)
    ensures IsMinDepth(logs, n + 1, op, MinDepthStep(d, logs[n], op))
  {
  }

  /** `AssertionAtDepth` and `RevertAtDepth` end as the minimum depth of an
      INVALID and of a REVERT step, or -1 when there is none. */
  lemma {:induction false} MinDepthRunCorrect(logs: seq<StructLog>, n: nat, op: Byte)
    requires n <= |logs|
    ensures IsMinDepth(logs, n, op, MinDepthRun(logs, n, op))
  {
    if n > 0 {
      MinDepthRunCorrect(logs, n - 1, op);
      MinDepthStepKeeps(logs, n - 1, op, MinDepthRun(logs, n - 1, op));
    }
  }

  // ---------------------------------------------------------------------
  // Timestamps

  /** A timestamp add leaves exactly the old items and the new one. */
  lemma GuardedAddTimestampMembers(ts: seq<Int64>, x: Uint64)
    ensures forall t :: t in GuardedAddTimestamp(ts, x) <==> t in ts || t == ToInt64(x)
  {
    if ToInt64(x) !in ts {
      var u := ts + [ToInt64(x)];
      SortByKeyCorrect(u);
      forall t
        ensures t in SortByKey(u) <==> t in u
      {
        assert t in SortByKey(u) <==> t in multiset(SortByKey(u));
        assert t in u <==> t in multiset(u);
      }
    }
  }

  /** A stack harvest adds exactly the stack's values inside the window. */
  lemma {:induction false} TimestampsAddedMembers(ts: seq<Int64>, stack: seq<int>)
    ensures forall t :: t in TimestampsAdded(ts, stack) <==> t in ts || InStack(stack, t)
    decreases |stack|
  {
    if stack != [] {
      var ts1 := if InWindow(stack[0]) then GuardedAddTimestamp(ts, stack[0]) else ts;
      if InWindow(stack[0]) {
        GuardedAddTimestampMembers(ts, stack[0]);
      }
      TimestampsAddedMembers(ts1, stack[1..]);
      forall t
        ensures (t in ts || InStack(stack, t)) <==> (t in ts1 || InStack(stack[1..], t))
      {
        if InStack(stack, t) {
          var k :| 0 <= k < |stack| && InWindow(stack[k]) && stack[k] == t;
          if k > 0 {
            assert stack[1..][k - 1] == t;
          }
        }
        if InStack(stack[1..], t) {
          var k :| 0 <= k < |stack[1..]| && InWindow(stack[1..][k]) && stack[1..][k] == t;
          assert stack[k + 1] == t;
        }
      }
    }
  }

  /** Some step among the first `n` has `t` on its stack, inside the
      window. */
  ghost predicate HarvestedFrom(logs: seq<StructLog>, n: nat, t: int)
    requires n <= |logs|
  {
    exists i :: 0 <= i < n && InStack(logs[i].stack, t)
  }

  /** The pool gains exactly the stack values strictly inside the window. */
  lemma {:induction false} TimestampRunMembers(logs: seq<StructLog>, n: nat, ts0: seq<Int64>)
    requires n <= |logs|
    ensures forall t :: t in TimestampRun(logs, n, ts0) <==> t in ts0 || HarvestedFrom(logs, n, t)
  {
    if n > 0 {
      TimestampRunMembers(logs, n - 1, ts0);
      TimestampsAddedMembers(TimestampRun(logs, n - 1, ts0), logs[n - 1].stack);
      forall t
        ensures t in TimestampRun(logs, n, ts0) <==> t in ts0 || HarvestedFrom(logs, n, t)
      {
        if HarvestedFrom(logs, n, t) {
          var i :| 0 <= i < n && InStack(logs[i].stack, t);
          if i < n - 1 {
            assert HarvestedFrom(logs, n - 1, t);
          }
        }
        if HarvestedFrom(logs, n - 1, t) {
          var i :| 0 <= i < n - 1 && InStack(logs[i].stack, t);
          assert HarvestedFrom(logs, n, t);
        }
      }
    }
  }

  // ---------------------------------------------------------------------
  // Coverage

  /** No address of `a` loses a program counter in `b`. */
  ghost predicate CoverageGrew(a: map<Address, set<nat>>, b: map<Address, set<nat>>)
  {
    forall x :: x in a ==> x in b && a[x] <= b[x]
  }

  lemma CoverageGrewCovered(a: map<Address, set<nat>>, b: map<Address, set<nat>>, x: Address)
    requires CoverageGrew(a, b)
    ensures CoveredAt(a, x) <= CoveredAt(b, x)
  {
  }

  lemma CoverageStepGrows(logs: seq<StructLog>, i: nat, callStack: seq<Address>, coverage: map<Address, set<nat>>)
    requires i < |logs| && CoverageStep(logs, i, callStack, coverage).Ok?
    ensures CoverageGrew(coverage, CoverageStep(logs, i, callStack, coverage).value.1)
  {
    var r := CoverageStep(logs, i, callStack, coverage).value;
    var top := r.0[|r.0| - 1];
    assert r.1 == coverage[top := CoveredAt(coverage, top) + {logs[i].pc}];
  }

  /** Coverage only grows: no address loses a program counter. */
  lemma {:induction false} CoverageRunGrows(logs: seq<StructLog>, n: nat, cs0: seq<Address>, cov0: map<Address, set<nat>>)
    requires n <= |logs| && CoverageRun(logs, n, cs0, cov0).Ok?
    ensures CoverageGrew(cov0, CoverageRun(logs, n, cs0, cov0).value.1)
  {
    if n > 0 {
      CoverageRunGrows(logs, n - 1, cs0, cov0);
      var p := CoverageRun(logs, n - 1, cs0, cov0).value;
      CoverageStepGrows(logs, n - 1, p.0, p.1);
    }
  }

  /** Step `i` ran with a non-empty call stack whose top, the executing
      contract, has the step's program counter recorded in `coverage`. */
  ghost predicate ExecutedBy(logs: seq<StructLog>, i: nat, cs0: seq<Address>, cov0: map<Address, set<nat>>,
                             coverage: map<Address, set<nat>>)
    requires i < |logs|
  {
    var r := CoverageRun(logs, i + 1, cs0, cov0);
    && r.Ok? && r.value.0 != []
    && logs[i].pc in CoveredAt(coverage, r.value.0[|r.value.0| - 1])
  }

  /** Every step's program counter is recorded under the contract that
      executed it. */
  lemma {:induction false} CoverageRunRecords(logs: seq<StructLog>, n: nat, cs0: seq<Address>, cov0: map<Address, set<nat>>)
    requires n <= |logs| && CoverageRun(logs, n, cs0, cov0).Ok?
    ensures forall i :: 0 <= i < n ==> ExecutedBy(logs, i, cs0, cov0, CoverageRun(logs, n, cs0, cov0).value.1)
  {
    if n > 0 {
      var p := CoverageRun(logs, n - 1, cs0, cov0).value;
      var s := CoverageRun(logs, n, cs0, cov0).value;
      CoverageRunRecords(logs, n - 1, cs0, cov0);
      CoverageStepGrows(logs, n - 1, p.0, p.1);
      forall i | 0 <= i < n
        ensures ExecutedBy(logs, i, cs0, cov0, s.1)
      {
        if i < n - 1 {
          assert ExecutedBy(logs, i, cs0, cov0, p.1);
          var r := CoverageRun(logs, i + 1, cs0, cov0).value;
          CoverageGrewCovered(p.1, s.1, r.0[|r.0| - 1]);
        }
      }
    }
  }

  /** Some step among the first `n` has program counter `pc`. */
  ghost predicate StepHasPc(logs: seq<StructLog>, n: nat, pc: nat)
    requires n <= |logs|
  {
    exists i :: 0 <= i < n && logs[i].pc == pc
  }

  /** `next` records what `prev` records and at most the program counter
      `pc`. */
  ghost predicate AddsOnlyPc(prev: map<Address, set<nat>>, next: map<Address, set<nat>>, pc: nat)
  {
    forall a, q :: a in next && q in next[a] ==> (a in prev && q in prev[a]) || q == pc
  }

  /** A coverage step records nothing but the step's program counter. */
  lemma CoverageStepSound(logs: seq<StructLog>, i: nat, callStack: seq<Address>, coverage: map<Address, set<nat>>)
    requires i < |logs| && CoverageStep(logs, i, callStack, coverage).Ok?
    ensures AddsOnlyPc(coverage, CoverageStep(logs, i, callStack, coverage).value.1, logs[i].pc)
  {
    var r := CoverageStep(logs, i, callStack, coverage).value;
    var top := r.0[|r.0| - 1];
    assert r.1 == coverage[top := CoveredAt(coverage, top) + {logs[i].pc}];
  }

  /** Every program counter recorded in `coverage` was recorded in `cov0`
      or belongs to one of the first `n` steps. */
  ghost predicate RecordedSoundly(logs: seq<StructLog>, n: nat, cov0: map<Address, set<nat>>, coverage: map<Address, set<nat>>)
    requires n <= |logs|
  {
    forall a, pc :: a in coverage && pc in coverage[a] ==> (a in cov0 && pc in cov0[a]) || StepHasPc(logs, n, pc)
  }

  lemma RecordedSoundlyStep(logs: seq<StructLog>, n: nat, cov0: map<Address, set<nat>>,
                            prev: map<Address, set<nat>>, next: map<Address, set<nat>>)
    requires 0 < n <= |logs|
    requires RecordedSoundly(logs, n - 1, cov0, prev) && AddsOnlyPc(prev, next, logs[n - 1].pc)
    ensures RecordedSoundly(logs, n, cov0, next)
  {
    forall a, pc | a in next && pc in next[a]
      ensures (a in cov0 && pc in cov0[a]) || StepHasPc(logs, n, pc)
    {
      if pc == logs[n - 1].pc {
        assert StepHasPc(logs, n, pc);
      } else if StepHasPc(logs, n - 1, pc) {
        var i :| 0 <= i < n - 1 && logs[i].pc == pc;
        assert StepHasPc(logs, n, pc);
      }
    }
  }

  /** Every recorded program counter was recorded before the pass or
      belongs to one of its steps. */
  lemma {:induction false} CoverageRunSound(logs: seq<StructLog>, n: nat, cs0: seq<Address>, cov0: map<Address, set<nat>>)
    requires n <= |logs| && CoverageRun(logs, n, cs0, cov0).Ok?
    ensures RecordedSoundly(logs, n, cov0, CoverageRun(logs, n, cs0, cov0).value.1)
  {
    if n > 0 {
      var p := CoverageRun(logs, n - 1, cs0, cov0).value;
      CoverageRunSound(logs, n - 1, cs0, cov0);
      CoverageStepSound(logs, n - 1, p.0, p.1);
      RecordedSoundlyStep(logs, n, cov0, p.1, CoverageRun(logs, n, cs0, cov0).value.1);
    }
  }

  // ---------------------------------------------------------------------
  // Deployments

  /** A contract's entry, or an empty one. */
  function ContractOr(deployed: map<string, Contract>, name: string): Contract
  {
    if name in deployed then deployed[name] else Contract([], [])
  }

  /** `b` is `a` with zero or more copies of `address` appended to some
      contracts' addresses (new contracts start empty), and nothing else
      changed. */
  ghost predicate AppendedOnly(a: map<string, Contract>, b: map<string, Contract>, address: Address)
  {
    && a.Keys <= b.Keys
    && (forall name :: name in b ==>
          && b[name].methods == ContractOr(a, name).methods
          && IsPrefix(ContractOr(a, name).addresses, b[name].addresses)
          && forall k :: |ContractOr(a, name).addresses| <= k < |b[name].addresses| ==> b[name].addresses[k] == address)
  }

  lemma AppendedOnlyReflexive(a: map<string, Contract>, address: Address)
    ensures AppendedOnly(a, a, address)
  {
    forall name | name in a
      ensures IsPrefix(ContractOr(a, name).addresses, a[name].addresses)
    {
      assert a[name].addresses[..|a[name].addresses|] == a[name].addresses;
    }
  }

  lemma AppendedOnlyTransitive(a: map<string, Contract>, b: map<string, Contract>, c: map<string, Contract>, address: Address)
    requires AppendedOnly(a, b, address) && AppendedOnly(b, c, address)
    ensures AppendedOnly(a, c, address)
  {
    forall name | name in c
      ensures && c[name].methods == ContractOr(a, name).methods
              && IsPrefix(ContractOr(a, name).addresses, c[name].addresses)
              && forall k :: |ContractOr(a, name).addresses| <= k < |c[name].addresses| ==> c[name].addresses[k] == address
    {
      var x := ContractOr(a, name).addresses;
      var y := ContractOr(b, name).addresses;
      var z := c[name].addresses;
      assert IsPrefix(x, y);
      PrefixTransitive(x, y, z);
      forall k | |x| <= k < |z|
        ensures z[k] == address
      {
        if k < |y| {
          assert z[k] == z[..|y|][k];
        }
      }
    }
  }

  /** A deployment step appends exactly one address, the deployed one, to
      one contract, and changes nothing else. */
  lemma DeployStepAppends(log: StructLog, deployed: map<string, Contract>, hashes: map<string, string>, address: Address)
    requires DeployStep(log, deployed, hashes, address).Ok?
    ensures var d := DeployStep(log, deployed, hashes, address).value;
            && AppendedOnly(deployed, d, address)
            && (d == deployed || exists name :: d == deployed[name := ContractOr(deployed, name).(addresses := ContractOr(deployed, name).addresses + [address])])
            && (log.op != OpReturn ==> d == deployed)
  {
    var d := DeployStep(log, deployed, hashes, address).value;
    if d != deployed {
      var h := GetSwarmHash(HexEncode(log.memory));
      var name := hashes[h.value.value];
      var old_ := ContractOr(deployed, name);
      assert d == deployed[name := old_.(addresses := old_.addresses + [address])];
      assert (old_.addresses + [address])[..|old_.addresses|] == old_.addresses;
    } else {
      AppendedOnlyReflexive(deployed, address);
    }
  }

  /** Deployments only append the deployed address to contracts' address
      lists. */
  lemma {:induction false} DeployRunAppends(logs: seq<StructLog>, n: nat, hashes: map<string, string>,
                                            address: Address, d0: map<string, Contract>)
    requires n <= |logs| && DeployRun(logs, n, hashes, address, d0).Ok?
    ensures AppendedOnly(d0, DeployRun(logs, n, hashes, address, d0).value, address)
  {
    if n == 0 {
      AppendedOnlyReflexive(d0, address);
    } else {
      var p := DeployRun(logs, n - 1, hashes, address, d0).value;
      DeployRunAppends(logs, n - 1, hashes, address, d0);
      DeployStepAppends(logs[n - 1], p, hashes, address);
      AppendedOnlyTransitive(d0, p, DeployRun(logs, n, hashes, address, d0).value, address);
    }
  }

  // ---------------------------------------------------------------------
  // The loop of `processLogs`, on the backend and the argument pool

  /** The harvest of one stack: every value that is a `uint64` strictly
      inside the window is added to the timestamp pool. */
  method HarvestTimestamps(stack: seq<int>, ap: ArgPool)
    requires ap.Valid()
    modifies ap.timestampPool`storage, ap.timestampPool`storageMap
    ensures ap.Valid()
    ensures ap.Contents() == old(ap.Contents()).(timestamps := TimestampsAdded(old(ap.Contents()).timestamps, stack))
  {
    for k := 0 to |stack|
      invariant ap.Valid()
      invariant ap.Contents() == old(ap.Contents()).(timestamps := ap.Contents().timestamps)
      invariant TimestampsAdded(ap.Contents().timestamps, stack[k..]) == TimestampsAdded(old(ap.Contents()).timestamps, stack)
    {
      assert stack[k..][0] == stack[k] && stack[k..][1..] == stack[k + 1..];
      var value := stack[k];
      if 0 <= value < 0x1_0000_0000_0000_0000 && value > EarliestTime && value < LatestTime {
        ap.AddTimestamp(value);
      }
    }
    assert stack[|stack|..] == [];
  }

  /** The overflow check of step `i`; `false` for a panic. */
  method CheckOverflow(b: Backend, logs: seq<StructLog>, i: nat) returns (ok: bool)
    requires i < |logs|
    modifies b`overflow
    ensures ok <==> OverflowStep(logs, i, old(b.overflow)).Ok?
    ensures ok ==> b.overflow == OverflowStep(logs, i, old(b.overflow)).value
  {
    if b.overflow == "" && IsArithmetic(logs[i].op) {
      var st := logs[i].stack;
      if |st| < 2 {
        return false;
      }
      var operandA := st[|st| - 1];
      var operandB := st[|st| - 2];
      if i < |logs| - 1 {
        var nextSt := logs[i + 1].stack;
        if |nextSt| == 0 {
          return false;
        }
        var result := nextSt[|nextSt| - 1];
        var expected := Expected(logs[i].op, operandA, operandB);
        if result != expected {
          b.overflow := OverflowMessage(logs[i].op, operandA, operandB, result);
        }
      }
    }
    return true;
  }

  /** The coverage update of step `i` on the call stack `cs`: the new call
      stack, or the panic. */
  method UpdateCoverageAt(b: Backend, logs: seq<StructLog>, i: nat, cs: seq<Address>) returns (r: Result<seq<Address>>)
    requires i < |logs|
    modifies b`opcodeIndices
    ensures r.Ok? <==> CoverageStep(logs, i, cs, old(b.opcodeIndices)).Ok?
    ensures r.Ok? ==> CoverageStep(logs, i, cs, old(b.opcodeIndices)).value == (r.value, b.opcodeIndices)
  {
    var st := cs;
    if i > 0 {
      if logs[i].depth > logs[i - 1].depth {
        var prevStack := logs[i - 1].stack;
        if |prevStack| < 2 {
          return Panic("index out of range");
        }
        st := st + [BigToAddress(prevStack[|prevStack| - 2])];
      }
      if logs[i].depth < logs[i - 1].depth {
        if st == [] {
          return Panic("slice bounds out of range");
        }
        st := st[..|st| - 1];
      }
    }
    if st == [] {
      return Panic("index out of range");
    }
    var top := st[|st| - 1];
    if top !in b.opcodeIndices {
      b.opcodeIndices := b.opcodeIndices[top := {}];
    }
    b.opcodeIndices := b.opcodeIndices[top := b.opcodeIndices[top] + {logs[i].pc}];
    assert b.opcodeIndices == old(b.opcodeIndices)[top := CoveredAt(old(b.opcodeIndices), top) + {logs[i].pc}];
    return Ok(st);
  }

  /** The deployment check of one step; `false` for a panic. */
  method DetectDeployment(b: Backend, log: StructLog, hashes: map<string, string>, deployAddress: Address) returns (ok: bool)
    modifies b`deployedContracts
    ensures ok <==> DeployStep(log, old(b.deployedContracts), hashes, deployAddress).Ok?
    ensures ok ==> b.deployedContracts == DeployStep(log, old(b.deployedContracts), hashes, deployAddress).value
  {
    if log.op != OpReturn {
      return true;
    }
    var hash := GetSwarmHash(HexEncode(log.memory));
    if hash.Panic? {
      return false;
    }
    if hash.value.None? {
      return true;
    }
    if hash.value.value !in hashes {
      return false;
    }
    var name := hashes[hash.value.value];
    if name !in b.deployedContracts {
      b.deployedContracts := b.deployedContracts[name := Contract([], [])];
    }
    var entry := b.deployedContracts[name];
    b.deployedContracts := b.deployedContracts[name := entry.(addresses := entry.addresses + [deployAddress])];
    return true;
  }

  /** What the pass left in the backend's result fields, its coverage and
      deployment tables, and the pool's timestamps. */
  ghost function Observed(b: Backend, ap: ArgPool): Outcome
    reads b`assertionAtDepth, b`revertAtDepth, b`overflow, b`opcodeIndices, b`deployedContracts, ap.timestampPool`storage
  {
    Outcome(b.assertionAtDepth, b.revertAtDepth, b.overflow, b.opcodeIndices, b.deployedContracts, ap.timestampPool.storage)
  }

  /** The timestamp harvest, the overflow check and the depth updates of
      step `i`; `false` for a panic. */
  method StepEarly(b: Backend, ap: ArgPool, c: Config, logs: seq<StructLog>, i: nat, ghost s0: Stores) returns (ok: bool)
    requires i < |logs| && ap.Valid()
    requires OverflowRun(logs, i) == Ok(b.overflow)
    requires b.assertionAtDepth == MinDepthRun(logs, i, OpInvalid) && b.revertAtDepth == MinDepthRun(logs, i, OpRevert)
    requires ap.Contents() == s0.(timestamps := TimestampsSoFar(c, logs, i, s0.timestamps))
    modifies b`overflow, b`assertionAtDepth, b`revertAtDepth, ap.timestampPool`storage, ap.timestampPool`storageMap
    ensures ap.Valid()
    ensures ap.Contents() == s0.(timestamps := TimestampsSoFar(c, logs, i + 1, s0.timestamps))
    ensures ok <==> OverflowRun(logs, i + 1).Ok?
    ensures ok ==> OverflowRun(logs, i + 1) == Ok(b.overflow)
    ensures ok ==> b.assertionAtDepth == MinDepthRun(logs, i + 1, OpInvalid) && b.revertAtDepth == MinDepthRun(logs, i + 1, OpRevert)
  {
    var structLog := logs[i];
    if c.extractTimestamps {
      HarvestTimestamps(structLog.stack, ap);
    }
    ok := CheckOverflow(b, logs, i);
    if !ok {
      return;
    }
    if structLog.op == OpInvalid && (b.assertionAtDepth == -1 || b.assertionAtDepth > structLog.depth) {
      b.assertionAtDepth := structLog.depth;
    }
    if structLog.op == OpRevert && (b.revertAtDepth == -1 || b.revertAtDepth > structLog.depth) {
      b.revertAtDepth := structLog.depth;
    }
  }

  /** The coverage update and the deployment check of step `i`: the new
      call stack, or the panic. */
  method StepLate(b: Backend, c: Config, logs: seq<StructLog>, i: nat, cs: seq<Address>, callee: Address,
                  ghost cov0: map<Address, set<nat>>, ghost d0: map<string, Contract>) returns (r: Result<seq<Address>>)
    requires i < |logs|
    requires CoverageSoFar(c, logs, i, callee, cov0) == Ok((cs, b.opcodeIndices))
    requires DeploySoFar(c, logs, i, d0) == Ok(b.deployedContracts)
    modifies b`opcodeIndices, b`deployedContracts
    ensures r.Ok? <==> CoverageSoFar(c, logs, i + 1, callee, cov0).Ok? && DeploySoFar(c, logs, i + 1, d0).Ok?
    ensures r.Ok? ==> CoverageSoFar(c, logs, i + 1, callee, cov0) == Ok((r.value, b.opcodeIndices))
    ensures r.Ok? ==> DeploySoFar(c, logs, i + 1, d0) == Ok(b.deployedContracts)
  {
    r := Ok(cs);
    if c.updateCoverage {
      r := UpdateCoverageAt(b, logs, i, cs);
      if r.Panic? {
        return;
      }
    }
    if c.checkDeployedContract {
      var ok := DetectDeployment(b, logs[i], c.hashes, c.deployAddress);
      if !ok {
        return Panic("contract not found");
      }
    }
  }

  /** One iteration of the loop: the folds advance by step `i`, or one of
      them panics at it. */
  method ProcessStep(b: Backend, ap: ArgPool, c: Config, logs: seq<StructLog>, i: nat, cs: seq<Address>, callee: Address,
                     ghost s0: Stores, ghost cov0: map<Address, set<nat>>, ghost d0: map<string, Contract>)
    returns (r: Result<seq<Address>>)
    requires i < |logs| && ap.Valid()
    requires OverflowRun(logs, i) == Ok(b.overflow)
    requires b.assertionAtDepth == MinDepthRun(logs, i, OpInvalid) && b.revertAtDepth == MinDepthRun(logs, i, OpRevert)
    requires CoverageSoFar(c, logs, i, callee, cov0) == Ok((cs, b.opcodeIndices))
    requires DeploySoFar(c, logs, i, d0) == Ok(b.deployedContracts)
    requires ap.Contents() == s0.(timestamps := TimestampsSoFar(c, logs, i, s0.timestamps))
    modifies b`overflow, b`assertionAtDepth, b`revertAtDepth, b`opcodeIndices, b`deployedContracts
    modifies ap.timestampPool`storage, ap.timestampPool`storageMap
    ensures r.Panic? <==> OverflowRun(logs, i + 1).Panic? || CoverageSoFar(c, logs, i + 1, callee, cov0).Panic?
                          || DeploySoFar(c, logs, i + 1, d0).Panic?
    ensures ap.Valid() && ap.Contents() == s0.(timestamps := ap.Contents().timestamps)
    ensures r.Ok? ==> && OverflowRun(logs, i + 1) == Ok(b.overflow)
                      && b.assertionAtDepth == MinDepthRun(logs, i + 1, OpInvalid)
                      && b.revertAtDepth == MinDepthRun(logs, i + 1, OpRevert)
                      && CoverageSoFar(c, logs, i + 1, callee, cov0) == Ok((r.value, b.opcodeIndices))
                      && DeploySoFar(c, logs, i + 1, d0) == Ok(b.deployedContracts)
                      && ap.Contents() == s0.(timestamps := TimestampsSoFar(c, logs, i + 1, s0.timestamps))
  {
    var ok := StepEarly(b, ap, c, logs, i, s0);
    if !ok {
      return Panic("index out of range");
    }
    r := StepLate(b, c, logs, i, cs, callee, cov0, d0);
  }

  /** The loop over the steps, from reset result fields; its outcome is
      `Analyse`'s. */
  method ProcessTrace(b: Backend, ap: ArgPool, c: Config, logs: seq<StructLog>, callee: Address) returns (r: Result<()>)
    requires ap.Valid()
    requires b.overflow == "" && b.assertionAtDepth == -1 && b.revertAtDepth == -1
    modifies b`overflow, b`assertionAtDepth, b`revertAtDepth, b`opcodeIndices, b`deployedContracts
    modifies ap.timestampPool`storage, ap.timestampPool`storageMap
    ensures ap.Valid()
    ensures r.Panic? <==> Analyse(c, logs, callee, old(b.opcodeIndices), old(b.deployedContracts), old(ap.Contents()).timestamps).Panic?
    ensures r.Ok? ==> Analyse(c, logs, callee, old(b.opcodeIndices), old(b.deployedContracts), old(ap.Contents()).timestamps)
                        == Ok(Observed(b, ap))
    ensures ap.Contents() == old(ap.Contents()).(timestamps := ap.Contents().timestamps)
  {
    ghost var s0 := ap.Contents();
    ghost var cov0 := b.opcodeIndices;
    ghost var d0 := b.deployedContracts;
    var cs := [callee];
    r := Ok(());
    for i := 0 to |logs|
      invariant ap.Valid()
      invariant OverflowRun(logs, i) == Ok(b.overflow)
      invariant b.assertionAtDepth == MinDepthRun(logs, i, OpInvalid) && b.revertAtDepth == MinDepthRun(logs, i, OpRevert)
      invariant CoverageSoFar(c, logs, i, callee, cov0) == Ok((cs, b.opcodeIndices))
      invariant DeploySoFar(c, logs, i, d0) == Ok(b.deployedContracts)
      invariant ap.Contents() == s0.(timestamps := TimestampsSoFar(c, logs, i, s0.timestamps))
    {
      var next := ProcessStep(b, ap, c, logs, i, cs, callee, s0, cov0, d0);
      if next.Panic? {
        if OverflowRun(logs, i + 1).Panic? {
          OverflowRunPanicked(logs, i + 1, |logs|);
        } else if CoverageSoFar(c, logs, i + 1, callee, cov0).Panic? {
          CoverageRunPanicked(logs, i + 1, |logs|, [callee], cov0);
        } else {
          DeployRunPanicked(logs, i + 1, |logs|, c.hashes, c.deployAddress, d0);
        }
        r := Panic(next.reason);
        break;
      }
      cs := next.value;
    }
    if r.Ok? {
      AnalyseOk(c, logs, callee, cov0, d0, s0.timestamps, Observed(b, ap), cs);
    }
  }

  /** A pass whose five folds end without a panic at the observed values
      has that outcome. */
  lemma AnalyseOk(c: Config, logs: seq<StructLog>, callee: Address, cov0: map<Address, set<nat>>,
                  d0: map<string, Contract>, ts0: seq<Int64>, o: Outcome, cs: seq<Address>)
    requires OverflowRun(logs, |logs|) == Ok(o.overflow)
    requires o.assertionAtDepth == MinDepthRun(logs, |logs|, OpInvalid) && o.revertAtDepth == MinDepthRun(logs, |logs|, OpRevert)
    requires CoverageSoFar(c, logs, |logs|, callee, cov0) == Ok((cs, o.coverage))
    requires DeploySoFar(c, logs, |logs|, d0) == Ok(o.deployed)
    requires o.timestamps == TimestampsSoFar(c, logs, |logs|, ts0)
    ensures Analyse(c, logs, callee, cov0, d0, ts0) == Ok(o)
  {
  }

  /** The pool after the return data of the transaction was harvested:
      with `UpdateArgPool` and a non-empty output, the unpacked values (if
      unpacking succeeded) are added. */
  ghost function AfterReturnData(s: Stores, options: Option<Options>, output: seq<Byte>, unpacked: Option<seq<Value>>): Stores
  {
    if options.Some? && options.value.updateArgPool && |output| > 0 && unpacked.Some? then HarvestAll(s, unpacked.value) else s
  }

  /** The callee the call stack starts with (any address when the
      transaction creates a contract: the stack is then never read). */
  function Callee(to: Option<Address>): Address
  {
    if to.Some? then to.value else 0
  }

  /** The outcome of `processLogs`: with a nil `options` its first step
      dereferences it and panics; otherwise the pass. */
  function ProcessOutcome(options: Option<Options>, to: Option<Address>, hashes: map<string, string>, deployAddress: Address,
                          logs: seq<StructLog>, cov0: map<Address, set<nat>>, d0: map<string, Contract>, ts0: seq<Int64>)
    : (r: Result<Outcome>)
    ensures options.None? && logs != [] ==> r.Panic?
  {
    if options.None? && logs != [] then Panic("invalid memory address or nil dereference")
    else Analyse(ConfigOf(options, to, hashes, deployAddress), logs, Callee(to), cov0, d0, ts0)
  }

  /** `processLogs`: stores the return data, harvests it into the pool,
      resets the result fields and analyses the trace. `unpacked` is what
      unpacking the return data against the last call's ABI gives, and
      `deployAddress` the address a deployment by this transaction
      creates. */
  method ProcessLogs(b: Backend, ap: ArgPool, to: Option<Address>, options: Option<Options>, logs: seq<StructLog>,
                     output: seq<Byte>, unpacked: Option<seq<Value>>, deployAddress: Address) returns (r: Result<()>)
    requires ap.Valid()
    modifies b`output, b`overflow, b`assertionAtDepth, b`revertAtDepth, b`opcodeIndices, b`deployedContracts
    modifies ap.int16Pool`storage, ap.int16Pool`storageMap, ap.int32Pool`storage, ap.int32Pool`storageMap
    modifies ap.int64Pool`storage, ap.int64Pool`storageMap, ap.bytes32Pool`storage, ap.bytes32Pool`storageMap
    modifies ap.addressPool`storage, ap.addressPool`storageMap, ap.bigIntPool`storage, ap.bigIntPool`storageMap
    modifies ap.stringPool`storage, ap.stringPool`storageMap, ap.timestampPool`storage, ap.timestampPool`storageMap
    ensures ap.Valid()
    ensures b.output == output
    ensures var s1 := AfterReturnData(old(ap.Contents()), options, output, unpacked);
            var a := ProcessOutcome(options, to, b.meta.contractHashes, deployAddress, logs,
                                    old(b.opcodeIndices), old(b.deployedContracts), s1.timestamps);
            && (r.Panic? <==> a.Panic?)
            && (r.Ok? ==> a == Ok(Observed(b, ap)) && ap.Contents() == s1.(timestamps := ap.Contents().timestamps))
  {
    StoreReturnData(b, ap, options, output, unpacked);
    r := AnalyseTrace(b, ap, to, options, logs, deployAddress);
  }

  /** The corpus `b` holds what `a` holds: the pools the return data is
      harvested into keep their items in place, possibly with more
      appended, the int8 pool is as it was, and the timestamp pool, which
      is kept sorted, keeps every timestamp. */
  ghost predicate Enriched(a: Stores, b: Stores)
  {
    && a.int8s == b.int8s
    && IsPrefix(a.int16s, b.int16s) && IsPrefix(a.int32s, b.int32s) && IsPrefix(a.int64s, b.int64s)
    && IsPrefix(a.bytes32s, b.bytes32s) && IsPrefix(a.addresses, b.addresses)
    && IsPrefix(a.bigInts, b.bigInts) && IsPrefix(a.strings, b.strings)
    && (forall x :: x in a.timestamps ==> x in b.timestamps)
  }

  lemma EnrichedTransitive(a: Stores, b: Stores, c: Stores)
    requires Enriched(a, b) && Enriched(b, c)
    ensures Enriched(a, c)
  {
    PrefixTransitive(a.int16s, b.int16s, c.int16s);
    PrefixTransitive(a.int32s, b.int32s, c.int32s);
    PrefixTransitive(a.int64s, b.int64s, c.int64s);
    PrefixTransitive(a.bytes32s, b.bytes32s, c.bytes32s);
    PrefixTransitive(a.addresses, b.addresses, c.addresses);
    PrefixTransitive(a.bigInts, b.bigInts, c.bigInts);
    PrefixTransitive(a.strings, b.strings, c.strings);
  }

  /** A pass of `processLogs` that does not panic only adds: the return
      data's harvest and the timestamps found in the trace to the corpus
      `s0`, program counters to the coverage table `cov0`. */
  lemma OutcomeEnriches(options: Option<Options>, to: Option<Address>, hashes: map<string, string>, deployAddress: Address,
                        logs: seq<StructLog>, cov0: map<Address, set<nat>>, d0: map<string, Contract>,
                        s0: Stores, output: seq<Byte>, unpacked: Option<seq<Value>>, o: Outcome)
    requires ProcessOutcome(options, to, hashes, deployAddress, logs, cov0, d0,
                            AfterReturnData(s0, options, output, unpacked).timestamps) == Ok(o)
    ensures Enriched(s0, AfterReturnData(s0, options, output, unpacked).(timestamps := o.timestamps))
    ensures CoverageGrew(cov0, o.coverage)
  {
    var s1 := AfterReturnData(s0, options, output, unpacked);
    if s1 != s0 {
      HarvestAllExtends(s0, unpacked.value);
    }
    var c := ConfigOf(options, to, hashes, deployAddress);
    assert Analyse(c, logs, Callee(to), cov0, d0, s1.timestamps) == Ok(o);
    if c.extractTimestamps {
      TimestampRunMembers(logs, |logs|, s1.timestamps);
    }
    if c.updateCoverage {
      CoverageRunGrows(logs, |logs|, [Callee(to)], cov0);
    }
  }

  /** The rest of `processLogs`: the analysis of the trace, from reset
      result fields. */
  method AnalyseTrace(b: Backend, ap: ArgPool, to: Option<Address>, options: Option<Options>, logs: seq<StructLog>,
                      deployAddress: Address) returns (r: Result<()>)
    requires b.overflow == "" && b.assertionAtDepth == -1 && b.revertAtDepth == -1
    requires ap.Valid()
    modifies b`overflow, b`assertionAtDepth, b`revertAtDepth, b`opcodeIndices, b`deployedContracts
    modifies ap.timestampPool`storage, ap.timestampPool`storageMap
    ensures ap.Valid()
    ensures var a := ProcessOutcome(options, to, b.meta.contractHashes, deployAddress, logs,
                                    old(b.opcodeIndices), old(b.deployedContracts), old(ap.Contents()).timestamps);
            && (r.Panic? <==> a.Panic?)
            && (r.Ok? ==> a == Ok(Observed(b, ap)))
    ensures ap.Contents() == old(ap.Contents()).(timestamps := ap.Contents().timestamps)
  {
    if options.None? && |logs| > 0 {
      return Panic("invalid memory address or nil dereference");
    }
    var c := ConfigOf(options, to, b.meta.contractHashes, deployAddress);
    r := ProcessTrace(b, ap, c, logs, Callee(to));
  }

  /** The prologue of `processLogs`: the return data is stored and, with
      `UpdateArgPool`, harvested into the pool; then the result fields are
      reset (no INVALID, no REVERT, no overflow seen yet). */
  method StoreReturnData(b: Backend, ap: ArgPool, options: Option<Options>, output: seq<Byte>, unpacked: Option<seq<Value>>)
    requires ap.Valid()
    modifies b`output, b`overflow, b`assertionAtDepth, b`revertAtDepth
    modifies ap.int16Pool`storage, ap.int16Pool`storageMap, ap.int32Pool`storage, ap.int32Pool`storageMap
    modifies ap.int64Pool`storage, ap.int64Pool`storageMap, ap.bytes32Pool`storage, ap.bytes32Pool`storageMap
    modifies ap.addressPool`storage, ap.addressPool`storageMap, ap.bigIntPool`storage, ap.bigIntPool`storageMap
    modifies ap.stringPool`storage, ap.stringPool`storageMap
    ensures ap.Valid()
    ensures b.output == output
    ensures ap.Contents() == AfterReturnData(old(ap.Contents()), options, output, unpacked)
    ensures b.overflow == "" && b.assertionAtDepth == -1 && b.revertAtDepth == -1
  {
    b.output := output;
    var updateArgPool := options.Some? && options.value.updateArgPool;
    if updateArgPool && |b.output| > 0 {
      UpdatePool(unpacked, ap);
    }
    b.assertionAtDepth := -1;
    b.revertAtDepth := -1;
    b.overflow := "";
  }
}
