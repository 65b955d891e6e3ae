/** Transaction generation. A hint may fix the contract, the method, the
    arguments, the amount and the sender of the next transaction; what it
    leaves open is drawn at random or from the argument pool. The resolved
    contract, method and amount are written back into the hint, and the
    whole input is recorded as the backend's last transaction input. */
module Generator {
  import opened Common
  import opened Abi
  import opened Pool
  import opened RoundRobin
  import opened ArgPool
  import opened Args
  import opened Backend
  import opened Contracts

  /** `Hint`: the parts of the next transaction chosen by the caller. The
      empty string leaves the contract or method open, `None` (Go's nil)
      the arguments, the amount and the sender; `fallback` calls the
      fallback function, whatever `method_` says. */
  class Hint {
    var contract: string
    var method_: string
    var args: Option<seq<Value>>
    var amount: Option<int>
    var sender: Option<Address>
    var fallback: bool

    constructor (contract: string, method_: string, args: Option<seq<Value>>, amount: Option<int>,
                 sender: Option<Address>, fallback: bool)
      ensures this.contract == contract && this.method_ == method_ && this.args == args
      ensures this.amount == amount && this.sender == sender && this.fallback == fallback
    {
      this.contract := contract;
      this.method_ := method_;
      this.args := args;
      this.amount := amount;
      this.sender := sender;
      this.fallback := fallback;
    }
  }

  /** The signed transaction as far as the model sees it: its target, the
      ether it carries, its sender and the arguments packed into its data. */
  datatype Transaction = Transaction(to: Address, value: int, from: Address, args: seq<Value>)

  /** What a transaction is sent to: the contract, the method ("" for the
      fallback or constructor), the contract's first address and the
      method's ABI. */
  datatype Target = Target(contract: string, method_: string, address: Address, abi: MethodAbi)

  // ---------------------------------------------------------------------
  // Resolution of the hint
  // ---------------------------------------------------------------------

  /** The hinted contract if one is named, otherwise a random one. */
  function ResolveContract(hinted: string, list: seq<string>, rnd: nat): (r: Result<string>)
    ensures hinted != "" ==> r == Ok(hinted)
    ensures hinted == "" ==> (r.Panic? <==> list == []) && (r.Ok? ==> r.value in list)
  {
    if hinted != "" then Ok(hinted) else GetRandomContract(list, rnd)
  }

  /** The hinted method if one is named, otherwise a random method of the
      contract; the random draw happens (and can panic) even when the hint
      asks for the fallback function, whose method name is "". */
  function ResolveMethod(hinted: string, fallback: bool, deployed: map<string, Contract>, contract: string,
                         rnd: nat): (r: Result<string>)
    ensures r.Ok? && fallback ==> r.value == ""
    ensures hinted != "" ==> r == Ok(if fallback then "" else hinted)
    ensures hinted == "" ==> (r.Panic? <==> contract !in deployed || deployed[contract].methods == [])
    ensures hinted == "" && r.Ok? && !fallback ==> r.value in deployed[contract].methods
  {
    var m := if hinted != "" then Ok(hinted) else GetRandomMethod(deployed, contract, rnd);
    if m.Panic? then m else if fallback then Ok("") else m
  }

  /** `DeployedContracts[contract].Addresses[0]`: an unknown contract
      dereferences nil and one without addresses is indexed out of range. */
  function FirstAddress(deployed: map<string, Contract>, contract: string): (r: Result<Address>)
    ensures r.Ok? <==> contract in deployed && deployed[contract].addresses != []
    ensures r.Ok? ==> r.value == deployed[contract].addresses[0]
  {
    if contract !in deployed then Panic("invalid memory address or nil dereference")
    else if deployed[contract].addresses == [] then Panic("index out of range [0] with length 0")
    else Ok(deployed[contract].addresses[0])
  }

  /** The target of the next transaction, from the hint's contract, method
      and fallback flag and the two random numbers. */
  function Resolve(hintedContract: string, hintedMethod: string, fallback: bool, b: Backend,
                   rndContract: nat, rndMethod: nat): (r: Result<Target>)
    reads b
    ensures var c := ResolveContract(hintedContract, b.contractsList, rndContract);
            var m := if c.Ok? then ResolveMethod(hintedMethod, fallback, b.deployedContracts, c.value, rndMethod)
                     else Panic("");
            r.Ok? <==> c.Ok? && m.Ok? && FirstAddress(b.deployedContracts, c.value).Ok?
                       && GetContractMethod(b.meta, c.value, m.value).Ok?
    ensures r.Ok? ==> r.value.contract == ResolveContract(hintedContract, b.contractsList, rndContract).value
    ensures r.Ok? ==> r.value.method_ == ResolveMethod(hintedMethod, fallback, b.deployedContracts, r.value.contract, rndMethod).value
    ensures r.Ok? ==> r.value.address == b.deployedContracts[r.value.contract].addresses[0]
    ensures r.Ok? ==> r.value.abi == GetContractMethod(b.meta, r.value.contract, r.value.method_).value
  {
    var c := ResolveContract(hintedContract, b.contractsList, rndContract);
    if c.Panic? then Panic(c.reason)
    else
      var m := ResolveMethod(hintedMethod, fallback, b.deployedContracts, c.value, rndMethod);
      if m.Panic? then Panic(m.reason)
      else
        var a := FirstAddress(b.deployedContracts, c.value);
        if a.Panic? then Panic(a.reason)
        else
          var abi := GetContractMethod(b.meta, c.value, m.value);
          if abi.Panic? then Panic(abi.reason)
          else Ok(Target(c.value, m.value, a.value, abi.value))
  }

  /** `GetRandAccount` with the random number `rnd`: one of the accounts;
      without accounts `rand.Intn(0)` panics. */
  function GetRandAccount(accounts: seq<Account>, rnd: nat): (r: Result<Account>)
    ensures r.Panic? <==> accounts == []
    ensures r.Ok? ==> r.value in accounts
  {
    if accounts == [] then Panic("invalid argument to Intn") else Ok(accounts[rnd % |accounts|])
  }

  /** Some account has the address `a`: `GetKeyFromAddress` finds its key. */
  predicate HasAccount(accounts: seq<Account>, a: Address)
  {
    exists i :: 0 <= i < |accounts| && accounts[i].address == a
  }

  /** The hinted sender, otherwise the address of a random account. The
      hinted sender's key is looked up, which panics for an address no
      account has; so does drawing from no accounts. */
  function ResolveSender(hinted: Option<Address>, accounts: seq<Account>, rnd: nat): (r: Result<Address>)
    ensures hinted.Some? ==> (r.Panic? <==> !HasAccount(accounts, hinted.value))
    ensures hinted.Some? && r.Ok? ==> r.value == hinted.value
    ensures hinted.None? ==> (r.Panic? <==> accounts == [])
    ensures r.Ok? ==> HasAccount(accounts, r.value)
  {
    if hinted.Some? then
      if HasAccount(accounts, hinted.value) then Ok(hinted.value)
      else Panic("address was not found in accounts")
    else
      var acc := GetRandAccount(accounts, rnd);
      if acc.Panic? then Panic(acc.reason) else Ok(acc.value.address)
  }

  // ---------------------------------------------------------------------
  // The amount of ether
  // ---------------------------------------------------------------------

  /** Some value of the BigInt pool is at most `balance`. */
  ghost predicate HoldsAffordable(s: seq<PoolValue>, balance: int)
  {
    exists k :: 0 <= k < |s| && s[k].BigIntValue? && s[k].n <= balance
  }

  /** Every value in `drawn` is a BigInt above `balance`. */
  ghost predicate AllAbove(drawn: seq<PoolValue>, balance: int)
  {
    forall e :: 0 <= e < |drawn| ==> drawn[e].BigIntValue? && drawn[e].n > balance
  }

  /** `drawn` is what successive read-then-move draws from cursor `i` of `s`
      return, and every draw but the last was rejected against `balance`. */
  ghost predicate RejectedWalk(s: seq<PoolValue>, i: nat, drawn: seq<PoolValue>, balance: int)
  {
    i < |s| && 1 <= |drawn| && drawn == Lap(s, i, |drawn|) && AllAbove(drawn[..|drawn| - 1], balance)
  }

  /** Rejecting the last draw and drawing once more extends the walk. */
  lemma WalkExtends(s: seq<PoolValue>, i: nat, drawn: seq<PoolValue>, balance: int)
    requires RejectedWalk(s, i, drawn, balance) && AllAbove(drawn, balance)
    ensures RejectedWalk(s, i, drawn + [s[CursorAfter(i, |s|, |drawn|)]], balance)
  {
    var m := |drawn|;
    var next := drawn + [s[CursorAfter(i, |s|, m)]];
    LapSplit(s, i, m, 1);
    assert next[..m] == drawn;
  }

  /** A walk whose draws were all rejected has not yet reached an
      affordable index `k`: it is shorter than the distance to `k`, so a
      walk never needs more than one lap. */
  lemma WalkAvoidsAffordable(s: seq<PoolValue>, i: nat, drawn: seq<PoolValue>, balance: int, k: nat)
    requires RejectedWalk(s, i, drawn, balance) && AllAbove(drawn, balance)
    requires k < |s| && s[k].BigIntValue? && s[k].n <= balance
    ensures |drawn| <= (if i <= k then k - i else |s| - i + k) < |s|
  {
    var d := if i <= k then k - i else |s| - i + k;
    ReachedWithinLap(i, |s|, k);
    if |drawn| > d {
      LapAt(s, i, |drawn|, d);
      assert false;
    }
  }

  /** Every draw is a stored item. */
  lemma WalkDrawsStored(s: seq<PoolValue>, i: nat, drawn: seq<PoolValue>, balance: int)
    requires RejectedWalk(s, i, drawn, balance)
    ensures drawn[|drawn| - 1] in s
  {
    LapAt(s, i, |drawn|, |drawn| - 1);
  }

  /** A walk that stops at its first affordable draw stays within one lap
      of the pool, whenever the pool holds an affordable value `k`. */
  lemma WalkWithinLap(s: seq<PoolValue>, i: nat, drawn: seq<PoolValue>, balance: int, k: nat)
    requires RejectedWalk(s, i, drawn, balance)
    requires k < |s| && s[k].BigIntValue? && s[k].n <= balance
    ensures |drawn| <= |s|
  {
    if |drawn| > 1 {
      var prev := drawn[..|drawn| - 1];
      LapSplit(s, i, |prev|, 1);
      assert prev[..|prev| - 1] == drawn[..|drawn| - 2];
      WalkAvoidsAffordable(s, i, prev, balance, k);
    }
  }

  /** The resampling loop of `getRandomAmountFromAddress`, after the first
      draw `drawn0`: it draws until the value is at most `balance`. */
  method Resample(ap: ArgPool, balance: int, v0: int, ghost i0: nat, ghost drawn0: seq<PoolValue>, ghost k: nat)
    returns (v: int, ghost drawn: seq<PoolValue>)
    requires ap.Valid()
    requires k < |ap.bigIntPool.storage| && ap.bigIntPool.storage[k].BigIntValue? && ap.bigIntPool.storage[k].n <= balance
    requires RejectedWalk(ap.bigIntPool.storage, i0, drawn0, balance) && drawn0[|drawn0| - 1] == BigIntValue(v0)
    requires ap.bigIntPool.idx == CursorAfter(i0, |ap.bigIntPool.storage|, |drawn0|)
    modifies ap.bigIntPool`idx
    ensures ap.Valid() && ap.Contents() == old(ap.Contents())
    ensures v <= balance
    ensures RejectedWalk(ap.bigIntPool.storage, i0, drawn, balance) && drawn[|drawn| - 1] == BigIntValue(v)
    ensures ap.bigIntPool.idx == CursorAfter(i0, |ap.bigIntPool.storage|, |drawn|)
  {
    ghost var s := ap.bigIntPool.storage;
    v, drawn := v0, drawn0;
    while v > balance
      invariant ap.Valid() && ap.Contents() == old(ap.Contents())
      invariant RejectedWalk(s, i0, drawn, balance) && drawn[|drawn| - 1] == BigIntValue(v)
      invariant ap.bigIntPool.idx == CursorAfter(i0, |s|, |drawn|)
      decreases |s| - |drawn|
    {
      assert AllAbove(drawn, balance) by {
        assert drawn == drawn[..|drawn| - 1] + [drawn[|drawn| - 1]];
      }
      WalkAvoidsAffordable(s, i0, drawn, balance, k);
      WalkExtends(s, i0, drawn, balance);
      CursorAfterStep(i0, |s|, |drawn|);
      var r := ap.NextBigInt();
      v := r.value;
      drawn := drawn + [BigIntValue(v)];
    }
  }

  /** `getRandomAmountFromAddress`: draws from the BigInt pool until a value
      is at most the sender's balance. `drawn` is what the loop drew: a walk
      of the cursor of at most one lap, every value but the last rejected.
      The loop ends only if the pool holds a value the sender can afford;
      an empty pool panics at the first draw. */
  method GetRandomAmountFromAddress(address: Address, ap: ArgPool, b: Backend)
    returns (r: Result<int>, ghost drawn: seq<PoolValue>)
    requires ap.Valid()
    requires ap.bigIntPool.storage == [] || HoldsAffordable(ap.bigIntPool.storage, b.GetBalance(address))
    modifies ap.bigIntPool`idx
    ensures ap.Valid()
    ensures ap.Contents() == old(ap.Contents())
    ensures r.Panic? <==> ap.bigIntPool.storage == []
    ensures r.Ok? ==> r.value <= b.GetBalance(address) && BigIntValue(r.value) in ap.bigIntPool.storage
    ensures r.Ok? ==>
      && RejectedWalk(ap.bigIntPool.storage, old(ap.bigIntPool.idx), drawn, b.GetBalance(address))
      && |drawn| <= |ap.bigIntPool.storage|
      && drawn[|drawn| - 1] == BigIntValue(r.value)
      && ap.bigIntPool.idx == CursorAfter(old(ap.bigIntPool.idx), |ap.bigIntPool.storage|, |drawn|)
  {
    var balance := b.GetBalance(address);
    ghost var s := ap.bigIntPool.storage;
    ghost var i0 := ap.bigIntPool.idx;
    r := ap.NextBigInt();
    if r.Panic? {
      drawn := [];
      return;
    }
    ghost var k :| 0 <= k < |s| && s[k].BigIntValue? && s[k].n <= balance;
    assert RejectedWalk(s, i0, [BigIntValue(r.value)], balance);
    var v;
    v, drawn := Resample(ap, balance, r.value, i0, [BigIntValue(r.value)], k);
    r := Ok(v);
    WalkDrawsStored(s, i0, drawn, balance);
    WalkWithinLap(s, i0, drawn, balance, k);
  }

  // ---------------------------------------------------------------------
  // GenTransaction
  // ---------------------------------------------------------------------

  /** One value per ABI input, of its type, drawn from the pools `s`. */
  ghost predicate Constructed(vs: seq<Value>, ts: seq<AbiType>, s: Stores)
  {
    |vs| == |ts| && forall i :: 0 <= i < |ts| ==> Conforms(vs[i], ts[i]) && Drawn(vs[i], s)
  }

  /** The arguments are the hinted ones verbatim, or else built for the
      method's inputs from the pools `s`. */
  ghost predicate ArgsChosen(args: seq<Value>, hinted: Option<seq<Value>>, inputs: seq<AbiType>, s: Stores)
  {
    && (hinted.Some? ==> args == hinted.value)
    && (hinted.None? ==> Constructed(args, inputs, s))
  }

  /** The amount is the hinted one; without a hint it is 0 for a method that
      is not payable, and a BigInt of the pool within the sender's balance
      for one that is. */
  ghost predicate AmountChosen(amount: int, hinted: Option<int>, payable: bool, balance: int, pool: seq<PoolValue>)
  {
    && (hinted.Some? ==> amount == hinted.value)
    && (hinted.None? && !payable ==> amount == 0)
    && (hinted.None? && payable ==> amount <= balance && BigIntValue(amount) in pool)
  }

  /** The draws of a transaction to `t` panic: an argument the pools `s`
      cannot supply, no sender, or an amount to sample from an empty pool. */
  ghost predicate DrawFails(t: Target, meta: Metadata, hintedArgs: Option<seq<Value>>, sender: Result<Address>,
                            hintedAmount: Option<int>, s: Stores)
  {
    || (hintedArgs.None? && exists i :: 0 <= i < |t.abi.inputs| && FillPanics(t.abi.inputs[i], s))
    || sender.Panic?
    || (hintedAmount.None? && IsPayable(meta, t.contract, t.method_) && s.bigInts == [])
  }

  /** The amount draw can end: it is not needed, it cannot start, or the
      pool holds a value the sender can afford. */
  ghost predicate AmountDrawable(s: seq<PoolValue>, b: Backend, sender: Result<Address>)
    reads b
  {
    sender.Panic? || s == [] || HoldsAffordable(s, b.GetBalance(sender.value))
  }

  /** The arguments, sender and amount of a transaction. */
  datatype Parts = Parts(args: seq<Value>, sender: Address, amount: int)

  /** The draws of `GenTransaction` once the target `t` is known: the
      arguments, then the sender, then the amount, each unless hinted. */
  method DrawParts(b: Backend, ap: ArgPool, t: Target, hintedArgs: Option<seq<Value>>, hintedSender: Option<Address>,
                   hintedAmount: Option<int>, rndAccount: nat) returns (r: Result<Parts>)
    requires ap.Valid()
    requires hintedAmount.None? ==>
      AmountDrawable(ap.bigIntPool.storage, b, ResolveSender(hintedSender, b.meta.accounts, rndAccount))
    modifies ap.int8Pool`idx, ap.int16Pool`idx, ap.int32Pool`idx, ap.int64Pool`idx, ap.bytes32Pool`idx
    modifies ap.addressPool`idx, ap.bigIntPool`idx, ap.stringPool`idx
    ensures ap.Valid()
    ensures ap.Contents() == old(ap.Contents())
    ensures var s := ResolveSender(hintedSender, b.meta.accounts, rndAccount);
      && (r.Panic? <==> DrawFails(t, b.meta, hintedArgs, s, hintedAmount, old(ap.Contents())))
      && (r.Ok? ==>
            && ArgsChosen(r.value.args, hintedArgs, t.abi.inputs, old(ap.Contents()))
            && r.value.sender == s.value
            && AmountChosen(r.value.amount, hintedAmount, IsPayable(b.meta, t.contract, t.method_),
                            b.GetBalance(s.value), ap.bigIntPool.storage))
  {
    var args: seq<Value>;
    if hintedArgs.Some? {
      args := hintedArgs.value;
    } else {
      var a := ConstructArgs(t.abi.inputs, ap);
      if a.Panic? {
        return Panic(a.reason);
      }
      args := a.value;
    }
    var s := ResolveSender(hintedSender, b.meta.accounts, rndAccount);
    if s.Panic? {
      return Panic(s.reason);
    }
    var amount := 0;
    if hintedAmount.Some? {
      amount := hintedAmount.value;
    } else if IsPayable(b.meta, t.contract, t.method_) {
      var a, _ := GetRandomAmountFromAddress(s.value, ap, b);
      if a.Panic? {
        return Panic(a.reason);
      }
      amount := a.value;
    }
    r := Ok(Parts(args, s.value, amount));
  }

  /** Everything `GenTransaction` does once the target `t` is resolved. */
  method DrawAndSave(b: Backend, ap: ArgPool, hint: Hint, t: Target, rndAccount: nat) returns (r: Result<Transaction>)
    requires ap.Valid()
    requires hint.amount.None? ==>
      AmountDrawable(ap.bigIntPool.storage, b, ResolveSender(hint.sender, b.meta.accounts, rndAccount))
    modifies hint`contract, hint`method_, hint`amount, b`lastTxIn
    modifies ap.int8Pool`idx, ap.int16Pool`idx, ap.int32Pool`idx, ap.int64Pool`idx, ap.bytes32Pool`idx
    modifies ap.addressPool`idx, ap.bigIntPool`idx, ap.stringPool`idx
    ensures ap.Valid()
    ensures ap.Contents() == old(ap.Contents())
    ensures
      var s := ResolveSender(hint.sender, b.meta.accounts, rndAccount);
      && (r.Panic? <==> DrawFails(t, b.meta, hint.args, s, old(hint.amount), old(ap.Contents())))
      && (r.Ok? ==>
            && r.value.to == t.address
            && r.value.from == s.value
            && ArgsChosen(r.value.args, hint.args, t.abi.inputs, old(ap.Contents()))
            && AmountChosen(r.value.value, old(hint.amount), IsPayable(b.meta, t.contract, t.method_),
                            b.GetBalance(s.value), ap.bigIntPool.storage)
            && hint.contract == t.contract && hint.method_ == t.method_
            && hint.amount == Some(r.value.value)
            && b.lastTxIn == Some(TxInput(t.contract, t.method_, t.abi.isConst, r.value.value,
                                          r.value.args, t.abi.outputs, r.value.from)))
  {
    var p := DrawParts(b, ap, t, hint.args, hint.sender, hint.amount, rndAccount);
    if p.Panic? {
      return Panic(p.reason);
    }
    label Drawn:
    SaveTransaction(b, hint, t, p.value);
    assert ap.Valid() && ap.Contents() == old(ap.Contents()) by {
      assert unchanged@Drawn(ap, ap.int8Pool, ap.int16Pool, ap.int32Pool, ap.int64Pool, ap.bytes32Pool,
                             ap.addressPool, ap.bigIntPool, ap.stringPool, ap.timestampPool);
    }
    r := Ok(Transaction(t.address, p.value.amount, p.value.sender, p.value.args));
  }

  /** `GenTransaction` with the random numbers of its three random picks.
      It panics on an empty contract list, a contract without methods,
      addresses or ABI, an argument the pools cannot supply, an empty
      account list and an empty BigInt pool for a payable method. The hint
      gets the resolved contract, method and amount; its arguments and
      sender stay as they were. */
  method GenTransaction(b: Backend, ap: ArgPool, hint: Hint, rndContract: nat, rndMethod: nat, rndAccount: nat)
    returns (r: Result<Transaction>)
    requires ap.Valid()
    requires hint.amount.None? ==>
      AmountDrawable(ap.bigIntPool.storage, b, ResolveSender(hint.sender, b.meta.accounts, rndAccount))
    modifies hint`contract, hint`method_, hint`amount, b`lastTxIn
    modifies ap.int8Pool`idx, ap.int16Pool`idx, ap.int32Pool`idx, ap.int64Pool`idx, ap.bytes32Pool`idx
    modifies ap.addressPool`idx, ap.bigIntPool`idx, ap.stringPool`idx
    ensures ap.Valid()
    ensures ap.Contents() == old(ap.Contents())
    ensures
      var t := Resolve(old(hint.contract), old(hint.method_), hint.fallback, b, rndContract, rndMethod);
      var s := ResolveSender(hint.sender, b.meta.accounts, rndAccount);
      && (r.Panic? <==> t.Panic? || DrawFails(t.value, b.meta, hint.args, s, old(hint.amount), old(ap.Contents())))
      && (r.Ok? ==>
            && r.value.to == t.value.address
            && r.value.from == s.value
            && ArgsChosen(r.value.args, hint.args, t.value.abi.inputs, old(ap.Contents()))
            && AmountChosen(r.value.value, old(hint.amount), IsPayable(b.meta, t.value.contract, t.value.method_),
                            b.GetBalance(s.value), ap.bigIntPool.storage)
            && hint.contract == t.value.contract && hint.method_ == t.value.method_
            && hint.amount == Some(r.value.value)
            && b.lastTxIn == Some(TxInput(t.value.contract, t.value.method_, t.value.abi.isConst, r.value.value,
                                          r.value.args, t.value.abi.outputs, r.value.from)))
  {
    var t := Resolve(hint.contract, hint.method_, hint.fallback, b, rndContract, rndMethod);
    if t.Panic? {
      return Panic(t.reason);
    }
    r := DrawAndSave(b, ap, hint, t.value, rndAccount);
  }

  /** The last steps of `GenTransaction`: the hint keeps the resolved
      contract, method and amount, and the backend the transaction input. */
  method SaveTransaction(b: Backend, hint: Hint, t: Target, p: Parts)
    modifies hint`contract, hint`method_, hint`amount, b`lastTxIn
    ensures hint.contract == t.contract && hint.method_ == t.method_ && hint.amount == Some(p.amount)
    ensures b.lastTxIn == Some(TxInput(t.contract, t.method_, t.abi.isConst, p.amount, p.args, t.abi.outputs, p.sender))
  {
    hint.contract := t.contract;
    hint.method_ := t.method_;
    hint.amount := Some(p.amount);
    b.lastTxIn := Some(TxInput(t.contract, t.method_, t.abi.isConst, p.amount, p.args, t.abi.outputs, p.sender));
  }
}
