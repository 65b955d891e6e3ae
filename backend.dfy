/** The part of the fuzzing backend the engine reads and writes: the
    deployed contracts, the flattened list of callable contracts, the last
    transaction's input and analysed result, the coverage table, the
    statistics, the transaction count, and the account balances of the
    chain state together with the snapshot it can be reverted to. */
module Backend {
  import opened Common
  import opened Abi
  import opened Statistics

  class Backend {
    /** The project's metadata tables. */
    const meta: Metadata
    var deployedContracts: map<string, Contract>
    /** Contracts the fuzzer picks from at random. */
    var contractsList: seq<string>
    var lastTxIn: Option<TxInput>
    /** `LastTxRes`: the return data of the last transaction, the minimum
        call depths of REVERT and INVALID (-1 for none) and the first
        overflow message ("" for none). */
    var output: seq<Byte>
    var revertAtDepth: int
    var assertionAtDepth: int
    var overflow: string
    /** `OpcodeIndices`: the program counters executed, per contract address. */
    var opcodeIndices: map<Address, set<nat>>
    const stats: Stats
    var txCount: int
    /** The balances of the chain state, and the copy taken by the last
        snapshot; a balance is a `uint256`, so never negative. */
    var balances: map<Address, nat>
    var snapshot: map<Address, nat>

    ghost predicate Valid()
      reads this, stats
    {
      stats.Valid()
    }

    /** The struct literal of `NewBackend`, before its deployment
        transactions: no contracts, no coverage, the accounts funded. */
    constructor (meta: Metadata, balances: map<Address, nat>)
      ensures Valid() && fresh(stats)
      ensures this.meta == meta && this.balances == balances
      ensures deployedContracts == map[] && contractsList == [] && opcodeIndices == map[]
      ensures lastTxIn == None && txCount == 0 && stats.statsMap == map[] && stats.txCntAfterRevert == 0
    {
      this.meta := meta;
      deployedContracts := map[];
      contractsList := [];
      lastTxIn := None;
      output := [];
      revertAtDepth := 0;
      assertionAtDepth := 0;
      overflow := "";
      opcodeIndices := map[];
      stats := new Stats();
      txCount := 0;
      this.balances := balances;
      snapshot := balances;
    }

    /** `StateDB.GetBalance`: 0 for an unknown account. */
    function GetBalance(a: Address): (v: nat)
      reads this
      ensures a !in balances ==> v == 0
      ensures a in balances ==> v == balances[a]
    {
      if a in balances then balances[a] else 0
    }

    method SnapshotBackend()
      modifies this`snapshot
      ensures snapshot == balances
    {
      snapshot := balances;
    }

    method RevertBackend()
      modifies this`balances
      ensures balances == snapshot
    {
      balances := snapshot;
    }
  }
}
