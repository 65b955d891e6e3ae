/** Per-method transaction statistics: for every contract and method, how
    many transactions failed and how many were sent, plus the number of
    transactions since the chain was last reverted to its snapshot. */
module Statistics {

  /** The pair `[]int{failed, total}` of one method. */
  datatype Counts = Counts(failed: nat, total: nat)

  type StatsMap = map<string, map<string, Counts>>

  /** The counts of a method, `[0, 0]` when none are recorded. */
  function Lookup(m: StatsMap, contract: string, method_: string): (c: Counts)
    ensures (contract !in m || method_ !in m[contract]) ==> c == Counts(0, 0)
  {
    if contract in m && method_ in m[contract] then m[contract][method_] else Counts(0, 0)
  }

  /** No method has more failures than transactions. */
  ghost predicate WellCounted(m: StatsMap)
  {
    forall c, k :: c in m && k in m[c] ==> m[c][k].failed <= m[c][k].total
  }

  /** `setIfNil`: makes sure an entry exists, creating `[0, 0]`. */
  function WithEntry(m: StatsMap, contract: string, method_: string): (r: StatsMap)
    ensures contract in r && method_ in r[contract]
    ensures r.Keys == m.Keys + {contract}
    ensures forall c, k :: Lookup(r, c, k) == Lookup(m, c, k)
  {
    var inner := if contract in m then m[contract] else map[];
    if method_ in inner then m else m[contract := inner[method_ := Counts(0, 0)]]
  }

  /** The statistics after one transaction of `method_` on `contract`. */
  function Recorded(m: StatsMap, contract: string, method_: string, failed: bool): StatsMap
  {
    var e := WithEntry(m, contract, method_);
    var old_ := e[contract][method_];
    e[contract := e[contract][method_ := Counts(old_.failed + (if failed then 1 else 0), old_.total + 1)]]
  }

  /** One transaction adds exactly one to the total of its method, one to
      its failures iff it failed, and leaves every other method alone. */
  lemma RecordedCounts(m: StatsMap, contract: string, method_: string, failed: bool, c: string, k: string)
    ensures (c, k) == (contract, method_) ==>
      Lookup(Recorded(m, contract, method_, failed), c, k)
        == Counts(Lookup(m, c, k).failed + (if failed then 1 else 0), Lookup(m, c, k).total + 1)
    ensures (c, k) != (contract, method_) ==>
      Lookup(Recorded(m, contract, method_, failed), c, k) == Lookup(m, c, k)
  {
    var e := WithEntry(m, contract, method_);
    assert Lookup(e, contract, method_) == Lookup(m, contract, method_);
    assert Lookup(e, c, k) == Lookup(m, c, k);
  }

  lemma RecordedKeepsWellCounted(m: StatsMap, contract: string, method_: string, failed: bool)
    requires WellCounted(m)
    ensures WellCounted(Recorded(m, contract, method_, failed))
  {
    var r: StatsMap := Recorded(m, contract, method_, failed);
    forall c: string, k: string | c in r && k in r[c] ensures r[c][k].failed <= r[c][k].total {
      RecordedCounts(m, contract, method_, failed, c, k);
      if c in m && k in m[c] {
        assert Lookup(m, c, k) == m[c][k];
      }
      assert Lookup(r, c, k) == r[c][k];
    }
  }

  class Stats {
    var statsMap: StatsMap
    var txCntAfterRevert: int

    ghost predicate Valid()
      reads this
    {
      WellCounted(statsMap)
    }

    /** The zero value `Stats{}`. */
    constructor ()
      ensures Valid() && statsMap == map[] && txCntAfterRevert == 0
    {
      statsMap := map[];
      txCntAfterRevert := 0;
    }

    method SetIfNil(contract: string, method_: string)
      requires Valid()
      modifies this`statsMap
      ensures Valid()
      ensures statsMap == WithEntry(old(statsMap), contract, method_)
    {
      if contract !in statsMap {
        statsMap := statsMap[contract := map[]];
      }
      if method_ !in statsMap[contract] {
        statsMap := statsMap[contract := statsMap[contract][method_ := Counts(0, 0)]];
      }
    }

    method AddFailedTx(contract: string, method_: string)
      requires Valid()
      modifies this`statsMap
      ensures Valid()
      ensures statsMap == Recorded(old(statsMap), contract, method_, true)
    {
      RecordedKeepsWellCounted(statsMap, contract, method_, true);
      SetIfNil(contract, method_);
      ghost var e := statsMap;
      var p := statsMap[contract][method_];
      statsMap := statsMap[contract := statsMap[contract][method_ := Counts(p.failed + 1, p.total)]];
      var q := statsMap[contract][method_];
      statsMap := statsMap[contract := statsMap[contract][method_ := Counts(q.failed, q.total + 1)]];
      assert statsMap[contract] == e[contract][method_ := Counts(p.failed + 1, p.total + 1)];
      assert statsMap == e[contract := e[contract][method_ := Counts(p.failed + 1, p.total + 1)]];
    }

    method AddSuccessfulTx(contract: string, method_: string)
      requires Valid()
      modifies this`statsMap
      ensures Valid()
      ensures statsMap == Recorded(old(statsMap), contract, method_, false)
    {
      RecordedKeepsWellCounted(statsMap, contract, method_, false);
      SetIfNil(contract, method_);
      var p := statsMap[contract][method_];
      statsMap := statsMap[contract := statsMap[contract][method_ := Counts(p.failed, p.total + 1)]];
    }

    method AddTx(contract: string, method_: string, failed: bool)
      requires Valid()
      modifies this
      ensures Valid()
      ensures statsMap == Recorded(old(statsMap), contract, method_, failed)
      ensures txCntAfterRevert == old(txCntAfterRevert) + 1
    {
      IncTxCnt();
      if failed {
        AddFailedTx(contract, method_);
        return;
      }
      AddSuccessfulTx(contract, method_);
    }

    method IncTxCnt()
      modifies this`txCntAfterRevert
      ensures txCntAfterRevert == old(txCntAfterRevert) + 1
    {
      txCntAfterRevert := txCntAfterRevert + 1;
    }

    method ResetCounter()
      modifies this`txCntAfterRevert
      ensures txCntAfterRevert == 0
    {
      txCntAfterRevert := 0;
    }

    function GetCount(): (n: int)
      reads this
      ensures n == txCntAfterRevert
    {
      txCntAfterRevert
    }

    /** The number of transactions sent to a method; as a side effect the
        method gets a `[0, 0]` entry if it had none. */
    method GetTotalOf(contract: string, method_: string) returns (n: nat)
      requires Valid()
      modifies this`statsMap
      ensures Valid()
      ensures statsMap == WithEntry(old(statsMap), contract, method_)
      ensures n == Lookup(old(statsMap), contract, method_).total
    {
      SetIfNil(contract, method_);
      n := statsMap[contract][method_].total;
    }
  }
}
