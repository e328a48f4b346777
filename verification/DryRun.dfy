/** The transaction pool's dry run, and when it predicts what the write-ahead state will do. */
module DryRun {
  import opened Wrappers
  import opened Types
  import opened Evm
  import opened Gas
  import opened Ledger
  import opened Transfers

  datatype Pool = Pool(world: World, totalUsedGas: nat, gas: nat)

  /** The pool right after a reset. */
  function FreshPool(w: World): Pool {
    Pool(w, 0, GAS_LIMIT)
  }

  /** CheckTx; the gas counter is 64 bits wide. */
  function Check(evm: Evm, p: Pool, tx: Tx): (Pool, Verdict) {
    if tx.from.None? then (p, BadSignature)
    else
      match evm.apply(p.world, AsMessage(tx), p.gas)
      case Rejected(w, gas, error) => (Pool(w, p.totalUsedGas, gas), Refused(error))
      case Applied(w, gas, gasUsed, _, _) => (Pool(w, (p.totalUsedGas + gasUsed) % TWO_64, gas), Done(gasUsed))
  }

  /** The gas counter never wraps once the pool has been reset. */
  predicate PoolInv(p: Pool) {
    p.totalUsedGas + p.gas <= GAS_LIMIT
  }

  lemma CheckNeverWraps(evm: Evm, p: Pool, tx: Tx)
    requires Lawful(evm) && PoolInv(p)
    ensures
      var (p', verdict) := Check(evm, p, tx);
      && PoolInv(p')
      && (verdict.Done? ==> p'.totalUsedGas == p.totalUsedGas + verdict.gasUsed)
  {
    if tx.from.Some? {
      assert Law(evm, p.world, AsMessage(tx), p.gas);
    }
  }

  /** Over any sequence of checks after a reset the counter is the plain sum of the gas reported. */
  lemma {:induction false} CounterNeverWraps(evm: Evm, w: World, txs: seq<Tx>)
    requires Lawful(evm)
    ensures
      var p := CheckAll(evm, FreshPool(w), txs);
      PoolInv(p) && p.totalUsedGas == GasReported(Predicted(evm, FreshPool(w), txs)) < TWO_64
  {
    if txs != [] {
      var before := txs[..|txs| - 1];
      CounterNeverWraps(evm, w, before);
      CheckNeverWraps(evm, CheckAll(evm, FreshPool(w), before), txs[|txs| - 1]);
      var predicted, verdict := Predicted(evm, FreshPool(w), before), Check(evm, CheckAll(evm, FreshPool(w), before), txs[|txs| - 1]).1;
      assert (predicted + [verdict])[..|predicted|] == predicted && predicted + [] == predicted;
    }
  }

  function GasReported(verdicts: seq<Verdict>): nat {
    if verdicts == [] then 0
    else
      var last := verdicts[|verdicts| - 1];
      GasReported(verdicts[..|verdicts| - 1]) + if last.Done? then last.gasUsed else 0
  }

  function CheckAll(evm: Evm, p: Pool, txs: seq<Tx>): Pool {
    if txs == [] then p else Check(evm, CheckAll(evm, p, txs[..|txs| - 1]), txs[|txs| - 1]).0
  }

  /** The transactions the pool accepted, and the gas it says each will use. */
  function Accepted(evm: Evm, p: Pool, txs: seq<Tx>): seq<Raw> {
    if txs == [] then []
    else
      var n := |txs| - 1;
      Accepted(evm, p, txs[..n])
      + if Check(evm, CheckAll(evm, p, txs[..n]), txs[n]).1.Done? then [Encoded(txs[n], [])] else []
  }

  function Predicted(evm: Evm, p: Pool, txs: seq<Tx>): seq<Verdict> {
    if txs == [] then []
    else
      var n := |txs| - 1;
      var verdict := Check(evm, CheckAll(evm, p, txs[..n]), txs[n]).1;
      Predicted(evm, p, txs[..n]) + if verdict.Done? then [verdict] else []
  }

  /** A transfer that will be refused only after its gas was bought. */
  predicate RefusedTooLate(w: World, m: Msg, pool: nat) {
    && Payable(w, m) && m.gas <= pool
    && (m.gas < INTRINSIC_GAS || Balance(w, m.from) - m.gas * m.gasPrice < m.value)
  }

  /** Exactly when a refused transfer leaves no trace. */
  lemma RefusalIsCleanIff(w: World, m: Msg, pool: nat)
    requires Canonical(w) && Transfer(w, m, pool).Rejected?
    ensures
      var o := Transfer(w, m, pool);
      o.world == w && o.pool == pool <==> !RefusedTooLate(w, m, pool) || m.gas == 0
  {
    var cost := m.gas * m.gasPrice;
    if RefusedTooLate(w, m, pool) && m.gas == 0 {
      assert cost == 0;
      assert Debit(w, m.from, 0) == w;
    }
  }

  /** The pool refuses `tx` only after some gas was bought. */
  predicate LateAt(p: Pool, tx: Tx) {
    tx.from.Some? && tx.gas > 0 && RefusedTooLate(p.world, AsMessage(tx), p.gas)
  }

  /** No transaction of the sequence is refused too late. */
  ghost predicate AllClean(p: Pool, txs: seq<Tx>) {
    forall i | 0 <= i < |txs| :: !LateAt(CheckAll(TRANSFERS, p, txs[..i]), txs[i])
  }

  lemma {:induction false} CheckAllCanonical(p: Pool, txs: seq<Tx>)
    requires Canonical(p.world)
    ensures Canonical(CheckAll(TRANSFERS, p, txs).world)
  {
    if txs != [] {
      var before := CheckAll(TRANSFERS, p, txs[..|txs| - 1]);
      CheckAllCanonical(p, txs[..|txs| - 1]);
      if txs[|txs| - 1].from.Some? {
        TransferLaws(before.world, AsMessage(txs[|txs| - 1]), before.gas);
      }
    }
  }

  /** From the same committed world, applying what the pool accepted agrees with the pool in everything. */
  ghost predicate Faithful(w: World, txs: seq<Tx>, blockHash: Hash) {
    var accepted := Accepted(TRANSFERS, FreshPool(w), txs);
    var was := Fold(TRANSFERS, Truncate, Fresh(w), accepted, blockHash);
    var pool := CheckAll(TRANSFERS, FreshPool(w), txs);
    && was.world == pool.world
    && was.pool == pool.gas
    && Verdicts(TRANSFERS, Truncate, Fresh(w), accepted, blockHash) == Predicted(TRANSFERS, FreshPool(w), txs)
  }

  lemma CleanExtends(p: Pool, before: seq<Tx>, tx: Tx)
    ensures AllClean(p, before + [tx]) <==> AllClean(p, before) && !LateAt(CheckAll(TRANSFERS, p, before), tx)
  {
    var txs := before + [tx];
    assert txs[..|before|] == before && txs[|before|] == tx;
    forall i | 0 <= i < |before| ensures txs[..i] == before[..i] && txs[i] == before[i] {
    }
  }

  lemma {:induction false} CleanIsFaithful(w: World, txs: seq<Tx>, blockHash: Hash)
    requires Canonical(w) && AllClean(FreshPool(w), txs)
    ensures Faithful(w, txs, blockHash)
  {
    if txs != [] {
      var before, tx := txs[..|txs| - 1], txs[|txs| - 1];
      assert txs == before + [tx];
      CleanExtends(FreshPool(w), before, tx);
      CleanIsFaithful(w, before, blockHash);
      CheckAllCanonical(FreshPool(w), before);
      NextIsFaithful(w, before, tx, blockHash);
    }
  }

  lemma NextIsFaithful(w: World, before: seq<Tx>, tx: Tx, blockHash: Hash)
    requires Canonical(CheckAll(TRANSFERS, FreshPool(w), before).world) && Faithful(w, before, blockHash)
    requires !LateAt(CheckAll(TRANSFERS, FreshPool(w), before), tx)
    ensures Faithful(w, before + [tx], blockHash)
  {
    var pool := CheckAll(TRANSFERS, FreshPool(w), before);
    if Check(TRANSFERS, pool, tx).1.Done? {
      DoneIsFaithful(w, before, tx, blockHash);
    } else {
      CheckTakes(pool, tx);
      RefusedIsFaithful(w, before, tx, blockHash);
    }
  }

  lemma DoneExtends(evm: Evm, p: Pool, before: seq<Tx>, tx: Tx)
    requires Check(evm, CheckAll(evm, p, before), tx).1.Done?
    ensures
      var (p', verdict) := Check(evm, CheckAll(evm, p, before), tx);
      && CheckAll(evm, p, before + [tx]) == p'
      && Accepted(evm, p, before + [tx]) == Accepted(evm, p, before) + [Encoded(tx, [])]
      && Predicted(evm, p, before + [tx]) == Predicted(evm, p, before) + [verdict]
  {
    assert (before + [tx])[..|before|] == before;
  }

  lemma RefusedExtends(evm: Evm, p: Pool, before: seq<Tx>, tx: Tx)
    requires !Check(evm, CheckAll(evm, p, before), tx).1.Done?
    ensures CheckAll(evm, p, before + [tx]) == Check(evm, CheckAll(evm, p, before), tx).0
    ensures Accepted(evm, p, before + [tx]) == Accepted(evm, p, before)
    ensures Predicted(evm, p, before + [tx]) == Predicted(evm, p, before)
  {
    assert (before + [tx])[..|before|] == before;
    assert Accepted(evm, p, before) + [] == Accepted(evm, p, before);
    assert Predicted(evm, p, before) + [] == Predicted(evm, p, before);
  }

  lemma FoldExtends(evm: Evm, c: Conversion, was: Was, raws: seq<Raw>, raw: Raw, blockHash: Hash)
    ensures
      var (was', verdict) := ApplyRaw(evm, c, Fold(evm, c, was, raws, blockHash), raw, TxContext(blockHash, |raws|));
      && Fold(evm, c, was, raws + [raw], blockHash) == was'
      && Verdicts(evm, c, was, raws + [raw], blockHash) == Verdicts(evm, c, was, raws, blockHash) + [verdict]
  {
    assert (raws + [raw])[..|raws|] == raws;
  }

  lemma SameDecision(evm: Evm, was: Was, p: Pool, tx: Tx, ctx: TxContext)
    requires was.world == p.world && was.pool == p.gas
    ensures
      var (was', decided) := ApplyRaw(evm, Truncate, was, Encoded(tx, []), ctx);
      var (p', predicted) := Check(evm, p, tx);
      was'.world == p'.world && was'.pool == p'.gas && decided == predicted
  {
  }

  lemma DoneIsFaithful(w: World, before: seq<Tx>, tx: Tx, blockHash: Hash)
    requires Faithful(w, before, blockHash) && Check(TRANSFERS, CheckAll(TRANSFERS, FreshPool(w), before), tx).1.Done?
    ensures Faithful(w, before + [tx], blockHash)
  {
    var p := FreshPool(w);
    var accepted := Accepted(TRANSFERS, p, before);
    DoneExtends(TRANSFERS, p, before, tx);
    FoldExtends(TRANSFERS, Truncate, Fresh(w), accepted, Encoded(tx, []), blockHash);
    SameDecision(TRANSFERS, Fold(TRANSFERS, Truncate, Fresh(w), accepted, blockHash), CheckAll(TRANSFERS, p, before), tx,
                 TxContext(blockHash, |accepted|));
  }

  lemma RefusedIsFaithful(w: World, before: seq<Tx>, tx: Tx, blockHash: Hash)
    requires Faithful(w, before, blockHash)
    requires
      var p := CheckAll(TRANSFERS, FreshPool(w), before);
      var (p', verdict) := Check(TRANSFERS, p, tx);
      !verdict.Done? && p'.world == p.world && p'.gas == p.gas
    ensures Faithful(w, before + [tx], blockHash)
  {
    RefusedExtends(TRANSFERS, FreshPool(w), before, tx);
  }

  /** What one check takes out of the pool: the fixed fee for a transfer, nothing, or what was bought in vain. */
  lemma CheckTakes(p: Pool, tx: Tx)
    requires Canonical(p.world)
    ensures
      var (p', verdict) := Check(TRANSFERS, p, tx);
      && p'.gas <= p.gas
      && (verdict.Done? ==> !LateAt(p, tx) && p'.gas + INTRINSIC_GAS == p.gas)
      && (!verdict.Done? ==> (p'.gas < p.gas <==> LateAt(p, tx)))
      && (!verdict.Done? && !LateAt(p, tx) ==> p'.world == p.world)
  {
    if tx.from.Some? {
      var o := TRANSFERS.apply(p.world, AsMessage(tx), p.gas);
      if o.Rejected? {
        RefusalIsCleanIff(p.world, AsMessage(tx), p.gas);
      }
    }
  }

  function Fees(n: nat): nat {
    if n == 0 then 0 else Fees(n - 1) + INTRINSIC_GAS
  }

  /** What the pool still holds and what the transactions it accepted have paid for. */
  function Explained(w: World, txs: seq<Tx>): nat {
    CheckAll(TRANSFERS, FreshPool(w), txs).gas + Fees(|Accepted(TRANSFERS, FreshPool(w), txs)|)
  }

  lemma ExplainedExtends(w: World, before: seq<Tx>, tx: Tx)
    requires Canonical(CheckAll(TRANSFERS, FreshPool(w), before).world)
    ensures Explained(w, before + [tx]) <= Explained(w, before)
    ensures Explained(w, before + [tx]) == Explained(w, before) <==> !LateAt(CheckAll(TRANSFERS, FreshPool(w), before), tx)
  {
    var p := CheckAll(TRANSFERS, FreshPool(w), before);
    CheckTakes(p, tx);
    if Check(TRANSFERS, p, tx).1.Done? {
      DoneExtends(TRANSFERS, FreshPool(w), before, tx);
    } else {
      RefusedExtends(TRANSFERS, FreshPool(w), before, tx);
    }
  }

  /** The pool's gas adds up to what it accepted exactly if nothing was bought in vain. */
  lemma {:induction false} PoolAddsUpIff(w: World, txs: seq<Tx>)
    requires Canonical(w)
    ensures Explained(w, txs) <= GAS_LIMIT
    ensures Explained(w, txs) == GAS_LIMIT <==> AllClean(FreshPool(w), txs)
  {
    if txs != [] {
      var before, tx := txs[..|txs| - 1], txs[|txs| - 1];
      assert txs == before + [tx];
      PoolAddsUpIff(w, before);
      CheckAllCanonical(FreshPool(w), before);
      ExplainedExtends(w, before, tx);
      CleanExtends(FreshPool(w), before, tx);
    }
  }

  lemma {:induction false} PredictedAreDone(evm: Evm, p: Pool, txs: seq<Tx>)
    ensures |Predicted(evm, p, txs)| == |Accepted(evm, p, txs)| && AllDone(Predicted(evm, p, txs))
  {
    if txs != [] {
      PredictedAreDone(evm, p, txs[..|txs| - 1]);
    }
  }

  lemma {:induction false} DoneTakesFees(was: Was, raws: seq<Raw>, blockHash: Hash)
    requires AllDone(Verdicts(TRANSFERS, Truncate, was, raws, blockHash))
    ensures Fold(TRANSFERS, Truncate, was, raws, blockHash).pool + Fees(|raws|) == was.pool
  {
    if raws != [] {
      var n := |raws| - 1;
      var all := Verdicts(TRANSFERS, Truncate, was, raws, blockHash);
      AllDoneSplits(Verdicts(TRANSFERS, Truncate, was, raws[..n], blockHash), [all[n]]);
      DoneTakesFees(was, raws[..n], blockHash);
      assert all[n].Done?;
    }
  }

  /**
   When the dry run of plain transfers is faithful: the write-ahead state accepts everything the pool
   accepted, with the predicted gas, and ends in the pool's world with the pool's gas, exactly if the
   pool refused nothing after gas had been bought for it.
   */
  lemma DryRunIsFaithfulIff(w: World, txs: seq<Tx>, blockHash: Hash)
    requires Canonical(w)
    ensures Faithful(w, txs, blockHash) <==> AllClean(FreshPool(w), txs)
  {
    PoolAddsUpIff(w, txs);
    if AllClean(FreshPool(w), txs) {
      CleanIsFaithful(w, txs, blockHash);
    } else if Faithful(w, txs, blockHash) {
      PredictedAreDone(TRANSFERS, FreshPool(w), txs);
      DoneTakesFees(Fresh(w), Accepted(TRANSFERS, FreshPool(w), txs), blockHash);
      assert false;
    }
  }

  // ----- agreement in world and verdicts alone -----

  /** If refused late, then before its nonce was used and at no price: nothing but the pool shows it. */
  predicate HarmlessAt(p: Pool, tx: Tx) {
    LateAt(p, tx) ==> tx.gas < INTRINSIC_GAS && tx.gasPrice == 0
  }

  ghost predicate AllHarmless(p: Pool, txs: seq<Tx>) {
    forall i | 0 <= i < |txs| :: HarmlessAt(CheckAll(TRANSFERS, p, txs[..i]), txs[i])
  }

  lemma HarmlessExtends(p: Pool, before: seq<Tx>, tx: Tx)
    ensures AllHarmless(p, before + [tx]) <==> AllHarmless(p, before) && HarmlessAt(CheckAll(TRANSFERS, p, before), tx)
  {
    var txs := before + [tx];
    assert txs[..|before|] == before && txs[|before|] == tx;
    forall i | 0 <= i < |before| ensures txs[..i] == before[..i] && txs[i] == before[i] {
    }
  }

  lemma CheckTotals(p: Pool, tx: Tx)
    requires Canonical(p.world)
    ensures
      var (p', verdict) := Check(TRANSFERS, p, tx);
      var same := TotalBalance(p'.world) == TotalBalance(p.world) && TotalNonce(p'.world) == TotalNonce(p.world);
      if verdict.Done? then
        && TotalBalance(p'.world) == TotalBalance(p.world) && TotalNonce(p'.world) == TotalNonce(p.world) + 1
        && HarmlessAt(p, tx)
      else
        && TotalBalance(p'.world) <= TotalBalance(p.world) && TotalNonce(p'.world) >= TotalNonce(p.world)
        && (same <==> HarmlessAt(p, tx))
        && (HarmlessAt(p, tx) ==> p'.world == p.world)
  {
    if tx.from.Some? {
      var m := AsMessage(tx);
      TransferTotals(p.world, m, p.gas);
      if TRANSFERS.apply(p.world, m, p.gas).Rejected? {
        RefusalTotals(p, tx);
      } else {
        AppliedIsNotTooLate(p.world, m, p.gas);
      }
    }
  }

  lemma RefusalTotals(p: Pool, tx: Tx)
    requires Canonical(p.world) && tx.from.Some? && TRANSFERS.apply(p.world, AsMessage(tx), p.gas).Rejected?
    ensures
      var w := TRANSFERS.apply(p.world, AsMessage(tx), p.gas).world;
      && TotalBalance(w) <= TotalBalance(p.world) && TotalNonce(w) >= TotalNonce(p.world)
      && (TotalBalance(w) == TotalBalance(p.world) && TotalNonce(w) == TotalNonce(p.world) <==> HarmlessAt(p, tx))
      && (HarmlessAt(p, tx) ==> w == p.world)
  {
    var m := AsMessage(tx);
    TransferTotals(p.world, m, p.gas);
    ProductIsZero(tx.gas, tx.gasPrice);
    RefusalIsCleanIff(p.world, m, p.gas);
    if LateAt(p, tx) && tx.gas < INTRINSIC_GAS && tx.gasPrice == 0 {
      FreeGasLeavesNoTrace(p.world, m, p.gas);
    }
  }

  lemma ProductIsZero(a: nat, b: nat)
    ensures a * b == 0 <==> a == 0 || b == 0
  {
    if a > 0 && b > 0 {
      assert a * b >= b;
    }
  }

  /** Gas that costs nothing, bought for a transfer that has not enough of it, leaves the world alone. */
  lemma FreeGasLeavesNoTrace(w: World, m: Msg, pool: nat)
    requires Canonical(w) && m.gas < INTRINSIC_GAS && m.gasPrice == 0
    ensures TRANSFERS.apply(w, m, pool).world == w
  {
    ProductIsZero(m.gas, m.gasPrice);
    assert Debit(w, m.from, 0) == w;
    assert TRANSFERS.apply(w, m, pool) == Settle(w, m, pool, 0, 0, 0);
  }

  /** The totals of the pool's world are those of the accepted transactions alone exactly if the rest was harmless. */
  lemma {:induction false} PoolTotalsIff(w: World, txs: seq<Tx>)
    requires Canonical(w)
    ensures
      var p, k := CheckAll(TRANSFERS, FreshPool(w), txs), |Accepted(TRANSFERS, FreshPool(w), txs)|;
      && TotalBalance(p.world) <= TotalBalance(w) && TotalNonce(p.world) >= TotalNonce(w) + k
      && (TotalBalance(p.world) == TotalBalance(w) && TotalNonce(p.world) == TotalNonce(w) + k
          <==> AllHarmless(FreshPool(w), txs))
  {
    if txs != [] {
      var before, tx := txs[..|txs| - 1], txs[|txs| - 1];
      assert txs == before + [tx];
      PoolTotalsIff(w, before);
      HarmlessExtends(FreshPool(w), before, tx);
      CheckAllCanonical(FreshPool(w), before);
      var p := CheckAll(TRANSFERS, FreshPool(w), before);
      CheckTotals(p, tx);
      if Check(TRANSFERS, p, tx).1.Done? {
        DoneExtends(TRANSFERS, FreshPool(w), before, tx);
      } else {
        RefusedExtends(TRANSFERS, FreshPool(w), before, tx);
      }
    }
  }

  lemma {:induction false} AppliedTotals(was: Was, raws: seq<Raw>, blockHash: Hash)
    requires AllDone(Verdicts(TRANSFERS, Truncate, was, raws, blockHash))
    ensures
      var w := Fold(TRANSFERS, Truncate, was, raws, blockHash).world;
      TotalBalance(w) == TotalBalance(was.world) && TotalNonce(w) == TotalNonce(was.world) + |raws|
  {
    if raws != [] {
      var n := |raws| - 1;
      var all := Verdicts(TRANSFERS, Truncate, was, raws, blockHash);
      AllDoneSplits(Verdicts(TRANSFERS, Truncate, was, raws[..n], blockHash), [all[n]]);
      AppliedTotals(was, raws[..n], blockHash);
      assert all[n].Done?;
      var before := Fold(TRANSFERS, Truncate, was, raws[..n], blockHash);
      TransferTotals(before.world, AsMessage(Signed(raws[n]).value), before.pool);
    }
  }

  /** The same world and the same verdicts; the write-ahead state may have more gas left. */
  ghost predicate AgreeInOutcome(w: World, txs: seq<Tx>, blockHash: Hash) {
    var accepted := Accepted(TRANSFERS, FreshPool(w), txs);
    && Fold(TRANSFERS, Truncate, Fresh(w), accepted, blockHash).world == CheckAll(TRANSFERS, FreshPool(w), txs).world
    && Verdicts(TRANSFERS, Truncate, Fresh(w), accepted, blockHash) == Predicted(TRANSFERS, FreshPool(w), txs)
  }

  ghost predicate NoLessGas(w: World, txs: seq<Tx>, blockHash: Hash) {
    Fold(TRANSFERS, Truncate, Fresh(w), Accepted(TRANSFERS, FreshPool(w), txs), blockHash).pool
    >= CheckAll(TRANSFERS, FreshPool(w), txs).gas
  }

  lemma MoreGasSameDecision(was: Was, p: Pool, tx: Tx, ctx: TxContext)
    requires was.world == p.world && was.pool >= p.gas && Check(TRANSFERS, p, tx).1.Done?
    ensures
      var (was', decided) := ApplyRaw(TRANSFERS, Truncate, was, Encoded(tx, []), ctx);
      var (p', predicted) := Check(TRANSFERS, p, tx);
      was'.world == p'.world && was'.pool >= p'.gas && decided == predicted
  {
    TransferLaws(p.world, AsMessage(tx), p.gas);
    TransferLaws(p.world, AsMessage(tx), was.pool);
  }

  lemma {:induction false} HarmlessAgrees(w: World, txs: seq<Tx>, blockHash: Hash)
    requires Canonical(w) && AllHarmless(FreshPool(w), txs)
    ensures AgreeInOutcome(w, txs, blockHash) && NoLessGas(w, txs, blockHash)
  {
    if txs != [] {
      var before, tx := txs[..|txs| - 1], txs[|txs| - 1];
      assert txs == before + [tx];
      HarmlessExtends(FreshPool(w), before, tx);
      HarmlessAgrees(w, before, blockHash);
      CheckAllCanonical(FreshPool(w), before);
      NextAgrees(w, before, tx, blockHash);
    }
  }

  lemma NextAgrees(w: World, before: seq<Tx>, tx: Tx, blockHash: Hash)
    requires Canonical(CheckAll(TRANSFERS, FreshPool(w), before).world)
    requires AgreeInOutcome(w, before, blockHash) && NoLessGas(w, before, blockHash)
    requires HarmlessAt(CheckAll(TRANSFERS, FreshPool(w), before), tx)
    ensures AgreeInOutcome(w, before + [tx], blockHash) && NoLessGas(w, before + [tx], blockHash)
  {
    var p := CheckAll(TRANSFERS, FreshPool(w), before);
    var accepted := Accepted(TRANSFERS, FreshPool(w), before);
    CheckTakes(p, tx);
    CheckTotals(p, tx);
    if Check(TRANSFERS, p, tx).1.Done? {
      DoneExtends(TRANSFERS, FreshPool(w), before, tx);
      FoldExtends(TRANSFERS, Truncate, Fresh(w), accepted, Encoded(tx, []), blockHash);
      MoreGasSameDecision(Fold(TRANSFERS, Truncate, Fresh(w), accepted, blockHash), p, tx, TxContext(blockHash, |accepted|));
    } else {
      RefusedExtends(TRANSFERS, FreshPool(w), before, tx);
    }
  }

  /**
   Leaving aside how much gas is left: the write-ahead state ends in the pool's world, having accepted all
   that the pool accepted with the predicted gas, exactly if every late refusal was harmless.
   */
  lemma OutcomesAgreeIff(w: World, txs: seq<Tx>, blockHash: Hash)
    requires Canonical(w)
    ensures AgreeInOutcome(w, txs, blockHash) <==> AllHarmless(FreshPool(w), txs)
  {
    PoolTotalsIff(w, txs);
    if AllHarmless(FreshPool(w), txs) {
      HarmlessAgrees(w, txs, blockHash);
    } else if AgreeInOutcome(w, txs, blockHash) {
      PredictedAreDone(TRANSFERS, FreshPool(w), txs);
      AppliedTotals(Fresh(w), Accepted(TRANSFERS, FreshPool(w), txs), blockHash);
      assert false;
    }
  }

  function Encodings(txs: seq<Tx>): seq<Raw> {
    seq(|txs|, i requires 0 <= i < |txs| => Encoded(txs[i], []))
  }

  /** The pool accepted every transaction it was shown. */
  predicate AcceptsAll(evm: Evm, p: Pool, txs: seq<Tx>) {
    txs == [] || (AcceptsAll(evm, p, txs[..|txs| - 1]) && Check(evm, CheckAll(evm, p, txs[..|txs| - 1]), txs[|txs| - 1]).1.Done?)
  }

  lemma {:induction false} AcceptedAre(evm: Evm, p: Pool, txs: seq<Tx>, i: nat)
    requires AcceptsAll(evm, p, txs)
    ensures Accepted(evm, p, txs) == Encodings(txs)
    ensures i < |txs| ==> Check(evm, CheckAll(evm, p, txs[..i]), txs[i]).1.Done?
    ensures |Predicted(evm, p, txs)| == |txs|
    ensures i < |txs| ==> Predicted(evm, p, txs)[i].Done?
  {
    if txs != [] {
      var n := |txs| - 1;
      AcceptedAre(evm, p, txs[..n], i);
      assert Encodings(txs) == Encodings(txs[..n]) + [Encoded(txs[n], [])];
      if i < n {
        assert txs[..n][..i] == txs[..i];
      }
    }
  }

  /** Whatever the pool accepted in full, the write-ahead state accepts in full, with the same gas and world. */
  lemma AcceptedSequenceIsFaithful(w: World, txs: seq<Tx>, blockHash: Hash)
    requires Canonical(w) && AcceptsAll(TRANSFERS, FreshPool(w), txs)
    ensures
      var was := Fold(TRANSFERS, Truncate, Fresh(w), Encodings(txs), blockHash);
      var verdicts := Verdicts(TRANSFERS, Truncate, Fresh(w), Encodings(txs), blockHash);
      && was.world == CheckAll(TRANSFERS, FreshPool(w), txs).world
      && verdicts == Predicted(TRANSFERS, FreshPool(w), txs)
      && forall i :: 0 <= i < |txs| ==> verdicts[i].Done?
  {
    AcceptedAre(TRANSFERS, FreshPool(w), txs, 0);
    forall i | 0 <= i < |txs|
      ensures Check(TRANSFERS, CheckAll(TRANSFERS, FreshPool(w), txs[..i]), txs[i]).1.Done?
      ensures Predicted(TRANSFERS, FreshPool(w), txs)[i].Done?
    {
      AcceptedAre(TRANSFERS, FreshPool(w), txs, i);
    }
    AcceptedAreClean(w, txs);
    CleanIsFaithful(w, txs, blockHash);
  }

  lemma AcceptedAreClean(w: World, txs: seq<Tx>)
    requires AcceptsAll(TRANSFERS, FreshPool(w), txs)
    ensures AllClean(FreshPool(w), txs)
  {
    forall i | 0 <= i < |txs| ensures !LateAt(CheckAll(TRANSFERS, FreshPool(w), txs[..i]), txs[i]) {
      AcceptedAre(TRANSFERS, FreshPool(w), txs, i);
      var before := CheckAll(TRANSFERS, FreshPool(w), txs[..i]);
      AppliedIsNotTooLate(before.world, AsMessage(txs[i]), before.gas);
    }
  }

  lemma AppliedIsNotTooLate(w: World, m: Msg, pool: nat)
    requires TRANSFERS.apply(w, m, pool).Applied?
    ensures !RefusedTooLate(w, m, pool)
  {
  }

  const POOR_WORLD: World := map[Keyed(1) := Account(0, 21_000, [], map[])]
  /** Can pay for its gas but not, after that, for the value it sends. */
  const LATE := Tx(Some(1), 0, 21_000, 1, 5, Some(Keyed(2)), [], 0)
  const AFTER_LATE := Tx(Some(1), 1, 21_000, 0, 0, Some(Keyed(2)), [], 0)

  /** What the late refusal leaves: the gas is gone, the nonce is used. */
  const BUMPED_WORLD: World := map[Keyed(1) := Account(1, 0, [], map[])]

  lemma LateIsRefused()
    ensures
      TRANSFERS.apply(POOR_WORLD, AsMessage(LATE), GAS_LIMIT)
      == Rejected(BUMPED_WORLD, GAS_LIMIT - 21_000, "insufficient balance for transfer")
  {
    var m := AsMessage(LATE);
    var bought := Debit(POOR_WORLD, Keyed(1), 21_000);
    assert bought == map[];
    assert BumpNonce(bought, Keyed(1)) == BUMPED_WORLD;
    assert TRANSFERS.apply(POOR_WORLD, m, GAS_LIMIT) == Settle(POOR_WORLD, m, GAS_LIMIT, 21_000, 0, 21_000);
  }

  lemma AfterLateIsAccepted()
    ensures TRANSFERS.apply(BUMPED_WORLD, AsMessage(AFTER_LATE), GAS_LIMIT - 21_000).Applied?
    ensures TRANSFERS.apply(POOR_WORLD, AsMessage(AFTER_LATE), GAS_LIMIT) == Rejected(POOR_WORLD, GAS_LIMIT, "nonce")
  {
    var m := AsMessage(AFTER_LATE);
    assert TRANSFERS.apply(BUMPED_WORLD, m, GAS_LIMIT - 21_000) == Settle(BUMPED_WORLD, m, GAS_LIMIT - 21_000, 0, 0, 0);
  }

  lemma CheckTwo(evm: Evm, p: Pool, a: Tx, b: Tx)
    requires Check(evm, p, a).1.Refused? && Check(evm, Check(evm, p, a).0, b).1.Done?
    ensures Predicted(evm, p, [a, b]) == [Check(evm, Check(evm, p, a).0, b).1]
    ensures Accepted(evm, p, [a, b]) == [Encoded(b, [])]
  {
    assert [a, b][..1] == [a] && [a][..0] == [];
    assert CheckAll(evm, p, [a][..0]) == p;
    assert Predicted(evm, p, [a][..0]) == [] && Accepted(evm, p, [a][..0]) == [];
    assert CheckAll(evm, p, [a]) == Check(evm, p, a).0;
    assert Predicted(evm, p, [a]) == [] && Accepted(evm, p, [a]) == [];
  }

  lemma VerdictOfOne(evm: Evm, c: Conversion, was: Was, raw: Raw, blockHash: Hash)
    ensures Verdicts(evm, c, was, [raw], blockHash) == [ApplyRaw(evm, c, was, raw, TxContext(blockHash, 0)).1]
    ensures Fold(evm, c, was, [raw], blockHash) == ApplyRaw(evm, c, was, raw, TxContext(blockHash, 0)).0
  {
    assert [raw][..0] == [];
    assert Fold(evm, c, was, [raw][..0], blockHash) == was;
    assert Verdicts(evm, c, was, [raw][..0], blockHash) == [];
  }

  /** A late refusal misleads the pool: it accepts a successor that the write-ahead state refuses. */
  lemma LateRefusalDiverges(blockHash: Hash)
    ensures
      var p := FreshPool(POOR_WORLD);
      var txs := [LATE, AFTER_LATE];
      && (exists gas :: Predicted(TRANSFERS, p, txs) == [Done(gas)])
      && Accepted(TRANSFERS, p, txs) == [Encoded(AFTER_LATE, [])]
      && Verdicts(TRANSFERS, Truncate, Fresh(POOR_WORLD), Accepted(TRANSFERS, p, txs), blockHash) == [Refused("nonce")]
  {
    LateIsRefused();
    AfterLateIsAccepted();
    CheckTwo(TRANSFERS, FreshPool(POOR_WORLD), LATE, AFTER_LATE);
    VerdictOfOne(TRANSFERS, Truncate, Fresh(POOR_WORLD), Encoded(AFTER_LATE, []), blockHash);
  }
}
