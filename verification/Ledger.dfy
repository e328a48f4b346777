/** The two conversions of the running gas total to a receipt's 64-bit field. */
module Gas {
  import opened Types

  /** ProcessBlock's path saturates, the write-ahead state's own path keeps the low 64 bits. */
  datatype Conversion = Saturate | Truncate

  /** BigintToUInt64: negative numbers become 0, numbers of more than 64 bits become the maximum. */
  function BigintToUInt64(i: int): uint64 {
    if i > 0 then (if i >= TWO_64 then TWO_64 - 1 else i)
    else if i < 0 then 0
    else i
  }

  function Distance(i: int, j: int): nat {
    if i < j then j - i else i - j
  }

  /** Saturation picks the closest number that 64 bits can hold. */
  lemma SaturationIsNearest(i: int, u: uint64)
    ensures Distance(i, BigintToUInt64(i)) <= Distance(i, u)
    ensures Distance(i, BigintToUInt64(i)) == Distance(i, u) ==> u == BigintToUInt64(i)
  {
  }

  function Convert(c: Conversion, total: nat): uint64 {
    match c
    case Saturate => BigintToUInt64(total)
    case Truncate => total % TWO_64
  }

  /** The two conversions agree exactly on the totals that fit in 64 bits (or hit the last value). */
  lemma ConversionsAgree(total: nat)
    ensures Convert(Saturate, total) == Convert(Truncate, total)
            <==> total < TWO_64 || total % TWO_64 == TWO_64 - 1
  {
  }
}

/** The write-ahead state as a value, and what applying transactions to it does. */
module Ledger {
  import opened Wrappers
  import opened Types
  import opened Evm
  import opened Gas

  datatype TxContext = TxContext(blockHash: Hash, txIndex: int)

  datatype Was = Was(world: World, txIndex: nat, transactions: seq<Tx>, receipts: seq<Receipt>, allLogs: seq<Log>,
                     totalUsedGas: nat, pool: nat)

  datatype Verdict = Undecodable | BadSignature | Refused(error: string) | Done(gasUsed: nat)

  /** The write-ahead state right after a reset. */
  function Fresh(w: World): Was {
    Was(w, 0, [], [], [], 0, GAS_LIMIT)
  }

  /** A write-ahead state with nothing pending in it but a world and a gas pool. */
  function Idle(w: World, pool: nat): Was {
    Was(w, 0, [], [], [], 0, pool)
  }

  function Stamp(logs: seq<nat>, txHash: Hash, ctx: TxContext): seq<Log> {
    seq(|logs|, i requires 0 <= i < |logs| => Log(logs[i], txHash, ctx.blockHash, ctx.txIndex))
  }

  function ReceiptOf(c: Conversion, tx: Tx, o: Outcome, total: nat, ctx: TxContext): Receipt
    requires tx.from.Some? && o.Applied?
  {
    Receipt(OfRoot(o.world), Convert(c, total), OfTx(tx), o.gasUsed,
            if tx.to.None? then Some(Created(Keyed(tx.from.value), tx.nonce)) else None,
            Stamp(o.logs, OfTx(tx), ctx))
  }

  function ApplyTx(evm: Evm, c: Conversion, was: Was, tx: Tx, ctx: TxContext): (Was, Verdict) {
    if tx.from.None? then (was, BadSignature)
    else
      var o := evm.apply(was.world, AsMessage(tx), was.pool);
      match o
      case Rejected(w, pool, error) => (was.(world := w, pool := pool), Refused(error))
      case Applied(w, pool, gasUsed, _, _) =>
        var total := was.totalUsedGas + gasUsed;
        var receipt := ReceiptOf(c, tx, o, total, ctx);
        (Was(w, was.txIndex + 1, was.transactions + [tx], was.receipts + [receipt], was.allLogs + receipt.logs,
             total, pool),
         Done(gasUsed))
  }

  function ApplyRaw(evm: Evm, c: Conversion, was: Was, raw: Raw, ctx: TxContext): (Was, Verdict) {
    match Decode(raw)
    case None => (was, Undecodable)
    case Some(tx) => ApplyTx(evm, c, was, tx, ctx)
  }

  /** ProcessBlock's loop: every transaction in turn, whatever became of the one before. */
  function Fold(evm: Evm, c: Conversion, was: Was, raws: seq<Raw>, blockHash: Hash): Was {
    if raws == [] then was
    else
      var n := |raws| - 1;
      ApplyRaw(evm, c, Fold(evm, c, was, raws[..n], blockHash), raws[n], TxContext(blockHash, n)).0
  }

  function Verdicts(evm: Evm, c: Conversion, was: Was, raws: seq<Raw>, blockHash: Hash): (vs: seq<Verdict>)
    ensures |vs| == |raws|
  {
    if raws == [] then []
    else
      var n := |raws| - 1;
      Verdicts(evm, c, was, raws[..n], blockHash)
      + [ApplyRaw(evm, c, Fold(evm, c, was, raws[..n], blockHash), raws[n], TxContext(blockHash, n)).1]
  }

  // ----- gas -----

  function GasUsed(receipts: seq<Receipt>): nat {
    if receipts == [] then 0 else GasUsed(receipts[..|receipts| - 1]) + receipts[|receipts| - 1].gasUsed
  }

  /** Gas is neither created nor double counted, and every receipt carries its prefix sum. */
  ghost predicate Accounted(was: Was) {
    && was.totalUsedGas + was.pool <= GAS_LIMIT
    && was.totalUsedGas == GasUsed(was.receipts)
    && PrefixSums(was.receipts)
  }

  ghost predicate PrefixSums(receipts: seq<Receipt>) {
    forall k :: 0 <= k < |receipts| ==> receipts[k].cumulativeGasUsed == GasUsed(receipts[..k + 1])
  }

  lemma PrefixSumsExtend(receipts: seq<Receipt>, next: Receipt)
    requires PrefixSums(receipts) && next.cumulativeGasUsed == GasUsed(receipts) + next.gasUsed
    ensures PrefixSums(receipts + [next])
    ensures GasUsed(receipts + [next]) == GasUsed(receipts) + next.gasUsed
  {
    var all, n := receipts + [next], |receipts|;
    assert all[..n] == receipts && all[..n + 1] == all;
    forall k | 0 <= k < |all| ensures all[k].cumulativeGasUsed == GasUsed(all[..k + 1]) {
      if k < n {
        assert all[k] == receipts[k] && all[..k + 1] == receipts[..k + 1];
      }
    }
  }

  lemma AccountsExtend(was: Was, was': Was, next: Receipt)
    requires Accounted(was) && was'.receipts == was.receipts + [next]
    requires was'.totalUsedGas == was.totalUsedGas + next.gasUsed == next.cumulativeGasUsed
    requires was'.pool + next.gasUsed == was.pool
    ensures Accounted(was')
  {
    PrefixSumsExtend(was.receipts, next);
  }

  lemma ApplyKeepsAccounts(evm: Evm, c: Conversion, was: Was, raw: Raw, ctx: TxContext)
    requires Lawful(evm) && Accounted(was)
    ensures Accounted(ApplyRaw(evm, c, was, raw, ctx).0)
  {
    if Signed(raw).Some? {
      var tx := Signed(raw).value;
      assert Law(evm, was.world, AsMessage(tx), was.pool);
      var o := evm.apply(was.world, AsMessage(tx), was.pool);
      if o.Applied? {
        var next := ReceiptOf(c, tx, o, was.totalUsedGas + o.gasUsed, ctx);
        AccountsExtend(was, ApplyRaw(evm, c, was, raw, ctx).0, next);
      }
    }
  }

  /** At every point of a block the totals are exact, so no 64-bit conversion ever loses anything. */
  lemma {:induction false} BlockKeepsAccounts(evm: Evm, c: Conversion, was: Was, raws: seq<Raw>, blockHash: Hash)
    requires Lawful(evm) && Accounted(was)
    ensures Accounted(Fold(evm, c, was, raws, blockHash))
  {
    if raws == [] {
    } else {
      var n := |raws| - 1;
      BlockKeepsAccounts(evm, c, was, raws[..n], blockHash);
      ApplyKeepsAccounts(evm, c, Fold(evm, c, was, raws[..n], blockHash), raws[n], TxContext(blockHash, n));
    }
  }

  /** State.applyTransaction and WriteAheadState.ApplyTransaction decide and compute the same. */
  lemma PathsAgree(evm: Evm, was: Was, raw: Raw, ctx: TxContext)
    requires Lawful(evm) && Accounted(was)
    ensures ApplyRaw(evm, Saturate, was, raw, ctx) == ApplyRaw(evm, Truncate, was, raw, ctx)
  {
    if Signed(raw).Some? {
      assert Law(evm, was.world, AsMessage(Signed(raw).value), was.pool);
    }
  }

  lemma {:induction false} FoldsAgree(evm: Evm, was: Was, raws: seq<Raw>, blockHash: Hash)
    requires Lawful(evm) && Accounted(was)
    ensures Fold(evm, Saturate, was, raws, blockHash) == Fold(evm, Truncate, was, raws, blockHash)
    ensures Verdicts(evm, Saturate, was, raws, blockHash) == Verdicts(evm, Truncate, was, raws, blockHash)
  {
    if raws == [] {
    } else {
      var n := |raws| - 1;
      FoldsAgree(evm, was, raws[..n], blockHash);
      BlockKeepsAccounts(evm, Saturate, was, raws[..n], blockHash);
      PathsAgree(evm, Fold(evm, Saturate, was, raws[..n], blockHash), raws[n], TxContext(blockHash, n));
    }
  }

  // ----- nonces -----

  /** Every listed transaction's nonce is used up in `w`. */
  ghost predicate Spent(w: World, txs: seq<Tx>) {
    forall t | t in txs :: t.from.Some? && t.nonce < Nonce(w, Keyed(t.from.value))
  }

  /** A sender's transactions appear with strictly increasing nonces, so none appears twice. */
  ghost predicate Ordered(txs: seq<Tx>) {
    forall i, j | 0 <= i < j < |txs| && txs[i].from == txs[j].from :: txs[i].nonce < txs[j].nonce
  }

  ghost predicate Sequential(w: World, txs: seq<Tx>) {
    Spent(w, txs) && Ordered(txs)
  }

  /** Receipt k belongs to transaction k. */
  ghost predicate Paired(was: Was) {
    && |was.receipts| == |was.transactions|
    && forall k :: 0 <= k < |was.receipts| ==> was.receipts[k].txHash == OfTx(was.transactions[k])
  }

  /** `past` are the transactions whose effects are in the world the write-ahead state started from. */
  ghost predicate Chained(was: Was, past: seq<Tx>) {
    && Canonical(was.world)
    && Sequential(was.world, past + was.transactions)
    && Paired(was)
  }

  ghost predicate WasInv(was: Was, past: seq<Tx>) {
    Chained(was, past) && Accounted(was)
  }

  lemma SequentialExtends(w: World, w': World, txs: seq<Tx>, tx: Tx)
    requires Sequential(w, txs) && tx.from.Some? && NonceNeverFalls(w, w')
    requires tx.nonce == Nonce(w, Keyed(tx.from.value)) && Nonce(w', Keyed(tx.from.value)) == tx.nonce + 1
    ensures Sequential(w', txs + [tx])
  {
    SpentPersists(w, w', txs);
  }

  lemma SpentPersists(w: World, w': World, txs: seq<Tx>)
    requires Spent(w, txs) && NonceNeverFalls(w, w')
    ensures Spent(w', txs)
  {
    forall t | t in txs ensures t.nonce < Nonce(w', Keyed(t.from.value)) {
      assert Nonce(w, Keyed(t.from.value)) <= Nonce(w', Keyed(t.from.value));
    }
  }

  lemma SuccessKeepsChain(was: Was, was': Was, past: seq<Tx>, tx: Tx, receipt: Receipt)
    requires Chained(was, past) && Canonical(was'.world) && receipt.txHash == OfTx(tx)
    requires was'.transactions == was.transactions + [tx] && was'.receipts == was.receipts + [receipt]
    requires tx.from.Some? && NonceNeverFalls(was.world, was'.world) && tx.nonce == Nonce(was.world, Keyed(tx.from.value))
    requires Nonce(was'.world, Keyed(tx.from.value)) == tx.nonce + 1
    ensures Chained(was', past)
  {
    SequentialExtends(was.world, was'.world, past + was.transactions, tx);
    assert past + (was.transactions + [tx]) == past + was.transactions + [tx];
  }

  lemma ApplyTxKeepsChain(evm: Evm, c: Conversion, was: Was, past: seq<Tx>, tx: Tx, ctx: TxContext)
    requires tx.from.Some? && Law(evm, was.world, AsMessage(tx), was.pool) && Chained(was, past)
    ensures Chained(ApplyTx(evm, c, was, tx, ctx).0, past)
  {
    var o := evm.apply(was.world, AsMessage(tx), was.pool);
    if o.Applied? {
      var receipt := ReceiptOf(c, tx, o, was.totalUsedGas + o.gasUsed, ctx);
      SuccessKeepsChain(was, ApplyTx(evm, c, was, tx, ctx).0, past, tx, receipt);
    } else {
      SpentPersists(was.world, o.world, past + was.transactions);
    }
  }

  lemma ApplyKeepsWas(evm: Evm, c: Conversion, was: Was, past: seq<Tx>, raw: Raw, ctx: TxContext)
    requires Lawful(evm) && WasInv(was, past)
    ensures WasInv(ApplyRaw(evm, c, was, raw, ctx).0, past)
  {
    ApplyKeepsAccounts(evm, c, was, raw, ctx);
    if Signed(raw).Some? {
      assert Law(evm, was.world, AsMessage(Signed(raw).value), was.pool);
      ApplyTxKeepsChain(evm, c, was, past, Signed(raw).value, ctx);
    }
  }

  /** Over a block, successes extend the history with fresh nonces, whatever consensus delivers. */
  lemma {:induction false} BlockKeepsWas(evm: Evm, c: Conversion, was: Was, past: seq<Tx>, raws: seq<Raw>, blockHash: Hash)
    requires Lawful(evm) && WasInv(was, past)
    ensures WasInv(Fold(evm, c, was, raws, blockHash), past)
  {
    if raws == [] {
    } else {
      var n := |raws| - 1;
      BlockKeepsWas(evm, c, was, past, raws[..n], blockHash);
      ApplyKeepsWas(evm, c, Fold(evm, c, was, raws[..n], blockHash), past, raws[n], TxContext(blockHash, n));
    }
  }

  lemma OrderedSuffix(past: seq<Tx>, txs: seq<Tx>, i: nat, j: nat)
    requires Ordered(past + txs) && i < j < |txs|
    ensures txs[i] != txs[j]
  {
    var all := past + txs;
    assert all[|past| + i] == txs[i] && all[|past| + j] == txs[j];
  }

  // ----- block boundaries -----

  /** The world and verdict of one transaction when the pool does not matter. */
  function IdealStep(evm: Evm, w: World, raw: Raw): (World, Verdict) {
    match Decode(raw)
    case None => (w, Undecodable)
    case Some(tx) =>
      if tx.from.None? then (w, BadSignature)
      else
        match evm.apply(w, AsMessage(tx), tx.gas)
        case Rejected(w', _, error) => (w', Refused(error))
        case Applied(w', _, gasUsed, _, _) => (w', Done(gasUsed))
  }

  function IdealWorld(evm: Evm, w: World, raws: seq<Raw>): World {
    if raws == [] then w else IdealStep(evm, IdealWorld(evm, w, raws[..|raws| - 1]), raws[|raws| - 1]).0
  }

  function IdealVerdicts(evm: Evm, w: World, raws: seq<Raw>): seq<Verdict> {
    if raws == [] then []
    else
      var n := |raws| - 1;
      IdealVerdicts(evm, w, raws[..n]) + [IdealStep(evm, IdealWorld(evm, w, raws[..n]), raws[n]).1]
  }

  function GasOf(raw: Raw): nat {
    match Signed(raw) case None => 0 case Some(tx) => tx.gas
  }

  function GasSum(raws: seq<Raw>): nat {
    if raws == [] then 0 else GasSum(raws[..|raws| - 1]) + GasOf(raws[|raws| - 1])
  }

  function Concat(blocks: seq<seq<Raw>>): seq<Raw> {
    if blocks == [] then [] else Concat(blocks[..|blocks| - 1]) + blocks[|blocks| - 1]
  }

  /** One commit after every block: the next one starts from a fresh write-ahead state. */
  function BlocksWorld(evm: Evm, c: Conversion, w: World, blocks: seq<seq<Raw>>, hashes: nat -> Hash): World {
    if blocks == [] then w
    else
      var n := |blocks| - 1;
      Fold(evm, c, Fresh(BlocksWorld(evm, c, w, blocks[..n], hashes)), blocks[n], hashes(n)).world
  }

  function BlocksVerdicts(evm: Evm, c: Conversion, w: World, blocks: seq<seq<Raw>>, hashes: nat -> Hash): seq<Verdict> {
    if blocks == [] then []
    else
      var n := |blocks| - 1;
      BlocksVerdicts(evm, c, w, blocks[..n], hashes)
      + Verdicts(evm, c, Fresh(BlocksWorld(evm, c, w, blocks[..n], hashes)), blocks[n], hashes(n))
  }

  /** Every gas limit is covered by the pool left before its transaction. */
  predicate Fits(evm: Evm, c: Conversion, was: Was, raws: seq<Raw>, blockHash: Hash) {
    raws == []
    || (&& Fits(evm, c, was, raws[..|raws| - 1], blockHash)
        && GasOf(raws[|raws| - 1]) <= Fold(evm, c, was, raws[..|raws| - 1], blockHash).pool)
  }

  /** Limits that add up to no more than the pool always fit. */
  lemma {:induction false} SmallBlockFits(evm: Evm, c: Conversion, was: Was, raws: seq<Raw>, blockHash: Hash)
    requires Lawful(evm) && GasSum(raws) <= was.pool
    ensures Fits(evm, c, was, raws, blockHash) && Fold(evm, c, was, raws, blockHash).pool + GasSum(raws) >= was.pool
  {
    if raws != [] {
      var n := |raws| - 1;
      SmallBlockFits(evm, c, was, raws[..n], blockHash);
      var before := Fold(evm, c, was, raws[..n], blockHash);
      if Signed(raws[n]).Some? {
        assert Law(evm, before.world, AsMessage(Signed(raws[n]).value), before.pool);
      }
    }
  }

  lemma StepIsIdeal(evm: Evm, c: Conversion, was: Was, raw: Raw, ctx: TxContext)
    requires Lawful(evm) && GasOf(raw) <= was.pool
    ensures
      var (was', verdict) := ApplyRaw(evm, c, was, raw, ctx);
      (was'.world, verdict) == IdealStep(evm, was.world, raw)
  {
    if Signed(raw).Some? {
      assert Law(evm, was.world, AsMessage(Signed(raw).value), was.pool);
    }
  }

  lemma {:induction false} BlockIsIdeal(evm: Evm, c: Conversion, was: Was, raws: seq<Raw>, blockHash: Hash)
    requires Lawful(evm) && Fits(evm, c, was, raws, blockHash)
    ensures Fold(evm, c, was, raws, blockHash).world == IdealWorld(evm, was.world, raws)
    ensures Verdicts(evm, c, was, raws, blockHash) == IdealVerdicts(evm, was.world, raws)
  {
    if raws != [] {
      var n := |raws| - 1;
      BlockIsIdeal(evm, c, was, raws[..n], blockHash);
      StepIsIdeal(evm, c, Fold(evm, c, was, raws[..n], blockHash), raws[n], TxContext(blockHash, n));
    }
  }

  predicate AllDone(verdicts: seq<Verdict>) {
    forall i :: 0 <= i < |verdicts| ==> verdicts[i].Done?
  }

  lemma TooLittleLeft(evm: Evm, c: Conversion, was: Was, raw: Raw, ctx: TxContext)
    requires Lawful(evm) && GasOf(raw) > was.pool
    ensures !ApplyRaw(evm, c, was, raw, ctx).1.Done?
  {
    if Signed(raw).Some? {
      assert Law(evm, was.world, AsMessage(Signed(raw).value), was.pool);
    }
  }

  lemma SameUpTo(a: seq<Verdict>, b: seq<Verdict>, x: seq<Verdict>, y: seq<Verdict>)
    requires |a| == |b|
    ensures a + x == b + y <==> a == b && x == y
  {
    if a + x == b + y {
      assert a == (a + x)[..|a|] && b == (b + y)[..|b|];
      assert x == (a + x)[|a|..] && y == (b + y)[|b|..];
    }
  }

  lemma AllDoneSplits(a: seq<Verdict>, b: seq<Verdict>)
    requires AllDone(a + b)
    ensures AllDone(a) && AllDone(b)
  {
    assert forall i | 0 <= i < |a| :: (a + b)[i] == a[i];
    assert forall i | 0 <= i < |b| :: (a + b)[|a| + i] == b[i];
  }

  /** Of transactions that would all succeed with enough gas, a block runs each as it would alone exactly if they fit. */
  lemma {:induction false} BlockIsIdealIff(evm: Evm, c: Conversion, was: Was, raws: seq<Raw>, blockHash: Hash)
    requires Lawful(evm) && AllDone(IdealVerdicts(evm, was.world, raws))
    ensures Verdicts(evm, c, was, raws, blockHash) == IdealVerdicts(evm, was.world, raws) <==> Fits(evm, c, was, raws, blockHash)
    ensures |IdealVerdicts(evm, was.world, raws)| == |raws|
  {
    if raws != [] {
      var n := |raws| - 1;
      var ideal := IdealVerdicts(evm, was.world, raws[..n]);
      var last := IdealStep(evm, IdealWorld(evm, was.world, raws[..n]), raws[n]).1;
      AllDoneSplits(ideal, [last]);
      assert [last][0].Done?;
      BlockIsIdealIff(evm, c, was, raws[..n], blockHash);
      var before, ctx := Fold(evm, c, was, raws[..n], blockHash), TxContext(blockHash, n);
      SameUpTo(Verdicts(evm, c, was, raws[..n], blockHash), ideal, [ApplyRaw(evm, c, before, raws[n], ctx).1], [last]);
      if Fits(evm, c, was, raws[..n], blockHash) {
        BlockIsIdeal(evm, c, was, raws[..n], blockHash);
        LastIsIdealIff(evm, c, before, raws[n], ctx);
      }
    }
  }

  lemma LastIsIdealIff(evm: Evm, c: Conversion, was: Was, raw: Raw, ctx: TxContext)
    requires Lawful(evm) && IdealStep(evm, was.world, raw).1.Done?
    ensures ApplyRaw(evm, c, was, raw, ctx).1 == IdealStep(evm, was.world, raw).1 <==> GasOf(raw) <= was.pool
  {
    if GasOf(raw) <= was.pool {
      StepIsIdeal(evm, c, was, raw, ctx);
    } else {
      TooLittleLeft(evm, c, was, raw, ctx);
    }
  }

  lemma {:induction false} IdealConcat(evm: Evm, w: World, a: seq<Raw>, b: seq<Raw>)
    ensures IdealWorld(evm, w, a + b) == IdealWorld(evm, IdealWorld(evm, w, a), b)
    ensures IdealVerdicts(evm, w, a + b) == IdealVerdicts(evm, w, a) + IdealVerdicts(evm, IdealWorld(evm, w, a), b)
  {
    if b == [] {
      assert a + b == a;
    } else {
      var n := |b| - 1;
      IdealConcat(evm, w, a, b[..n]);
      assert (a + b)[..|a + b| - 1] == a + b[..n];
    }
  }

  /** One committed block after another, every gas limit is covered by what its block's pool has left. */
  predicate BlocksFit(evm: Evm, c: Conversion, w: World, blocks: seq<seq<Raw>>, hashes: nat -> Hash) {
    blocks == []
    || (var n := |blocks| - 1;
        && BlocksFit(evm, c, w, blocks[..n], hashes)
        && Fits(evm, c, Fresh(BlocksWorld(evm, c, w, blocks[..n], hashes)), blocks[n], hashes(n)))
  }

  lemma {:induction false} SmallBlocksFit(evm: Evm, c: Conversion, w: World, blocks: seq<seq<Raw>>, hashes: nat -> Hash)
    requires Lawful(evm) && forall b | b in blocks :: GasSum(b) <= GAS_LIMIT
    ensures BlocksFit(evm, c, w, blocks, hashes)
  {
    if blocks != [] {
      var n := |blocks| - 1;
      assert blocks[n] in blocks;
      SmallBlocksFit(evm, c, w, blocks[..n], hashes);
      SmallBlockFits(evm, c, Fresh(BlocksWorld(evm, c, w, blocks[..n], hashes)), blocks[n], hashes(n));
    }
  }

  lemma {:induction false} BlocksAreIdeal(evm: Evm, c: Conversion, w: World, blocks: seq<seq<Raw>>, hashes: nat -> Hash)
    requires Lawful(evm) && BlocksFit(evm, c, w, blocks, hashes)
    ensures BlocksWorld(evm, c, w, blocks, hashes) == IdealWorld(evm, w, Concat(blocks))
    ensures BlocksVerdicts(evm, c, w, blocks, hashes) == IdealVerdicts(evm, w, Concat(blocks))
  {
    if blocks != [] {
      var n := |blocks| - 1;
      BlocksAreIdeal(evm, c, w, blocks[..n], hashes);
      BlockIsIdeal(evm, c, Fresh(BlocksWorld(evm, c, w, blocks[..n], hashes)), blocks[n], hashes(n));
      IdealConcat(evm, w, Concat(blocks[..n]), blocks[n]);
    }
  }

  /**
   However one sequence is cut into blocks that fit, and whichever path applies them, nothing changes;
   blocks whose gas limits add up to at most 10^18 fit (SmallBlocksFit).
   */
  lemma CutIndependence(evm: Evm, w: World, c1: Conversion, blocks1: seq<seq<Raw>>, hashes1: nat -> Hash,
                        c2: Conversion, blocks2: seq<seq<Raw>>, hashes2: nat -> Hash)
    requires Lawful(evm) && Concat(blocks1) == Concat(blocks2)
    requires BlocksFit(evm, c1, w, blocks1, hashes1) && BlocksFit(evm, c2, w, blocks2, hashes2)
    ensures BlocksWorld(evm, c1, w, blocks1, hashes1) == BlocksWorld(evm, c2, w, blocks2, hashes2)
    ensures BlocksVerdicts(evm, c1, w, blocks1, hashes1) == BlocksVerdicts(evm, c2, w, blocks2, hashes2)
  {
    BlocksAreIdeal(evm, c1, w, blocks1, hashes1);
    BlocksAreIdeal(evm, c2, w, blocks2, hashes2);
  }

  lemma {:induction false} VerdictCounts(evm: Evm, c: Conversion, w: World, blocks: seq<seq<Raw>>, hashes: nat -> Hash)
    ensures |BlocksVerdicts(evm, c, w, blocks, hashes)| == |Concat(blocks)|
  {
    if blocks != [] {
      VerdictCounts(evm, c, w, blocks[..|blocks| - 1], hashes);
    }
  }

  lemma {:induction false} IdealCounts(evm: Evm, w: World, raws: seq<Raw>)
    ensures |IdealVerdicts(evm, w, raws)| == |raws|
  {
    if raws != [] {
      IdealCounts(evm, w, raws[..|raws| - 1]);
    }
  }

  /** Of transactions that all succeed when they have a pool each, a cut changes no verdict exactly if its blocks fit. */
  lemma {:induction false} CutsMatterIff(evm: Evm, c: Conversion, w: World, blocks: seq<seq<Raw>>, hashes: nat -> Hash)
    requires Lawful(evm) && AllDone(IdealVerdicts(evm, w, Concat(blocks)))
    ensures BlocksVerdicts(evm, c, w, blocks, hashes) == IdealVerdicts(evm, w, Concat(blocks)) <==> BlocksFit(evm, c, w, blocks, hashes)
  {
    if blocks != [] {
      var n := |blocks| - 1;
      var before, last := Concat(blocks[..n]), blocks[n];
      var done := BlocksWorld(evm, c, w, blocks[..n], hashes);
      IdealConcat(evm, w, before, last);
      AllDoneSplits(IdealVerdicts(evm, w, before), IdealVerdicts(evm, IdealWorld(evm, w, before), last));
      CutsMatterIff(evm, c, w, blocks[..n], hashes);
      VerdictCounts(evm, c, w, blocks[..n], hashes);
      IdealCounts(evm, w, before);
      SameUpTo(BlocksVerdicts(evm, c, w, blocks[..n], hashes), IdealVerdicts(evm, w, before),
               Verdicts(evm, c, Fresh(done), last, hashes(n)), IdealVerdicts(evm, IdealWorld(evm, w, before), last));
      if BlocksFit(evm, c, w, blocks[..n], hashes) {
        BlocksAreIdeal(evm, c, w, blocks[..n], hashes);
        BlockIsIdealIff(evm, c, Fresh(done), last, hashes(n));
      }
    }
  }
}
