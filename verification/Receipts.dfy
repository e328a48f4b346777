/** What a stored receipt can be trusted to say, whatever blocks, replays and crashes came before. */
module Receipts {
  import opened Wrappers
  import opened Types
  import opened Evm
  import opened Gas
  import opened Ledger
  import opened Storage
  import opened Machine

  /** The address of the contract that a transaction creates. */
  function ContractOf(t: Tx): Option<Address>
    requires t.from.Some?
  {
    if t.to.None? then Some(Created(Keyed(t.from.value), t.nonce)) else None
  }

  predicate Truthful(r: Receipt) {
    && r.txHash.OfTx? && r.txHash.tx.from.Some?
    && r.contractAddress == ContractOf(r.txHash.tx)
    && r.gasUsed <= r.txHash.tx.gas
    && forall i | 0 <= i < |r.logs| :: r.logs[i].txHash == r.txHash
  }

  ghost predicate AllTruthful(receipts: seq<Receipt>) {
    forall r | r in receipts :: Truthful(r)
  }

  /** Every stored receipt is one of `made`, under its own hash. */
  ghost predicate StoredFrom(s: Store, made: seq<Receipt>) {
    forall h: Hash | ReceiptKey(h) in s ::
      s[ReceiptKey(h)].ReceiptV? && s[ReceiptKey(h)].receipt.txHash == h && s[ReceiptKey(h)].receipt in made
  }

  // ----- what was produced, over a whole life -----

  /** The receipts of the transactions in `PastNext`, as they were appended when those were applied. */
  ghost function MadeNext(evm: Evm, n: Node, made: seq<Receipt>, e: Event): seq<Receipt> {
    var receipts := Work(evm, n, e.op).receipts;
    match e
    case Run(op) => if op.Deliver? then made else made + receipts
    case Crash(op, cut) => if CommitDone(evm, n, op, cut) < ROOT_WRITTEN then made else made + receipts
  }

  ghost function Made(evm: Evm, s: Store, events: seq<Event>): seq<Receipt> {
    if events == [] then []
    else
      var before := events[..|events| - 1];
      match Life(evm, s, before)
      case None => []
      case Some(n) => MadeNext(evm, n, Made(evm, s, before), events[|events| - 1])
  }

  /** The k-th receipt made is that of the k-th transaction that succeeded. */
  ghost predicate Aligned(past: seq<Tx>, made: seq<Receipt>) {
    |made| == |past| && forall i | 0 <= i < |made| :: made[i].txHash == OfTx(past[i])
  }

  lemma AlignedExtends(past: seq<Tx>, made: seq<Receipt>, was: Was)
    requires Aligned(past, made) && Paired(was)
    ensures Aligned(past + was.transactions, made + was.receipts)
  {
  }

  lemma ApplyKeepsTruth(evm: Evm, c: Conversion, was: Was, raw: Raw, ctx: TxContext)
    requires Lawful(evm) && AllTruthful(was.receipts)
    ensures AllTruthful(ApplyRaw(evm, c, was, raw, ctx).0.receipts)
  {
    if Signed(raw).Some? {
      assert Law(evm, was.world, AsMessage(Signed(raw).value), was.pool);
    }
  }

  /**
   What a receipt records of the step that made it: the root of the world it left, the gas that left the
   pool, the running total of the block, and the logs under the block and position they were emitted in.
   */
  lemma ReceiptTellsItsStep(evm: Evm, c: Conversion, was: Was, raw: Raw, ctx: TxContext)
    requires Lawful(evm) && Accounted(was) && ApplyRaw(evm, c, was, raw, ctx).1.Done?
    ensures
      var (was', verdict) := ApplyRaw(evm, c, was, raw, ctx);
      && |was'.receipts| == |was.receipts| + 1
      && was'.receipts[..|was.receipts|] == was.receipts
      && var r := was'.receipts[|was.receipts|];
      && r.root == OfRoot(was'.world)
      && r.gasUsed == verdict.gasUsed == was.pool - was'.pool
      && r.cumulativeGasUsed == GasUsed(was.receipts) + r.gasUsed == was'.totalUsedGas
      && was'.allLogs == was.allLogs + r.logs
      && forall i | 0 <= i < |r.logs| :: r.logs[i].blockHash == ctx.blockHash && r.logs[i].txIndex == ctx.txIndex
  {
    assert Law(evm, was.world, AsMessage(Signed(raw).value), was.pool);
  }

  lemma {:induction false} BlockKeepsTruth(evm: Evm, was: Was, raws: seq<Raw>, blockHash: Hash)
    requires Lawful(evm) && AllTruthful(was.receipts)
    ensures AllTruthful(Fold(evm, Saturate, was, raws, blockHash).receipts)
  {
    if raws != [] {
      var n := |raws| - 1;
      BlockKeepsTruth(evm, was, raws[..n], blockHash);
      ApplyKeepsTruth(evm, Saturate, Fold(evm, Saturate, was, raws[..n], blockHash), raws[n], TxContext(blockHash, n));
    }
  }

  lemma WorkKeepsTruth(evm: Evm, n: Node, op: Op)
    requires Lawful(evm) && AllTruthful(n.was.receipts)
    ensures AllTruthful(Work(evm, n, op).receipts)
  {
    match op {
      case Process(block, _) => BlockKeepsTruth(evm, n.was, block.transactions, BlockHash(block));
      case Deliver(raw, ctx) => ApplyKeepsTruth(evm, Truncate, n.was, raw, ctx);
      case _ =>
    }
  }

  // ----- the store -----

  predicate NoReceipts(entries: Store) {
    forall k | k in entries :: !k.ReceiptKey?
  }

  /** Only the last write of a commit stores receipts. */
  ghost predicate LastHoldsReceipts(writes: seq<Write>, receipts: seq<Receipt>) {
    && writes != []
    && (forall i | 0 <= i < |writes| - 1 :: NoReceipts(Entries(writes[i])))
    && !writes[|writes| - 1].Flush?
    && StoredFrom(Entries(writes[|writes| - 1]), receipts)
  }

  lemma BatchIsFrom(receipts: seq<Receipt>)
    ensures StoredFrom(ReceiptBatch(receipts), receipts)
  {
    ReceiptBatchHolds(receipts);
    forall h: Hash | ReceiptKey(h) in ReceiptBatch(receipts) ensures ReceiptBatch(receipts)[ReceiptKey(h)].receipt in receipts {
      ReceiptBatchIs(receipts, h);
      LastIsOne(receipts, h);
    }
  }

  lemma {:induction false} LastIsOne(receipts: seq<Receipt>, h: Hash)
    ensures LastReceipt(receipts, h).Some? ==> LastReceipt(receipts, h).value in receipts
  {
    if receipts != [] {
      LastIsOne(receipts[..|receipts| - 1], h);
    }
  }

  lemma DistinctReceipts(was: Was, past: seq<Tx>)
    requires WasInv(was, past)
    ensures Distinct(was.receipts)
  {
    forall i, j | 0 <= i < j < |was.receipts| ensures was.receipts[i].txHash != was.receipts[j].txHash {
      PairedReceipt(was, i);
      PairedReceipt(was, j);
      OrderedSuffix(past, was.transactions, i, j);
    }
  }

  lemma OwnReceiptIsLast(was: Was, past: seq<Tx>, i: nat)
    requires WasInv(was, past) && i < |was.receipts|
    ensures LastReceipt(was.receipts, was.receipts[i].txHash) == Some(was.receipts[i])
  {
    DistinctReceipts(was, past);
    LastOfDistinct(was.receipts, i);
  }

  /** The batch of a sound write-ahead state stores every receipt as it is. */
  lemma CommitLosesNoReceipt(was: Was, past: seq<Tx>, r: Receipt)
    requires WasInv(was, past) && r in was.receipts
    ensures ReceiptKey(r.txHash) in ReceiptBatch(was.receipts) && ReceiptBatch(was.receipts)[ReceiptKey(r.txHash)] == ReceiptV(r)
  {
    DistinctReceipts(was, past);
    BatchKeepsEveryReceipt(was.receipts);
  }

  lemma PairedReceipt(was: Was, i: nat)
    requires Paired(was) && i < |was.receipts|
    ensures i < |was.transactions| && was.receipts[i].txHash == OfTx(was.transactions[i])
  {
  }

  lemma CommitHoldsReceipts(was: Was)
    ensures LastHoldsReceipts(CommitWrites(was.world, was.transactions, was.receipts), was.receipts)
  {
    BatchIsFrom(was.receipts);
    TxBatchHolds(was.transactions);
  }

  lemma OperationHoldsReceipts(evm: Evm, n: Node, op: Op)
    requires !op.Deliver?
    ensures LastHoldsReceipts(Writes(evm, n, op), Work(evm, n, op).receipts)
  {
    var was := Work(evm, n, op);
    var pre, commit := Prelude(evm, n, op), CommitWrites(was.world, was.transactions, was.receipts);
    PreludeNeutral(evm, n, op);
    CommitHoldsReceipts(was);
    forall i | 0 <= i < |pre + commit| - 1 ensures NoReceipts(Entries((pre + commit)[i])) {
      if i < |pre| {
        assert Neutral(Entries(pre[i]));
      } else {
        assert (pre + commit)[i] == commit[i - |pre|];
      }
    }
  }

  lemma {:induction false} ReplayWithoutReceipts(s: Store, writes: seq<Write>, made: seq<Receipt>)
    requires StoredFrom(s, made) && forall i | 0 <= i < |writes| :: NoReceipts(Entries(writes[i]))
    ensures StoredFrom(Replay(s, writes), made)
  {
    if writes != [] {
      ReplayWithoutReceipts(s, writes[..|writes| - 1], made);
    }
  }

  lemma ReplayWithReceipts(s: Store, writes: seq<Write>, made: seq<Receipt>, receipts: seq<Receipt>)
    requires StoredFrom(s, made) && LastHoldsReceipts(writes, receipts)
    ensures StoredFrom(Replay(s, writes), made + receipts)
  {
    ReplayWithoutReceipts(s, writes[..|writes| - 1], made);
  }

  lemma CrashWithReceipts(s: Store, writes: seq<Write>, cut: Cut, made: seq<Receipt>, receipts: seq<Receipt>)
    requires StoredFrom(s, made) && LastHoldsReceipts(writes, receipts)
    ensures StoredFrom(Crashed(s, writes, cut), if cut.after < |writes| then made else made + receipts)
  {
    if cut.after < |writes| {
      ReplayWithoutReceipts(s, writes[..cut.after], made);
      assert NoReceipts(Landed(writes[cut.after], cut.landed));
    } else {
      ReplayWithReceipts(s, writes, made, receipts);
    }
  }

  lemma StoredFromMore(s: Store, made: seq<Receipt>, receipts: seq<Receipt>)
    requires StoredFrom(s, made)
    ensures StoredFrom(s, made + receipts)
  {
  }

  /** The store after an event. */
  lemma EventStoresReceipts(evm: Evm, n: Node, made: seq<Receipt>, e: Event)
    requires StoredFrom(n.store, made) && Next(evm, n, e).Some?
    ensures StoredFrom(Next(evm, n, e).value.store, MadeNext(evm, n, made, e))
  {
    var receipts := Work(evm, n, e.op).receipts;
    if e.op.Deliver? {
      StoredFromMore(n.store, made, receipts);
    } else {
      OperationHoldsReceipts(evm, n, e.op);
      match e {
        case Run(op) => ReplayWithReceipts(n.store, Writes(evm, n, op), made, receipts);
        case Crash(op, cut) =>
          CrashWithReceipts(n.store, Writes(evm, n, op), cut, made, receipts);
          if cut.after < |Writes(evm, n, op)| {
            StoredFromMore(Crashed(n.store, Writes(evm, n, op), cut), made, receipts);
          }
      }
    }
  }

  /** The receipts an event leaves in memory and in the history of those made. */
  lemma EventMakesReceipts(evm: Evm, n: Node, past: seq<Tx>, made: seq<Receipt>, e: Event)
    requires Lawful(evm) && NodeInv(n, past) && Next(evm, n, e).Some?
    requires Aligned(past, made) && AllTruthful(made) && AllTruthful(n.was.receipts)
    ensures Aligned(PastNext(evm, n, past, e), MadeNext(evm, n, made, e))
    ensures AllTruthful(MadeNext(evm, n, made, e)) && AllTruthful(Next(evm, n, e).value.was.receipts)
  {
    WorkKeepsWas(evm, n, past, e.op);
    WorkKeepsTruth(evm, n, e.op);
    AlignedExtends(past, made, Work(evm, n, e.op));
  }

  /**
   In every life of a node, crashes included, every stored receipt is the very one that was appended when
   its transaction was applied.
   */
  lemma {:induction false} StoredReceiptsWereMade(evm: Evm, events: seq<Event>)
    requires Lawful(evm)
    ensures
      var n, made := Life(evm, map[], events), Made(evm, map[], events);
      && n.Some?
      && StoredFrom(n.value.store, made)
      && Aligned(Past(evm, map[], events), made)
      && AllTruthful(made) && AllTruthful(n.value.was.receipts)
  {
    EveryLifeIsSound(evm, events);
    if events != [] {
      var before, last := events[..|events| - 1], events[|events| - 1];
      StoredReceiptsWereMade(evm, before);
      EveryLifeIsSound(evm, before);
      var n := Life(evm, map[], before).value;
      EventStoresReceipts(evm, n, Made(evm, map[], before), last);
      EventMakesReceipts(evm, n, Past(evm, map[], before), Made(evm, map[], before), last);
    }
  }

  lemma OnceInPast(past: seq<Tx>, i: nat, j: nat)
    requires Ordered(past) && i < |past| && j < |past| && past[i] == past[j]
    ensures i == j
  {
  }

  /** So what a stored receipt says is what was made for its transaction, which happened only once. */
  lemma StoredReceiptIsTheOneMade(evm: Evm, events: seq<Event>, n: Node, h: Hash)
    requires Lawful(evm) && Life(evm, map[], events) == Some(n) && ReceiptKey(h) in n.store
    ensures
      var past, made := Past(evm, map[], events), Made(evm, map[], events);
      && Aligned(past, made)
      && exists i: nat ::
           && i < |made| && n.store[ReceiptKey(h)] == ReceiptV(made[i]) && h == OfTx(past[i])
           && forall j: nat :: j < |past| && OfTx(past[j]) == h ==> j == i
  {
    EveryLifeIsSound(evm, events);
    StoredReceiptsWereMade(evm, events);
    var past, made := Past(evm, map[], events), Made(evm, map[], events);
    var i :| 0 <= i < |made| && made[i] == n.store[ReceiptKey(h)].receipt;
    forall j: nat | j < |past| && OfTx(past[j]) == h ensures j == i {
      OnceInPast(past, i, j);
    }
  }

  lemma OrderedNonces(past: seq<Tx>, t: Tx, u: Tx)
    requires Ordered(past) && t in past && u in past && t.from == u.from && t.nonce == u.nonce
    ensures t == u
  {
    var i :| 0 <= i < |past| && past[i] == t;
    var j :| 0 <= j < |past| && past[j] == u;
  }

  /** No two stored receipts ever claim the same contract address. */
  lemma ContractAddressesNeverRepeat(evm: Evm, events: seq<Event>, n: Node, h: Hash, k: Hash)
    requires Lawful(evm)
    requires Life(evm, map[], events) == Some(n) && ReceiptKey(h) in n.store && ReceiptKey(k) in n.store
    ensures
      var a, b := n.store[ReceiptKey(h)], n.store[ReceiptKey(k)];
      && a.ReceiptV? && b.ReceiptV?
      && (a.receipt.contractAddress.Some? && a.receipt.contractAddress == b.receipt.contractAddress ==> h == k)
  {
    EveryLifeIsSound(evm, events);
    StoredReceiptsWereMade(evm, events);
    var past := Past(evm, map[], events);
    var t, u := h.tx, k.tx;
    assert HashKey(OfTx(t)) in n.store && HashKey(OfTx(u)) in n.store;
    if t.from == u.from && t.nonce == u.nonce {
      OrderedNonces(past, t, u);
    }
  }
}
