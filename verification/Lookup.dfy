/** What the HTTP handlers report about a transaction, and how that agrees with history. */
module Lookup {
  import opened Wrappers
  import opened Types
  import opened Evm
  import opened Gas
  import opened Ledger
  import opened Storage
  import opened Machine
  import Genesis

  datatype Report =
    | Succeeded(tx: Tx, receipt: Receipt)
    | Failed(failedTx: Tx, error: string)
    | ServerError

  function GetTransaction(s: Store, h: Hash): Option<Tx> {
    if HashKey(h) in s && s[HashKey(h)].TxV? then Some(s[HashKey(h)].tx) else None
  }

  function GetReceipt(s: Store, h: Hash): Option<Receipt> {
    if ReceiptKey(h) in s && s[ReceiptKey(h)].ReceiptV? then Some(s[ReceiptKey(h)].receipt) else None
  }

  function GetFailedTx(s: Store, h: Hash): Option<(Tx, string)> {
    if ErrorKey(h) in s && s[ErrorKey(h)].ErrorV? then Some((s[ErrorKey(h)].failedTx, s[ErrorKey(h)].error)) else None
  }

  /** The two-step lookup: the transaction and its receipt, or else the error record. */
  function Lookup(s: Store, h: Hash): Report {
    match GetTransaction(s, h)
    case Some(tx) =>
      if tx.from.None? then ServerError
      else (match GetReceipt(s, h) case None => ServerError case Some(receipt) => Succeeded(tx, receipt))
    case None =>
      match GetFailedTx(s, h)
      case None => ServerError
      case Some(failed) => if failed.0.from.None? then ServerError else Failed(failed.0, failed.1)
  }

  /** One transaction's report inside a block's; None where the handler answers with an error. */
  function RawReport(s: Store, raw: Raw): Option<Report> {
    match Decode(raw)
    case None => None
    case Some(tx) => if Lookup(s, OfTx(tx)).ServerError? then None else Some(Lookup(s, OfTx(tx)))
  }

  /** The loop of the block handlers: the first transaction without a report fails the request. */
  method BlockReports(s: Store, raws: seq<Raw>) returns (ok: bool, reports: seq<Report>)
    ensures ok <==> forall i :: 0 <= i < |raws| ==> RawReport(s, raws[i]).Some?
    ensures ok ==> |reports| == |raws| && forall i :: 0 <= i < |raws| ==> RawReport(s, raws[i]) == Some(reports[i])
  {
    reports := [];
    for i := 0 to |raws|
      invariant |reports| == i
      invariant forall j :: 0 <= j < i ==> RawReport(s, raws[j]) == Some(reports[j])
    {
      match Decode(raws[i]) {
        case None => return false, reports;
        case Some(tx) =>
          var report := Lookup(s, OfTx(tx));
          if report.ServerError? {
            return false, reports;
          }
          reports := reports + [report];
      }
    }
    ok := true;
  }

  // ----- history -----

  /** One delivery of a transaction in a processed block, and what became of it. */
  datatype Attempt = Attempt(raw: Raw, verdict: Verdict, receipt: Option<Receipt>)

  /** What applying `raw` decides, and the receipt it appends. */
  function AttemptOf(evm: Evm, was: Was, raw: Raw, ctx: TxContext): Attempt {
    var (was', verdict) := ApplyRaw(evm, Saturate, was, raw, ctx);
    Attempt(raw, verdict, if verdict.Done? then Some(was'.receipts[|was'.receipts| - 1]) else None)
  }

  function BlockAttempts(evm: Evm, was: Was, raws: seq<Raw>, blockHash: Hash): seq<Attempt> {
    if raws == [] then []
    else
      var k := |raws| - 1;
      var before := Fold(evm, Saturate, was, raws[..k], blockHash);
      BlockAttempts(evm, was, raws[..k], blockHash)
      + [AttemptOf(evm, before, raws[k], TxContext(blockHash, k))]
  }

  /** A crash-free run of ProcessBlock. */
  function ProcessAll(evm: Evm, n: Node, blocks: seq<(Block, int)>): Node {
    if blocks == [] then n
    else
      var last := blocks[|blocks| - 1];
      Perform(evm, ProcessAll(evm, n, blocks[..|blocks| - 1]), Process(last.0, last.1))
  }

  function Attempts(evm: Evm, n: Node, blocks: seq<(Block, int)>): seq<Attempt> {
    if blocks == [] then []
    else
      var before, last := blocks[..|blocks| - 1], blocks[|blocks| - 1].0;
      Attempts(evm, n, before)
      + BlockAttempts(evm, ProcessAll(evm, n, before).was, last.transactions, BlockHash(last))
  }

  predicate Succeeds(a: Attempt, t: Tx) {
    Decode(a.raw) == Some(t) && a.verdict.Done?
  }

  predicate Refuses(raw: Raw, verdict: Verdict, t: Tx) {
    Decode(raw) == Some(t) && verdict.Refused?
  }

  predicate IsRefused(a: Attempt, t: Tx) {
    Refuses(a.raw, a.verdict, t)
  }

  ghost predicate EverSucceeded(attempts: seq<Attempt>, t: Tx) {
    exists a :: a in attempts && Succeeds(a, t)
  }

  ghost predicate EverRefused(attempts: seq<Attempt>, t: Tx) {
    exists a :: a in attempts && IsRefused(a, t)
  }

  ghost predicate EverDelivered(attempts: seq<Attempt>, t: Tx) {
    exists a :: a in attempts && Decode(a.raw) == Some(t)
  }

  /** The index records exactly the history. */
  ghost predicate Agrees(s: Store, attempts: seq<Attempt>) {
    forall t: Tx ::
      && (HashKey(OfTx(t)) in s <==> EverSucceeded(attempts, t))
      && (ReceiptKey(OfTx(t)) in s <==> EverSucceeded(attempts, t))
      && (ErrorKey(OfTx(t)) in s <==> EverRefused(attempts, t))
  }

  lemma EverConcat(a: seq<Attempt>, b: seq<Attempt>, t: Tx)
    ensures EverSucceeded(a + b, t) <==> EverSucceeded(a, t) || EverSucceeded(b, t)
    ensures EverRefused(a + b, t) <==> EverRefused(a, t) || EverRefused(b, t)
    ensures EverDelivered(a + b, t) <==> EverDelivered(a, t) || EverDelivered(b, t)
  {
    assert forall x :: x in a + b <==> x in a || x in b;
  }

  /** The write-ahead state collects exactly the successes. */
  lemma {:induction false} FoldCollects(evm: Evm, was: Was, raws: seq<Raw>, blockHash: Hash, t: Tx)
    ensures t in Fold(evm, Saturate, was, raws, blockHash).transactions
            <==> t in was.transactions || EverSucceeded(BlockAttempts(evm, was, raws, blockHash), t)
  {
    if raws != [] {
      var k := |raws| - 1;
      FoldCollects(evm, was, raws[..k], blockHash, t);
      var before := Fold(evm, Saturate, was, raws[..k], blockHash);
      var attempt := AttemptOf(evm, before, raws[k], TxContext(blockHash, k));
      EverConcat(BlockAttempts(evm, was, raws[..k], blockHash), [attempt], t);
      assert EverSucceeded([attempt], t) <==> Succeeds(attempt, t) by {
        assert attempt in [attempt];
      }
    }
  }

  /** The error records written are exactly for the refusals. */
  lemma {:induction false} ErrorPutsCollect(evm: Evm, was: Was, raws: seq<Raw>, blockHash: Hash, t: Tx)
    ensures Spares(ErrorPuts(evm, was, raws, blockHash), ErrorKey(OfTx(t)))
            <==> !EverRefused(BlockAttempts(evm, was, raws, blockHash), t)
    ensures Spares(ErrorPuts(evm, was, raws, blockHash), HashKey(OfTx(t)))
    ensures Spares(ErrorPuts(evm, was, raws, blockHash), ReceiptKey(OfTx(t)))
  {
    if raws != [] {
      var k := |raws| - 1;
      ErrorPutsCollect(evm, was, raws[..k], blockHash, t);
      var before := Fold(evm, Saturate, was, raws[..k], blockHash);
      var verdict := ApplyRaw(evm, Saturate, before, raws[k], TxContext(blockHash, k)).1;
      var attempt := AttemptOf(evm, before, raws[k], TxContext(blockHash, k));
      EverConcat(BlockAttempts(evm, was, raws[..k], blockHash), [attempt], t);
      assert EverRefused([attempt], t) <==> IsRefused(attempt, t) by {
        assert attempt in [attempt];
      }
      var puts := ErrorPuts(evm, was, raws[..k], blockHash);
      SparesConcat(puts, ErrorPut(raws[k], verdict), ErrorKey(OfTx(t)));
      SparesConcat(puts, ErrorPut(raws[k], verdict), HashKey(OfTx(t)));
      SparesConcat(puts, ErrorPut(raws[k], verdict), ReceiptKey(OfTx(t)));
      ErrorPutSpares(raws[k], verdict, t);
    }
  }

  lemma ErrorPutSpares(raw: Raw, verdict: Verdict, t: Tx)
    ensures Spares(ErrorPut(raw, verdict), ErrorKey(OfTx(t))) <==> !Refuses(raw, verdict, t)
    ensures Spares(ErrorPut(raw, verdict), HashKey(OfTx(t))) && Spares(ErrorPut(raw, verdict), ReceiptKey(OfTx(t)))
  {
    if Refuses(raw, verdict, t) {
      assert ErrorKey(OfTx(t)) in Entries(ErrorPut(raw, verdict)[0]);
    }
  }

  lemma CommitCovers(was: Was, t: Tx)
    requires Paired(was)
    ensures
      var commit := CommitWrites(was.world, was.transactions, was.receipts);
      && (Spares(commit, HashKey(OfTx(t))) <==> t !in was.transactions)
      && (Spares(commit, ReceiptKey(OfTx(t))) <==> t !in was.transactions)
      && Spares(commit, ErrorKey(OfTx(t)))
  {
    var commit := CommitWrites(was.world, was.transactions, was.receipts);
    TxBatchHolds(was.transactions);
    ReceiptBatchHolds(was.receipts);
    if t in was.transactions {
      assert HashKey(OfTx(t)) in Entries(commit[4]);
      var i :| 0 <= i < |was.transactions| && was.transactions[i] == t;
      assert was.receipts[i] in was.receipts;
      assert ReceiptFor(was.receipts, OfTx(t));
      assert ReceiptKey(OfTx(t)) in Entries(commit[5]);
    } else {
      CommitSpares(was, t);
    }
  }

  /** Of a block's writes only its errors and its commit concern the index of transactions. */
  lemma ProcessSpares(evm: Evm, n: Node, block: Block, now: int, k: Key)
    requires k.ErrorKey? || k.ReceiptKey? || (k.HashKey? && k.hash.OfTx?)
    ensures
      var was := Work(evm, n, Process(block, now));
      Spares(Writes(evm, n, Process(block, now)), k)
      <==> (&& Spares(ErrorPuts(evm, n.was, block.transactions, BlockHash(block)), k)
            && Spares(CommitWrites(was.world, was.transactions, was.receipts), k))
  {
    var was := Work(evm, n, Process(block, now));
    var puts, errors := BlockPuts(block, now), ErrorPuts(evm, n.was, block.transactions, BlockHash(block));
    SparesConcat(puts, errors, k);
    SparesConcat(puts + errors, CommitWrites(was.world, was.transactions, was.receipts), k);
    assert Spares(puts, k);
  }

  lemma ProcessKeys(evm: Evm, n: Node, past: seq<Tx>, block: Block, now: int, t: Tx)
    requires Lawful(evm) && NodeInv(n, past) && n.was.transactions == []
    ensures
      var writes := Writes(evm, n, Process(block, now));
      var attempts := BlockAttempts(evm, n.was, block.transactions, BlockHash(block));
      && (Spares(writes, HashKey(OfTx(t))) <==> !EverSucceeded(attempts, t))
      && (Spares(writes, ReceiptKey(OfTx(t))) <==> !EverSucceeded(attempts, t))
      && (Spares(writes, ErrorKey(OfTx(t))) <==> !EverRefused(attempts, t))
  {
    assert Paired(Work(evm, n, Process(block, now))) by {
      WorkKeepsWas(evm, n, past, Process(block, now));
    }
    CommitCovers(Work(evm, n, Process(block, now)), t);
    FoldCollects(evm, n.was, block.transactions, BlockHash(block), t);
    ErrorPutsCollect(evm, n.was, block.transactions, BlockHash(block), t);
    ProcessSpares(evm, n, block, now, HashKey(OfTx(t)));
    ProcessSpares(evm, n, block, now, ReceiptKey(OfTx(t)));
    ProcessSpares(evm, n, block, now, ErrorKey(OfTx(t)));
  }

  lemma ProcessAgrees(evm: Evm, n: Node, past: seq<Tx>, attempts: seq<Attempt>, block: Block, now: int)
    requires Lawful(evm) && NodeInv(n, past) && n.was.transactions == [] && Agrees(n.store, attempts)
    ensures
      Agrees(Perform(evm, n, Process(block, now)).store,
             attempts + BlockAttempts(evm, n.was, block.transactions, BlockHash(block)))
  {
    var op := Process(block, now);
    var more := BlockAttempts(evm, n.was, block.transactions, BlockHash(block));
    var writes := Writes(evm, n, op);
    forall t: Tx
      ensures
        var s' := Replay(n.store, writes);
        && (HashKey(OfTx(t)) in s' <==> EverSucceeded(attempts + more, t))
        && (ReceiptKey(OfTx(t)) in s' <==> EverSucceeded(attempts + more, t))
        && (ErrorKey(OfTx(t)) in s' <==> EverRefused(attempts + more, t))
    {
      ProcessKeys(evm, n, past, block, now, t);
      EverConcat(attempts, more, t);
      ReplayKeys(n.store, writes, HashKey(OfTx(t)));
      ReplayKeys(n.store, writes, ReceiptKey(OfTx(t)));
      ReplayKeys(n.store, writes, ErrorKey(OfTx(t)));
    }
  }

  /** The successes so far, in order. */
  ghost function PastOf(evm: Evm, n: Node, past: seq<Tx>, blocks: seq<(Block, int)>): seq<Tx> {
    if blocks == [] then past
    else
      var before, last := blocks[..|blocks| - 1], blocks[|blocks| - 1];
      PastNext(evm, ProcessAll(evm, n, before), PastOf(evm, n, past, before), Run(Process(last.0, last.1)))
  }

  lemma {:induction false} RunAgrees(evm: Evm, n: Node, past: seq<Tx>, blocks: seq<(Block, int)>)
    requires Lawful(evm) && NodeInv(n, past) && n.was.transactions == [] && Agrees(n.store, [])
    ensures
      var n' := ProcessAll(evm, n, blocks);
      NodeInv(n', PastOf(evm, n, past, blocks)) && n'.was.transactions == [] && Agrees(n'.store, Attempts(evm, n, blocks))
  {
    if blocks != [] {
      var before, last := blocks[..|blocks| - 1], blocks[|blocks| - 1];
      RunAgrees(evm, n, past, before);
      RunKeepsNode(evm, ProcessAll(evm, n, before), PastOf(evm, n, past, before), Process(last.0, last.1));
      ProcessAgrees(evm, ProcessAll(evm, n, before), PastOf(evm, n, past, before), Attempts(evm, n, before), last.0, last.1);
    }
  }

  /** A database holding no index entries yet, such as a new one after its genesis accounts. */
  ghost predicate Unindexed(n: Node) {
    n.was.transactions == [] && Agrees(n.store, [])
  }

  lemma EmptyCommitIndexesNothing(s: Store, was: Was, t: Tx)
    requires Paired(was) && was.transactions == []
    ensures
      var s' := Replay(s, CommitWrites(was.world, was.transactions, was.receipts));
      && (HashKey(OfTx(t)) in s' <==> HashKey(OfTx(t)) in s)
      && (ReceiptKey(OfTx(t)) in s' <==> ReceiptKey(OfTx(t)) in s)
      && (ErrorKey(OfTx(t)) in s' <==> ErrorKey(OfTx(t)) in s)
  {
    var writes := CommitWrites(was.world, was.transactions, was.receipts);
    CommitCovers(was, t);
    SparedReplay(s, writes, HashKey(OfTx(t)));
    SparedReplay(s, writes, ReceiptKey(OfTx(t)));
    SparedReplay(s, writes, ErrorKey(OfTx(t)));
  }

  lemma GenesisIsUnindexed(evm: Evm, allocs: seq<Genesis.Alloc>)
    requires Lawful(evm)
    ensures
      var n := Perform(evm, Boot(map[]).value, CreateAccounts(allocs));
      NodeInv(n, []) && Unindexed(n)
  {
    var n0 := Boot(map[]).value;
    var op := CreateAccounts(allocs);
    assert NodeInv(n0, []) by {
      FreshWas(map[], []);
    }
    var was := Work(evm, n0, op);
    assert Paired(was) && was.transactions == [] by {
      WorkKeepsWas(evm, n0, [], op);
    }
    assert NodeInv(Perform(evm, n0, op), []) by {
      RunKeepsNode(evm, n0, [], op);
    }
    assert Writes(evm, n0, op) == CommitWrites(was.world, was.transactions, was.receipts);
    forall t: Tx
      ensures
        var s := Perform(evm, n0, op).store;
        HashKey(OfTx(t)) !in s && ReceiptKey(OfTx(t)) !in s && ErrorKey(OfTx(t)) !in s
    {
      EmptyCommitIndexesNothing(map[], was, t);
    }
  }

  /** What the lookup says of a sound store, in terms of the keys it holds. */
  lemma LookupReads(s: Store, past: seq<Tx>, t: Tx)
    requires StoreInv(s, past) && t.from.Some?
    ensures
      var report := Lookup(s, OfTx(t));
      && (report.Succeeded? <==> HashKey(OfTx(t)) in s && ReceiptKey(OfTx(t)) in s)
      && (report.Succeeded? ==> report.tx == t && report.receipt.txHash == OfTx(t))
      && (report.Failed? <==> HashKey(OfTx(t)) !in s && ErrorKey(OfTx(t)) in s)
      && (report.Failed? ==> report.failedTx == t)
  {
  }

  /**
   After any crash-free run of ProcessBlock a validly signed transaction is reported as succeeded,
   with its own receipt, exactly if some delivery of it succeeded; as failed exactly if every
   delivery was refused; and as unknown exactly if it was never delivered.
   */
  lemma LookupAgreesWithHistory(evm: Evm, n: Node, past: seq<Tx>, blocks: seq<(Block, int)>, t: Tx)
    requires Lawful(evm) && NodeInv(n, past) && Unindexed(n) && t.from.Some?
    ensures
      var s := ProcessAll(evm, n, blocks).store;
      var attempts := Attempts(evm, n, blocks);
      var report := Lookup(s, OfTx(t));
      && (report.Succeeded? <==> EverSucceeded(attempts, t))
      && (report.Succeeded? ==>
            && report.tx == t && report.receipt.txHash == OfTx(t)
            && exists a :: a in attempts && Succeeds(a, t)
                           && a.receipt == Some(report.receipt) && a.verdict == Done(report.receipt.gasUsed))
      && (report.Failed? <==> EverDelivered(attempts, t) && !EverSucceeded(attempts, t))
      && (report.Failed? ==> report.failedTx == t)
      && (report.ServerError? <==> !EverDelivered(attempts, t))
  {
    RunAgrees(evm, n, past, blocks);
    SuccessShowsItsReceipt(evm, n, past, blocks, t);
    DeliveredIsDecided(evm, n, blocks, t);
    OutcomesAreDelivered(Attempts(evm, n, blocks), t);
    LookupReads(ProcessAll(evm, n, blocks).store, PastOf(evm, n, past, blocks), t);
  }

  lemma OutcomesAreDelivered(attempts: seq<Attempt>, t: Tx)
    ensures EverSucceeded(attempts, t) || EverRefused(attempts, t) ==> EverDelivered(attempts, t)
  {
  }

  /** A validly signed transaction is either accepted or refused by the EVM: nothing else. */
  lemma {:induction false} BlockIsDecided(evm: Evm, was: Was, raws: seq<Raw>, blockHash: Hash, t: Tx)
    requires t.from.Some?
    ensures
      var attempts := BlockAttempts(evm, was, raws, blockHash);
      EverDelivered(attempts, t) ==> EverSucceeded(attempts, t) || EverRefused(attempts, t)
  {
    if raws != [] {
      var k := |raws| - 1;
      BlockIsDecided(evm, was, raws[..k], blockHash, t);
      var before := Fold(evm, Saturate, was, raws[..k], blockHash);
      var attempt := AttemptOf(evm, before, raws[k], TxContext(blockHash, k));
      EverConcat(BlockAttempts(evm, was, raws[..k], blockHash), [attempt], t);
      if Decode(raws[k]) == Some(t) {
        assert attempt in [attempt];
        assert Succeeds(attempt, t) || IsRefused(attempt, t);
      }
    }
  }

  lemma {:induction false} DeliveredIsDecided(evm: Evm, n: Node, blocks: seq<(Block, int)>, t: Tx)
    requires t.from.Some?
    ensures
      var attempts := Attempts(evm, n, blocks);
      EverDelivered(attempts, t) ==> EverSucceeded(attempts, t) || EverRefused(attempts, t)
  {
    if blocks != [] {
      var before, last := blocks[..|blocks| - 1], blocks[|blocks| - 1].0;
      DeliveredIsDecided(evm, n, before, t);
      var was := ProcessAll(evm, n, before).was;
      BlockIsDecided(evm, was, last.transactions, BlockHash(last), t);
      EverConcat(Attempts(evm, n, before), BlockAttempts(evm, was, last.transactions, BlockHash(last)), t);
    }
  }

  lemma {:induction false} BlockDelivers(evm: Evm, was: Was, raws: seq<Raw>, blockHash: Hash, i: nat)
    requires i < |raws|
    ensures exists a :: a in BlockAttempts(evm, was, raws, blockHash) && a.raw == raws[i]
  {
    var k := |raws| - 1;
    var last := AttemptOf(evm, Fold(evm, Saturate, was, raws[..k], blockHash), raws[k], TxContext(blockHash, k));
    if i < k {
      BlockDelivers(evm, was, raws[..k], blockHash, i);
      var a :| a in BlockAttempts(evm, was, raws[..k], blockHash) && a.raw == raws[i];
      assert a in BlockAttempts(evm, was, raws, blockHash);
    } else {
      assert last in BlockAttempts(evm, was, raws, blockHash);
    }
  }

  lemma {:induction false} RunDelivers(evm: Evm, n: Node, blocks: seq<(Block, int)>, b: nat, i: nat)
    requires b < |blocks| && i < |blocks[b].0.transactions|
    ensures exists a :: a in Attempts(evm, n, blocks) && a.raw == blocks[b].0.transactions[i]
  {
    var before, last := blocks[..|blocks| - 1], blocks[|blocks| - 1].0;
    var was := ProcessAll(evm, n, before).was;
    var raw := blocks[b].0.transactions[i];
    if b < |blocks| - 1 {
      RunDelivers(evm, n, before, b, i);
      var a :| a in Attempts(evm, n, before) && a.raw == raw;
      assert a in Attempts(evm, n, blocks);
    } else {
      BlockDelivers(evm, was, last.transactions, BlockHash(last), i);
      var a :| a in BlockAttempts(evm, was, last.transactions, BlockHash(last)) && a.raw == raw;
      assert a in Attempts(evm, n, blocks);
    }
  }

  /** The invalidly signed are never indexed, so a block with one, or with garbage, cannot be shown. */
  lemma BlockIsShownIff(evm: Evm, n: Node, past: seq<Tx>, blocks: seq<(Block, int)>, b: nat)
    requires Lawful(evm) && NodeInv(n, past) && Unindexed(n) && b < |blocks|
    ensures
      var s := ProcessAll(evm, n, blocks).store;
      var raws := blocks[b].0.transactions;
      (forall i :: 0 <= i < |raws| ==> RawReport(s, raws[i]).Some?) <==> (forall i :: 0 <= i < |raws| ==> Signed(raws[i]).Some?)
  {
    var s := ProcessAll(evm, n, blocks).store;
    var raws := blocks[b].0.transactions;
    RunAgrees(evm, n, past, blocks);
    forall i | 0 <= i < |raws| ensures RawReport(s, raws[i]).Some? <==> Signed(raws[i]).Some? {
      RunDelivers(evm, n, blocks, b, i);
      if Signed(raws[i]).Some? {
        LookupAgreesWithHistory(evm, n, past, blocks, Signed(raws[i]).value);
      }
    }
  }

  // ----- blocks by index and by hash -----

  function GetBlockById(s: Store, index: int): Option<Block> {
    if BlockKey(index) in s && s[BlockKey(index)].BlockV? then Some(s[BlockKey(index)].block) else None
  }

  function GetBlock(s: Store, h: Hash): Option<Block> {
    if HashKey(h) in s && s[HashKey(h)].BlockV? then Some(s[HashKey(h)].block) else None
  }

  predicate IsBlockKey(k: Key) {
    k.BlockKey? || (k.HashKey? && k.hash.OfBlock?)
  }

  lemma {:induction false} ErrorPutsSpareBlocks(evm: Evm, was: Was, raws: seq<Raw>, blockHash: Hash, k: Key)
    requires IsBlockKey(k)
    ensures Spares(ErrorPuts(evm, was, raws, blockHash), k)
  {
    if raws != [] {
      ErrorPutsSpareBlocks(evm, was, raws[..|raws| - 1], blockHash, k);
    }
  }

  lemma CommitSparesBlocks(was: Was, k: Key)
    requires IsBlockKey(k)
    ensures Spares(CommitWrites(was.world, was.transactions, was.receipts), k)
  {
    TxBatchHolds(was.transactions);
    ReceiptBatchHolds(was.receipts);
  }

  predicate StoredUnder(k: Key, block: Block) {
    k == BlockKey(block.index) || k == HashKey(BlockHash(block))
  }

  lemma PutsThenRest(s: Store, block: Block, now: int, rest: seq<Write>, k: Key)
    requires Spares(rest, k)
    ensures
      var s' := Replay(s, BlockPuts(block, now) + rest);
      ValueAt(s', k) == if StoredUnder(k, block) then Some(BlockV(StoredBlock(block, now))) else ValueAt(s, k)
  {
    var puts := BlockPuts(block, now);
    ReplayConcat(s, puts, rest);
    SparedReplay(Replay(s, puts), rest, k);
    PutsReplay(s, block, now);
  }

  /** Under a block key, a block leaves itself if the key is its own, and otherwise what was there. */
  lemma BlockKeyAfter(evm: Evm, n: Node, block: Block, now: int, k: Key)
    requires IsBlockKey(k)
    ensures
      var s := Perform(evm, n, Process(block, now)).store;
      ValueAt(s, k) == if StoredUnder(k, block) then Some(BlockV(StoredBlock(block, now))) else ValueAt(n.store, k)
  {
    var was := Work(evm, n, Process(block, now));
    var puts, errors := BlockPuts(block, now), ErrorPuts(evm, n.was, block.transactions, BlockHash(block));
    var commit := CommitWrites(was.world, was.transactions, was.receipts);
    ErrorPutsSpareBlocks(evm, n.was, block.transactions, BlockHash(block), k);
    CommitSparesBlocks(was, k);
    SparesConcat(errors, commit, k);
    assert puts + errors + commit == puts + (errors + commit);
    PutsThenRest(n.store, block, now, errors + commit, k);
  }

  lemma PutsReplay(s: Store, block: Block, now: int)
    ensures
      var stored := BlockV(StoredBlock(block, now));
      Replay(s, BlockPuts(block, now)) == s + map[HashKey(BlockHash(block)) := stored] + map[BlockKey(block.index) := stored]
  {
    var puts := BlockPuts(block, now);
    assert puts[..1][..0] == [];
    assert Replay(s, puts[..1]) == s + Entries(puts[0]);
  }

  lemma BlockKeyAfterRun(evm: Evm, n: Node, before: seq<(Block, int)>, last: (Block, int), k: Key)
    requires IsBlockKey(k)
    ensures
      ValueAt(ProcessAll(evm, n, before + [last]).store, k)
      == if StoredUnder(k, last.0) then Some(BlockV(StoredBlock(last.0, last.1)))
         else ValueAt(ProcessAll(evm, n, before).store, k)
  {
    assert (before + [last])[..|before + [last]| - 1] == before;
    BlockKeyAfter(evm, ProcessAll(evm, n, before), last.0, last.1, k);
  }

  lemma {:induction false} KeyHoldsUntilReplaced(evm: Evm, n: Node, blocks: seq<(Block, int)>, b: nat, k: Key)
    requires b < |blocks| && IsBlockKey(k) && StoredUnder(k, blocks[b].0)
    requires forall c | b < c < |blocks| :: !StoredUnder(k, blocks[c].0)
    ensures ValueAt(ProcessAll(evm, n, blocks).store, k) == Some(BlockV(StoredBlock(blocks[b].0, blocks[b].1)))
  {
    var before, last := blocks[..|blocks| - 1], blocks[|blocks| - 1];
    Snoc(blocks);
    BlockKeyAfterRun(evm, n, before, last, k);
    if b < |before| {
      assert before[b] == blocks[b] && !StoredUnder(k, last.0);
      KeyHoldsUntilReplaced(evm, n, before, b, k);
    }
  }

  /**
   A processed block is found under its index, and under its hash, until another block comes with the
   same index or hash: transactions, receipts, errors and trie nodes never get in the way.
   */
  lemma BlockIsFoundUntilReplaced(evm: Evm, n: Node, blocks: seq<(Block, int)>, b: nat)
    requires b < |blocks|
    ensures (forall c | b < c < |blocks| :: blocks[c].0.index != blocks[b].0.index) ==>
              GetBlockById(ProcessAll(evm, n, blocks).store, blocks[b].0.index)
              == Some(StoredBlock(blocks[b].0, blocks[b].1))
    ensures (forall c | b < c < |blocks| :: blocks[c].0.id != blocks[b].0.id) ==>
              GetBlock(ProcessAll(evm, n, blocks).store, BlockHash(blocks[b].0))
              == Some(StoredBlock(blocks[b].0, blocks[b].1))
  {
    if forall c | b < c < |blocks| :: blocks[c].0.index != blocks[b].0.index {
      KeyHoldsUntilReplaced(evm, n, blocks, b, BlockKey(blocks[b].0.index));
    }
    if forall c | b < c < |blocks| :: blocks[c].0.id != blocks[b].0.id {
      KeyHoldsUntilReplaced(evm, n, blocks, b, HashKey(BlockHash(blocks[b].0)));
    }
  }

  // ----- which error is reported -----

  /** The error of the latest refusal of `t`. */
  function LastRefusal(attempts: seq<Attempt>, t: Tx): Option<string> {
    if attempts == [] then None
    else
      var last := attempts[|attempts| - 1];
      if IsRefused(last, t) then Some(last.verdict.error) else LastRefusal(attempts[..|attempts| - 1], t)
  }

  function Or<T>(first: Option<T>, second: Option<T>): Option<T> {
    if first.Some? then first else second
  }

  function Record(t: Tx, error: Option<string>): Option<Value> {
    if error.Some? then Some(ErrorV(t, error.value)) else None
  }

  lemma {:induction false} LastRefusalConcat(a: seq<Attempt>, b: seq<Attempt>, t: Tx)
    ensures LastRefusal(a + b, t) == Or(LastRefusal(b, t), LastRefusal(a, t))
  {
    if b == [] {
      assert a + b == a;
    } else {
      assert (a + b)[..|a + b| - 1] == a + b[..|b| - 1];
      LastRefusalConcat(a, b[..|b| - 1], t);
    }
  }

  lemma ErrorPutValue(s: Store, a: Attempt, t: Tx)
    ensures
      ValueAt(Replay(s, ErrorPut(a.raw, a.verdict)), ErrorKey(OfTx(t)))
      == Or(Record(t, LastRefusal([a], t)), ValueAt(s, ErrorKey(OfTx(t))))
  {
    var put := ErrorPut(a.raw, a.verdict);
    assert put != [] ==> Replay(s, put[..0]) == s;
    assert LastRefusal([a][..0], t) == None;
  }

  lemma {:induction false} ErrorPutsValue(evm: Evm, was: Was, raws: seq<Raw>, blockHash: Hash, s: Store, t: Tx)
    ensures
      ValueAt(Replay(s, ErrorPuts(evm, was, raws, blockHash)), ErrorKey(OfTx(t)))
      == Or(Record(t, LastRefusal(BlockAttempts(evm, was, raws, blockHash), t)), ValueAt(s, ErrorKey(OfTx(t))))
  {
    if raws != [] {
      var k := |raws| - 1;
      var before := Fold(evm, Saturate, was, raws[..k], blockHash);
      var attempt := AttemptOf(evm, before, raws[k], TxContext(blockHash, k));
      var puts := ErrorPuts(evm, was, raws[..k], blockHash);
      ErrorPutsValue(evm, was, raws[..k], blockHash, s, t);
      ReplayConcat(s, puts, ErrorPut(raws[k], attempt.verdict));
      ErrorPutValue(Replay(s, puts), attempt, t);
      LastRefusalConcat(BlockAttempts(evm, was, raws[..k], blockHash), [attempt], t);
    }
  }

  lemma CommitSparesErrors(was: Was, t: Tx)
    ensures Spares(CommitWrites(was.world, was.transactions, was.receipts), ErrorKey(OfTx(t)))
  {
    TxBatchHolds(was.transactions);
    ReceiptBatchHolds(was.receipts);
  }

  lemma AroundTheErrors(s: Store, puts: seq<Write>, errors: seq<Write>, commit: seq<Write>, k: Key)
    requires Spares(puts, k) && Spares(commit, k)
    ensures ValueAt(Replay(s, puts + errors + commit), k) == ValueAt(Replay(Replay(s, puts), errors), k)
    ensures ValueAt(Replay(s, puts), k) == ValueAt(s, k)
  {
    ReplayConcat(s, puts, errors);
    ReplayConcat(s, puts + errors, commit);
    SparedReplay(Replay(s, puts + errors), commit, k);
    SparedReplay(s, puts, k);
  }

  lemma ErrorAfterBlock(evm: Evm, n: Node, block: Block, now: int, t: Tx)
    ensures
      ValueAt(Perform(evm, n, Process(block, now)).store, ErrorKey(OfTx(t)))
      == Or(Record(t, LastRefusal(BlockAttempts(evm, n.was, block.transactions, BlockHash(block)), t)),
            ValueAt(n.store, ErrorKey(OfTx(t))))
  {
    var was := Work(evm, n, Process(block, now));
    var puts, errors := BlockPuts(block, now), ErrorPuts(evm, n.was, block.transactions, BlockHash(block));
    CommitSparesErrors(was, t);
    AroundTheErrors(n.store, puts, errors, CommitWrites(was.world, was.transactions, was.receipts), ErrorKey(OfTx(t)));
    ErrorPutsValue(evm, n.was, block.transactions, BlockHash(block), Replay(n.store, puts), t);
  }

  /** The error record is that of the latest refusal, if the run saw one. */
  predicate ShowsLastRefusal(evm: Evm, n: Node, blocks: seq<(Block, int)>, t: Tx) {
    ValueAt(ProcessAll(evm, n, blocks).store, ErrorKey(OfTx(t)))
    == Or(Record(t, LastRefusal(Attempts(evm, n, blocks), t)), ValueAt(n.store, ErrorKey(OfTx(t))))
  }

  lemma ErrorAfterLast(evm: Evm, n: Node, before: seq<(Block, int)>, last: (Block, int), t: Tx)
    requires ShowsLastRefusal(evm, n, before, t)
    ensures ShowsLastRefusal(evm, n, before + [last], t)
  {
    var blocks := before + [last];
    assert blocks[..|blocks| - 1] == before;
    var n1 := ProcessAll(evm, n, before);
    var more := BlockAttempts(evm, n1.was, last.0.transactions, BlockHash(last.0));
    ErrorAfterBlock(evm, n1, last.0, last.1, t);
    assert Attempts(evm, n, blocks) == Attempts(evm, n, before) + more;
    LastRefusalConcat(Attempts(evm, n, before), more, t);
  }

  lemma NoErrorYet(evm: Evm, n: Node, t: Tx)
    ensures ShowsLastRefusal(evm, n, [], t)
  {
  }

  /** After any crash-free run the error record of a transaction is that of its latest refusal. */
  lemma {:induction false} ErrorIsTheLastRefusal(evm: Evm, n: Node, blocks: seq<(Block, int)>, t: Tx)
    ensures ShowsLastRefusal(evm, n, blocks, t)
  {
    if blocks != [] {
      var before, last := blocks[..|blocks| - 1], blocks[|blocks| - 1];
      Snoc(blocks);
      ErrorIsTheLastRefusal(evm, n, before, t);
      ErrorAfterLast(evm, n, before, last, t);
    } else {
      NoErrorYet(evm, n, t);
    }
  }

  lemma FailureNamesTheLastError(evm: Evm, n: Node, past: seq<Tx>, blocks: seq<(Block, int)>, t: Tx)
    requires Lawful(evm) && NodeInv(n, past) && Unindexed(n) && t.from.Some?
    ensures
      var report := Lookup(ProcessAll(evm, n, blocks).store, OfTx(t));
      report.Failed? ==> LastRefusal(Attempts(evm, n, blocks), t) == Some(report.error)
  {
    ErrorIsTheLastRefusal(evm, n, blocks, t);
    assert !EverRefused([], t);
    FailureReads(ProcessAll(evm, n, blocks).store, t);
  }

  lemma FailureReads(s: Store, t: Tx)
    ensures
      var report := Lookup(s, OfTx(t));
      report.Failed? ==> ValueAt(s, ErrorKey(OfTx(t))) == Some(ErrorV(report.failedTx, report.error))
  {
  }

  // ----- which receipt is reported -----

  /** The receipt of the latest success of `t`. */
  function LastSuccess(attempts: seq<Attempt>, t: Tx): Option<Receipt> {
    if attempts == [] then None
    else
      var last := attempts[|attempts| - 1];
      if Succeeds(last, t) then last.receipt else LastSuccess(attempts[..|attempts| - 1], t)
  }

  lemma {:induction false} LastSuccessConcat(a: seq<Attempt>, b: seq<Attempt>, t: Tx)
    requires forall x | x in b :: x.verdict.Done? ==> x.receipt.Some?
    ensures LastSuccess(a + b, t) == Or(LastSuccess(b, t), LastSuccess(a, t))
  {
    if b == [] {
      assert a + b == a;
    } else {
      assert (a + b)[..|a + b| - 1] == a + b[..|b| - 1];
      assert b[|b| - 1] in b;
      LastSuccessConcat(a, b[..|b| - 1], t);
    }
  }

  /** An attempt carries a receipt exactly if it succeeded, and then its own. */
  predicate Carries(a: Attempt) {
    if a.verdict.Done? then
      && a.receipt.Some? && a.receipt.value.gasUsed == a.verdict.gasUsed
      && Decode(a.raw).Some? && a.receipt.value.txHash == OfTx(Decode(a.raw).value)
    else a.receipt == None
  }

  lemma AttemptCarries(evm: Evm, was: Was, raw: Raw, ctx: TxContext)
    ensures Carries(AttemptOf(evm, was, raw, ctx))
    ensures
      var a, was' := AttemptOf(evm, was, raw, ctx), ApplyRaw(evm, Saturate, was, raw, ctx).0;
      was'.receipts == was.receipts + if a.receipt.Some? then [a.receipt.value] else []
  {
  }

  lemma {:induction false} BlockCarries(evm: Evm, was: Was, raws: seq<Raw>, blockHash: Hash)
    ensures forall a | a in BlockAttempts(evm, was, raws, blockHash) :: Carries(a)
  {
    if raws != [] {
      var k := |raws| - 1;
      BlockCarries(evm, was, raws[..k], blockHash);
      AttemptCarries(evm, Fold(evm, Saturate, was, raws[..k], blockHash), raws[k], TxContext(blockHash, k));
    }
  }

  lemma {:induction false} RunCarries(evm: Evm, n: Node, blocks: seq<(Block, int)>)
    ensures forall a | a in Attempts(evm, n, blocks) :: Carries(a)
  {
    if blocks != [] {
      var before, last := blocks[..|blocks| - 1], blocks[|blocks| - 1].0;
      RunCarries(evm, n, before);
      BlockCarries(evm, ProcessAll(evm, n, before).was, last.transactions, BlockHash(last));
    }
  }

  lemma LastReceiptExtends(receipts: seq<Receipt>, a: Attempt, t: Tx)
    requires Carries(a)
    ensures
      LastReceipt(receipts + if a.receipt.Some? then [a.receipt.value] else [], OfTx(t))
      == Or(LastSuccess([a], t), LastReceipt(receipts, OfTx(t)))
  {
    assert LastSuccess([a][..0], t) == None;
    assert receipts + [] == receipts;
    if a.receipt.Some? {
      assert (receipts + [a.receipt.value])[..|receipts|] == receipts;
    }
  }

  lemma {:induction false} FoldReceipts(evm: Evm, was: Was, raws: seq<Raw>, blockHash: Hash, t: Tx)
    ensures
      LastReceipt(Fold(evm, Saturate, was, raws, blockHash).receipts, OfTx(t))
      == Or(LastSuccess(BlockAttempts(evm, was, raws, blockHash), t), LastReceipt(was.receipts, OfTx(t)))
  {
    if raws != [] {
      var k := |raws| - 1;
      var before, ctx := Fold(evm, Saturate, was, raws[..k], blockHash), TxContext(blockHash, k);
      var a := AttemptOf(evm, before, raws[k], ctx);
      FoldReceipts(evm, was, raws[..k], blockHash, t);
      AttemptCarries(evm, before, raws[k], ctx);
      LastReceiptExtends(before.receipts, a, t);
      LastSuccessConcat(BlockAttempts(evm, was, raws[..k], blockHash), [a], t);
    }
  }

  lemma CommitReceiptValue(s: Store, was: Was, h: Hash)
    ensures
      ValueAt(Replay(s, CommitWrites(was.world, was.transactions, was.receipts)), ReceiptKey(h))
      == Or(AsValue(LastReceipt(was.receipts, h)), ValueAt(s, ReceiptKey(h)))
  {
    var commit := CommitWrites(was.world, was.transactions, was.receipts);
    ReceiptBatchIs(was.receipts, h);
    TxBatchHolds(was.transactions);
    assert commit[..5] + [commit[5]] == commit;
    assert Spares(commit[..5], ReceiptKey(h));
    SparedReplay(s, commit[..5], ReceiptKey(h));
    ReplayConcat(s, commit[..5], [commit[5]]);
    assert Replay(Replay(s, commit[..5]), [commit[5]][..0]) == Replay(s, commit[..5]);
  }

  lemma ReceiptAfterBlock(evm: Evm, n: Node, block: Block, now: int, t: Tx)
    requires n.was.receipts == []
    ensures
      ValueAt(Perform(evm, n, Process(block, now)).store, ReceiptKey(OfTx(t)))
      == Or(AsValue(LastSuccess(BlockAttempts(evm, n.was, block.transactions, BlockHash(block)), t)),
            ValueAt(n.store, ReceiptKey(OfTx(t))))
  {
    var was := Work(evm, n, Process(block, now));
    var pre := Prelude(evm, n, Process(block, now));
    FoldReceipts(evm, n.was, block.transactions, BlockHash(block), t);
    PreludeSpares(evm, n, block, now, t);
    ReplayConcat(n.store, pre, CommitWrites(was.world, was.transactions, was.receipts));
    SparedReplay(n.store, pre, ReceiptKey(OfTx(t)));
    CommitReceiptValue(Replay(n.store, pre), was, OfTx(t));
  }

  /** The stored receipt is that of the latest success, if the run saw one. */
  predicate ShowsLastSuccess(evm: Evm, n: Node, blocks: seq<(Block, int)>, t: Tx) {
    ValueAt(ProcessAll(evm, n, blocks).store, ReceiptKey(OfTx(t)))
    == Or(AsValue(LastSuccess(Attempts(evm, n, blocks), t)), ValueAt(n.store, ReceiptKey(OfTx(t))))
  }

  lemma ReceiptAfterLast(evm: Evm, n: Node, before: seq<(Block, int)>, last: (Block, int), t: Tx)
    requires ShowsLastSuccess(evm, n, before, t) && ProcessAll(evm, n, before).was.receipts == []
    ensures ShowsLastSuccess(evm, n, before + [last], t)
  {
    var blocks := before + [last];
    assert blocks[..|blocks| - 1] == before;
    var n1 := ProcessAll(evm, n, before);
    var more := BlockAttempts(evm, n1.was, last.0.transactions, BlockHash(last.0));
    ReceiptAfterBlock(evm, n1, last.0, last.1, t);
    BlockCarries(evm, n1.was, last.0.transactions, BlockHash(last.0));
    assert Attempts(evm, n, blocks) == Attempts(evm, n, before) + more;
    LastSuccessConcat(Attempts(evm, n, before), more, t);
  }

  lemma ProcessAllLeavesNothing(evm: Evm, n: Node, blocks: seq<(Block, int)>)
    ensures ProcessAll(evm, n, blocks).was.receipts == if blocks == [] then n.was.receipts else []
  {
  }

  lemma NoReceiptYet(evm: Evm, n: Node, t: Tx)
    ensures ShowsLastSuccess(evm, n, [], t)
  {
  }

  /** After any crash-free run the receipt of a transaction is the very one its success appended. */
  lemma {:induction false} ReceiptIsTheOneMade(evm: Evm, n: Node, blocks: seq<(Block, int)>, t: Tx)
    requires n.was.receipts == []
    ensures ShowsLastSuccess(evm, n, blocks, t)
  {
    if blocks != [] {
      var before, last := blocks[..|blocks| - 1], blocks[|blocks| - 1];
      Snoc(blocks);
      ReceiptIsTheOneMade(evm, n, before, t);
      ProcessAllLeavesNothing(evm, n, before);
      ReceiptAfterLast(evm, n, before, last, t);
    } else {
      NoReceiptYet(evm, n, t);
    }
  }

  lemma {:induction false} LastSuccessIsOne(attempts: seq<Attempt>, t: Tx)
    ensures LastSuccess(attempts, t).Some? ==>
              exists a :: a in attempts && Succeeds(a, t) && a.receipt == LastSuccess(attempts, t)
  {
    if attempts != [] {
      var last := attempts[|attempts| - 1];
      LastSuccessIsOne(attempts[..|attempts| - 1], t);
      assert last in attempts;
    }
  }

  /** The receipt reported, and the gas in it, are those of a delivery that succeeded. */
  lemma SuccessShowsItsReceipt(evm: Evm, n: Node, past: seq<Tx>, blocks: seq<(Block, int)>, t: Tx)
    requires Lawful(evm) && NodeInv(n, past) && Unindexed(n) && t.from.Some?
    ensures
      var report := Lookup(ProcessAll(evm, n, blocks).store, OfTx(t));
      report.Succeeded? ==>
        exists a :: a in Attempts(evm, n, blocks) && Succeeds(a, t)
                    && a.receipt == Some(report.receipt) && a.verdict == Done(report.receipt.gasUsed)
  {
    var attempts := Attempts(evm, n, blocks);
    ReceiptIsTheOneMade(evm, n, blocks, t);
    RunCarries(evm, n, blocks);
    LastSuccessIsOne(attempts, t);
    assert !EverSucceeded([], t);
    SuccessReads(ProcessAll(evm, n, blocks).store, t);
  }

  lemma SuccessReads(s: Store, t: Tx)
    ensures
      var report := Lookup(s, OfTx(t));
      report.Succeeded? ==> ValueAt(s, ReceiptKey(OfTx(t))) == Some(ReceiptV(report.receipt))
  {
  }

  // ----- what a crash does to the report -----

  /** Transactions are indexed by a commit's fifth write, receipts by its sixth. */
  lemma CommitPrefixCovers(was: Was, t: Tx, k: nat)
    requires Paired(was) && t in was.transactions && k <= 6
    ensures
      var done := CommitWrites(was.world, was.transactions, was.receipts)[..k];
      && (Spares(done, HashKey(OfTx(t))) <==> k < 5)
      && (Spares(done, ReceiptKey(OfTx(t))) <==> k < 6)
  {
    var commit := CommitWrites(was.world, was.transactions, was.receipts);
    EntriesCover(was, t);
    forall i | 0 <= i < k ensures commit[..k][i] == commit[i] {
    }
    if k >= 5 {
      assert HashKey(OfTx(t)) in Entries(commit[..k][4]);
    }
    if k >= 6 {
      assert ReceiptKey(OfTx(t)) in Entries(commit[..k][5]);
    }
  }

  lemma EntriesCover(was: Was, t: Tx)
    requires Paired(was) && t in was.transactions
    ensures
      var commit := CommitWrites(was.world, was.transactions, was.receipts);
      && (forall i | 0 <= i < 6 :: HashKey(OfTx(t)) in Entries(commit[i]) <==> i == 4)
      && (forall i | 0 <= i < 6 :: ReceiptKey(OfTx(t)) in Entries(commit[i]) <==> i == 5)
  {
    BatchesCover(was, t);
    assert HashKey(OfTx(t)) !in Leaves(was.world) && ReceiptKey(OfTx(t)) !in Leaves(was.world);
  }

  lemma BatchesCover(was: Was, t: Tx)
    requires Paired(was) && t in was.transactions
    ensures HashKey(OfTx(t)) in TxBatch(was.transactions) && ReceiptKey(OfTx(t)) !in TxBatch(was.transactions)
    ensures HashKey(OfTx(t)) !in ReceiptBatch(was.receipts) && ReceiptKey(OfTx(t)) in ReceiptBatch(was.receipts)
  {
    TxBatchHolds(was.transactions);
    ReceiptBatchHolds(was.receipts);
    var i :| 0 <= i < |was.transactions| && was.transactions[i] == t;
    assert was.receipts[i] in was.receipts;
    assert ReceiptFor(was.receipts, OfTx(t));
  }

  lemma CrashedCommitKeys(s: Store, was: Was, t: Tx, cut: Cut)
    requires Paired(was) && t in was.transactions && HashKey(OfTx(t)) !in s && ReceiptKey(OfTx(t)) !in s
    ensures
      var s' := Crashed(s, CommitWrites(was.world, was.transactions, was.receipts), cut);
      && (HashKey(OfTx(t)) in s' <==> cut.after >= 5)
      && (ReceiptKey(OfTx(t)) in s' <==> cut.after >= 6)
  {
    var commit := CommitWrites(was.world, was.transactions, was.receipts);
    var k := if cut.after < 6 then cut.after else 6;
    CommitPrefixCovers(was, t, k);
    assert commit[..6] == commit;
    ReplayKeys(s, commit[..k], HashKey(OfTx(t)));
    ReplayKeys(s, commit[..k], ReceiptKey(OfTx(t)));
    CommitCrashPoints(s, was.world, was.transactions, was.receipts, cut);
  }

  lemma PreludeSpares(evm: Evm, n: Node, block: Block, now: int, t: Tx)
    ensures Spares(Prelude(evm, n, Process(block, now)), HashKey(OfTx(t)))
    ensures Spares(Prelude(evm, n, Process(block, now)), ReceiptKey(OfTx(t)))
  {
    ErrorPutsCollect(evm, n.was, block.transactions, BlockHash(block), t);
    SparesConcat(BlockPuts(block, now), ErrorPuts(evm, n.was, block.transactions, BlockHash(block)), HashKey(OfTx(t)));
    SparesConcat(BlockPuts(block, now), ErrorPuts(evm, n.was, block.transactions, BlockHash(block)), ReceiptKey(OfTx(t)));
  }

  lemma CrashedBlockKeys(evm: Evm, n: Node, past: seq<Tx>, block: Block, now: int, cut: Cut, t: Tx)
    requires Lawful(evm) && NodeInv(n, past) && t in Work(evm, n, Process(block, now)).transactions
    ensures
      var done := CommitDone(evm, n, Process(block, now), cut);
      var s := Crashed(n.store, Writes(evm, n, Process(block, now)), cut);
      && (HashKey(OfTx(t)) in s <==> done >= 5)
      && (ReceiptKey(OfTx(t)) in s <==> done >= 6)
  {
    var op := Process(block, now);
    var was := Work(evm, n, op);
    WorkKeepsWas(evm, n, past, op);
    assert t !in past by {
      if t in past {
        HistoryNotRepeated(was, past, t);
      }
    }
    PreludeSpares(evm, n, block, now, t);
    CrashedKeys(n.store, Prelude(evm, n, op), was, t, cut);
  }

  lemma CrashedKeys(s: Store, pre: seq<Write>, was: Was, t: Tx, cut: Cut)
    requires Paired(was) && t in was.transactions && HashKey(OfTx(t)) !in s && ReceiptKey(OfTx(t)) !in s
    requires Spares(pre, HashKey(OfTx(t))) && Spares(pre, ReceiptKey(OfTx(t)))
    ensures
      var done := if cut.after < |pre| then 0 else cut.after - |pre|;
      var s' := Crashed(s, pre + CommitWrites(was.world, was.transactions, was.receipts), cut);
      && (HashKey(OfTx(t)) in s' <==> done >= 5)
      && (ReceiptKey(OfTx(t)) in s' <==> done >= 6)
  {
    CrashedConcat(s, pre, CommitWrites(was.world, was.transactions, was.receipts), cut);
    if cut.after < |pre| {
      SparedCrash(s, pre, cut, HashKey(OfTx(t)));
      SparedCrash(s, pre, cut, ReceiptKey(OfTx(t)));
    } else {
      SparedReplay(s, pre, HashKey(OfTx(t)));
      SparedReplay(s, pre, ReceiptKey(OfTx(t)));
      CrashedCommitKeys(Replay(s, pre), was, t, Cut(cut.after - |pre|, cut.landed));
    }
  }

  /**
   Where the promise of the lookup stops: a transaction that succeeded in the block in progress is
   in the recovered world exactly from the root write on, but it is reported as succeeded only when
   every write was made; cut one write short, the request fails although the transaction is stored.
   */
  lemma LookupAfterCrash(evm: Evm, n: Node, past: seq<Tx>, block: Block, now: int, cut: Cut, t: Tx)
    requires Lawful(evm) && NodeInv(n, past) && t in Work(evm, n, Process(block, now)).transactions
    ensures
      var done := CommitDone(evm, n, Process(block, now), cut);
      var n' := Next(evm, n, Crash(Process(block, now), cut));
      && n'.Some?
      && (t in PastNext(evm, n, past, Crash(Process(block, now), cut)) <==> done >= ROOT_WRITTEN)
      && (done >= ROOT_WRITTEN ==> t.from.Some? && t.nonce < Nonce(n'.value.committed, Keyed(t.from.value)))
      && (Lookup(n'.value.store, OfTx(t)).Succeeded? <==> done >= 6)
      && (done == 5 ==> Lookup(n'.value.store, OfTx(t)).ServerError?)
      && (done < 5 ==> (Lookup(n'.value.store, OfTx(t)).Failed? <==> ErrorKey(OfTx(t)) in n'.value.store))
      && (done < 5 && ErrorKey(OfTx(t)) !in n'.value.store ==> Lookup(n'.value.store, OfTx(t)).ServerError?)
  {
    var op := Process(block, now);
    CrashIsAtomic(evm, n, past, op, cut);
    HistoryAfterCrash(evm, n, past, op, cut, t);
    CrashedBlockKeys(evm, n, past, block, now, cut, t);
    var n' := Next(evm, n, Crash(op, cut)).value;
    StoredIsReported(n'.store, PastNext(evm, n, past, Crash(op, cut)), t);
  }

  lemma StoredIsReported(s: Store, past: seq<Tx>, t: Tx)
    requires StoreInv(s, past) && t.from.Some?
    ensures Lookup(s, OfTx(t)).Succeeded? <==> HashKey(OfTx(t)) in s && ReceiptKey(OfTx(t)) in s
    ensures HashKey(OfTx(t)) in s && ReceiptKey(OfTx(t)) !in s ==> Lookup(s, OfTx(t)).ServerError?
    ensures HashKey(OfTx(t)) !in s ==> (Lookup(s, OfTx(t)).Failed? <==> ErrorKey(OfTx(t)) in s)
    ensures HashKey(OfTx(t)) !in s && ErrorKey(OfTx(t)) !in s ==> Lookup(s, OfTx(t)).ServerError?
  {
  }

  lemma HistoryAfterCrash(evm: Evm, n: Node, past: seq<Tx>, op: Op, cut: Cut, t: Tx)
    requires Lawful(evm) && NodeInv(n, past) && t in Work(evm, n, op).transactions
    ensures t.from.Some?
    ensures t in PastNext(evm, n, past, Crash(op, cut)) <==> CommitDone(evm, n, op, cut) >= ROOT_WRITTEN
  {
    var was := Work(evm, n, op);
    WorkKeepsWas(evm, n, past, op);
    NewInHistory(was, past, t);
  }

  lemma NewInHistory(was: Was, past: seq<Tx>, t: Tx)
    requires WasInv(was, past) && t in was.transactions
    ensures t !in past && t in past + was.transactions && t.from.Some?
  {
    if t in past {
      HistoryNotRepeated(was, past, t);
    }
  }

  /** A block that only delivers `t`. */
  function Redelivery(t: Tx, id: nat, index: int): Block {
    Block(id, OfBlock(id), index, 0, [Encoded(t, [])])
  }

  /** What has taken effect is refused when it comes again, and leaves no trace in the write-ahead state. */
  lemma SpentIsRefused(evm: Evm, n: Node, past: seq<Tx>, t: Tx, ctx: TxContext)
    requires Lawful(evm) && NodeInv(n, past) && n.was == Fresh(n.committed) && t in past
    ensures
      var (was, verdict) := ApplyRaw(evm, Saturate, n.was, Encoded(t, []), ctx);
      was == n.was && verdict.Refused?
  {
    assert Law(evm, n.committed, AsMessage(t), GAS_LIMIT);
  }

  lemma OneTransactionBlock(evm: Evm, was: Was, raw: Raw, blockHash: Hash)
    ensures Fold(evm, Saturate, was, [raw], blockHash) == ApplyRaw(evm, Saturate, was, raw, TxContext(blockHash, 0)).0
    ensures BlockAttempts(evm, was, [raw], blockHash) == [AttemptOf(evm, was, raw, TxContext(blockHash, 0))]
  {
    assert [raw][..0] == [];
    assert Fold(evm, Saturate, was, [raw][..0], blockHash) == was;
    assert BlockAttempts(evm, was, [raw][..0], blockHash) == [];
  }

  lemma LastRefusalOfOne(a: Attempt, t: Tx)
    requires IsRefused(a, t)
    ensures LastRefusal([a], t) == Some(a.verdict.error)
  {
  }

  /** Its error record is written, and its index entry is not. */
  lemma RedeliveryKeys(evm: Evm, n: Node, past: seq<Tx>, t: Tx, id: nat, index: int, now: int)
    requires Lawful(evm) && NodeInv(n, past) && n.was == Fresh(n.committed) && t in past && HashKey(OfTx(t)) !in n.store
    ensures
      var n' := Perform(evm, n, Process(Redelivery(t, id, index), now));
      && n'.committed == n.committed
      && ErrorKey(OfTx(t)) in n'.store && HashKey(OfTx(t)) !in n'.store
  {
    var again := Redelivery(t, id, index);
    var op := Process(again, now);
    var ctx := TxContext(BlockHash(again), 0);
    SpentIsRefused(evm, n, past, t, ctx);
    OneTransactionBlock(evm, n.was, Encoded(t, []), BlockHash(again));
    LastRefusalOfOne(AttemptOf(evm, n.was, Encoded(t, []), ctx), t);
    ErrorAfterBlock(evm, n, again, now, t);
    HistorySpared(evm, n, past, op, t);
    SparedReplay(n.store, Writes(evm, n, op), HashKey(OfTx(t)));
  }

  /** Delivering such a transaction again is refused, and the report then says it failed. */
  lemma LostReceiptBecomesFailure(evm: Evm, n: Node, past: seq<Tx>, t: Tx, id: nat, index: int, now: int)
    requires Lawful(evm) && NodeInv(n, past) && n.was == Fresh(n.committed)
    requires t in past && HashKey(OfTx(t)) !in n.store
    ensures
      var n' := Perform(evm, n, Process(Redelivery(t, id, index), now));
      Lookup(n'.store, OfTx(t)).Failed? && n'.committed == n.committed
  {
    var op := Process(Redelivery(t, id, index), now);
    RedeliveryKeys(evm, n, past, t, id, index, now);
    RunKeepsNode(evm, n, past, op);
    LookupReads(Perform(evm, n, op).store, PastNext(evm, n, past, Run(op)), t);
  }
}
