/** The node as a state machine over its operations, its database writes and crashes between them. */
module Machine {
  import opened Wrappers
  import opened Types
  import opened Evm
  import opened Gas
  import opened Ledger
  import opened Storage
  import Genesis

  /** The database, the world last committed, and the write-ahead state. */
  datatype Node = Node(store: Store, committed: World, was: Was)

  /** The calls that write: Deliver is ApplyTransaction, on whose behalf consensus calls Commit. */
  datatype Op =
    | Process(block: Block, now: int)
    | CreateAccounts(allocs: seq<Genesis.Alloc>)
    | Deliver(raw: Raw, ctx: TxContext)
    | Commit

  function BlockHash(block: Block): Hash {
    OfBlock(block.id)
  }

  /** A block without a creation time is stamped before it is stored. */
  function StoredBlock(block: Block, now: int): Block {
    if block.createdTime == 0 then block.(createdTime := now) else block
  }

  function BlockPuts(block: Block, now: int): seq<Write> {
    var stored := BlockV(StoredBlock(block, now));
    [Put(HashKey(BlockHash(block)), stored), Put(BlockKey(block.index), stored)]
  }

  /** One error record for every transaction the EVM refuses, as it is refused. */
  function ErrorPuts(evm: Evm, was: Was, raws: seq<Raw>, blockHash: Hash): seq<Write> {
    if raws == [] then []
    else
      var n := |raws| - 1;
      var before := Fold(evm, Saturate, was, raws[..n], blockHash);
      ErrorPuts(evm, was, raws[..n], blockHash)
      + ErrorPut(raws[n], ApplyRaw(evm, Saturate, before, raws[n], TxContext(blockHash, n)).1)
  }

  function ErrorPut(raw: Raw, verdict: Verdict): seq<Write> {
    if Decode(raw).Some? && verdict.Refused? then
      [Put(ErrorKey(OfTx(Decode(raw).value)), ErrorV(Decode(raw).value, verdict.error))]
    else []
  }

  /** The write-ahead state after the operation's own work, before any commit. */
  function Work(evm: Evm, n: Node, op: Op): Was {
    match op
    case Process(block, _) => Fold(evm, Saturate, n.was, block.transactions, BlockHash(block))
    case CreateAccounts(allocs) => n.was.(world := Genesis.Enter(n.committed, n.was.world, allocs))
    case Deliver(raw, ctx) => ApplyRaw(evm, Truncate, n.was, raw, ctx).0
    case Commit => n.was
  }

  /** The writes made before the commit's own. */
  function Prelude(evm: Evm, n: Node, op: Op): seq<Write> {
    match op
    case Process(block, now) => BlockPuts(block, now) + ErrorPuts(evm, n.was, block.transactions, BlockHash(block))
    case _ => []
  }

  function Writes(evm: Evm, n: Node, op: Op): seq<Write> {
    if op.Deliver? then []
    else
      var was := Work(evm, n, op);
      Prelude(evm, n, op) + CommitWrites(was.world, was.transactions, was.receipts)
  }

  function Perform(evm: Evm, n: Node, op: Op): Node {
    var was := Work(evm, n, op);
    if op.Deliver? then n.(was := was)
    else Node(Replay(n.store, Writes(evm, n, op)), was.world, Fresh(was.world))
  }

  /** NewState on an existing database. */
  function Boot(s: Store): Option<Node> {
    match InitState(s)
    case None => None
    case Some(w) => Some(Node(s, w, Fresh(w)))
  }

  /** Either an operation completes, or the process dies inside it and is started again. */
  datatype Event = Run(op: Op) | Crash(op: Op, cut: Cut)

  function Next(evm: Evm, n: Node, e: Event): Option<Node> {
    match e
    case Run(op) => Some(Perform(evm, n, op))
    case Crash(op, cut) => Boot(Crashed(n.store, Writes(evm, n, op), cut))
  }

  /** A whole life of the node, from a database holding `s`. */
  function Life(evm: Evm, s: Store, events: seq<Event>): Option<Node> {
    if events == [] then Boot(s)
    else
      match Life(evm, s, events[..|events| - 1])
      case None => None
      case Some(n) => Next(evm, n, events[|events| - 1])
  }

  /** How many of the commit's writes a crash lets through. */
  function CommitDone(evm: Evm, n: Node, op: Op, cut: Cut): nat {
    var before := |Prelude(evm, n, op)|;
    if op.Deliver? || cut.after < before then 0 else cut.after - before
  }

  /** The transactions whose effects are in the stored root after `e`, in the order they succeeded. */
  ghost function PastNext(evm: Evm, n: Node, past: seq<Tx>, e: Event): seq<Tx> {
    var txs := Work(evm, n, e.op).transactions;
    match e
    case Run(op) => if op.Deliver? then past else past + txs
    case Crash(op, cut) => PastAfter(past, txs, CommitDone(evm, n, op, cut))
  }

  ghost function Past(evm: Evm, s: Store, events: seq<Event>): seq<Tx> {
    if events == [] then []
    else
      var before := events[..|events| - 1];
      match Life(evm, s, before)
      case None => []
      case Some(n) => PastNext(evm, n, Past(evm, s, before), events[|events| - 1])
  }

  ghost predicate NodeInv(n: Node, past: seq<Tx>) {
    && StoreInv(n.store, past)
    && Recovered(n.store) == n.committed
    && Canonical(n.committed)
    && Sequential(n.committed, past)
    && WasInv(n.was, past)
  }

  // ----- one operation -----

  lemma FreshWas(w: World, past: seq<Tx>)
    requires Canonical(w) && Sequential(w, past)
    ensures WasInv(Fresh(w), past)
  {
    assert past + [] == past;
  }

  lemma {:induction false} ErrorPutsNeutral(evm: Evm, was: Was, raws: seq<Raw>, blockHash: Hash)
    ensures AllNeutral(ErrorPuts(evm, was, raws, blockHash))
  {
    if raws != [] {
      ErrorPutsNeutral(evm, was, raws[..|raws| - 1], blockHash);
    }
  }

  lemma PreludeNeutral(evm: Evm, n: Node, op: Op)
    ensures AllNeutral(Prelude(evm, n, op))
  {
    if op.Process? {
      ErrorPutsNeutral(evm, n.was, op.block.transactions, BlockHash(op.block));
    }
  }

  lemma WorkKeepsWas(evm: Evm, n: Node, past: seq<Tx>, op: Op)
    requires Lawful(evm) && NodeInv(n, past)
    ensures WasInv(Work(evm, n, op), past)
  {
    match op {
      case Process(block, _) => BlockKeepsWas(evm, Saturate, n.was, past, block.transactions, BlockHash(block));
      case CreateAccounts(allocs) =>
        Genesis.EnterKeepsNonces(n.committed, n.was.world, allocs);
        SpentPersists(n.was.world, Work(evm, n, op).world, past + n.was.transactions);
      case Deliver(raw, ctx) => ApplyKeepsWas(evm, Truncate, n.was, past, raw, ctx);
      case Commit =>
    }
  }

  /** The store a crash leaves behind, wherever in the operation it falls. */
  lemma CrashedStore(evm: Evm, n: Node, past: seq<Tx>, op: Op, cut: Cut)
    requires Lawful(evm) && NodeInv(n, past) && !op.Deliver?
    ensures
      var was := Work(evm, n, op);
      Survives(n.store, Crashed(n.store, Writes(evm, n, op), cut), past, was.world, was.transactions,
               CommitDone(evm, n, op, cut))
  {
    var was := Work(evm, n, op);
    WorkKeepsWas(evm, n, past, op);
    PreludeNeutral(evm, n, op);
    OperationCrash(n.store, past, Prelude(evm, n, op), was.world, was.transactions, was.receipts, cut);
  }

  /** An operation that completes is one whose writes all survive. */
  lemma CompletedStore(evm: Evm, n: Node, past: seq<Tx>, op: Op)
    requires Lawful(evm) && NodeInv(n, past) && !op.Deliver?
    ensures
      var was := Work(evm, n, op);
      Survives(n.store, Perform(evm, n, op).store, past, was.world, was.transactions, 6)
  {
    var cut := Cut(|Writes(evm, n, op)|, {});
    CrashedStore(evm, n, past, op, cut);
    assert CommitDone(evm, n, op, cut) == 6;
  }

  lemma RunKeepsNode(evm: Evm, n: Node, past: seq<Tx>, op: Op)
    requires Lawful(evm) && NodeInv(n, past)
    ensures NodeInv(Perform(evm, n, op), PastNext(evm, n, past, Run(op)))
  {
    WorkKeepsWas(evm, n, past, op);
    if !op.Deliver? {
      CompletedStore(evm, n, past, op);
      FreshWas(Work(evm, n, op).world, past + Work(evm, n, op).transactions);
    }
  }

  /**
   Crash consistency: wherever an operation is cut off, InitState succeeds and finds exactly the
   committed world from before it, or exactly the one after it; which of the two depends only on
   whether the root write was reached.
   */
  lemma CrashIsAtomic(evm: Evm, n: Node, past: seq<Tx>, op: Op, cut: Cut)
    requires Lawful(evm) && NodeInv(n, past)
    ensures
      var n' := Next(evm, n, Crash(op, cut));
      && n'.Some?
      && n'.value.was == Fresh(n'.value.committed)
      && n'.value.committed == (if CommitDone(evm, n, op, cut) < ROOT_WRITTEN then n.committed
                                else Perform(evm, n, op).committed)
      && NodeInv(n'.value, PastNext(evm, n, past, Crash(op, cut)))
  {
    var past' := PastNext(evm, n, past, Crash(op, cut));
    var s' := Crashed(n.store, Writes(evm, n, op), cut);
    if !op.Deliver? {
      CrashedStore(evm, n, past, op, cut);
      WorkKeepsWas(evm, n, past, op);
    }
    InitStateSucceeds(s', past');
    FreshWas(Recovered(s'), past');
  }

  lemma RootStaysReadable(evm: Evm, n: Node, past: seq<Tx>, e: Event, w: World)
    requires Lawful(evm) && NodeInv(n, past) && HasRoot(n.store, w)
    ensures
      var n' := Next(evm, n, e);
      n'.Some? && HasRoot(n'.value.store, w) && ReadWorld(n'.value.store, OfRoot(w)) == Some(w)
  {
    match e {
      case Run(op) =>
        RunKeepsNode(evm, n, past, op);
        if !op.Deliver? {
          CompletedStore(evm, n, past, op);
        }
      case Crash(op, cut) =>
        CrashIsAtomic(evm, n, past, op, cut);
        if !op.Deliver? {
          CrashedStore(evm, n, past, op, cut);
        }
    }
    TrieRoundTrip(Next(evm, n, e).value.store, w);
  }

  lemma EventKeepsNode(evm: Evm, n: Node, past: seq<Tx>, e: Event)
    requires Lawful(evm) && NodeInv(n, past)
    ensures Next(evm, n, e).Some? && NodeInv(Next(evm, n, e).value, PastNext(evm, n, past, e))
  {
    match e {
      case Run(op) => RunKeepsNode(evm, n, past, op);
      case Crash(op, cut) => CrashIsAtomic(evm, n, past, op, cut);
    }
  }

  // ----- whole lives -----

  /** Over every life of a node, crashes included, a restart succeeds and the invariants hold. */
  lemma {:induction false} EveryLifeIsSound(evm: Evm, events: seq<Event>)
    requires Lawful(evm)
    ensures
      var n := Life(evm, map[], events);
      n.Some? && NodeInv(n.value, Past(evm, map[], events))
  {
    if events == [] {
      FreshWas(map[], []);
    } else {
      var last := |events| - 1;
      EveryLifeIsSound(evm, events[..last]);
      var n := Life(evm, map[], events[..last]).value;
      var past := Past(evm, map[], events[..last]);
      EventKeepsNode(evm, n, past, events[last]);
    }
  }

  /**
   At every point of every life: a stored receipt has its transaction stored, a stored transaction
   took effect in the stored root, and no sender's nonce took effect twice.
   */
  lemma StoredMeansExecutedOnce(evm: Evm, events: seq<Event>, n: Node, t: Tx)
    requires Lawful(evm)
    requires Life(evm, map[], events) == Some(n)
    ensures ReceiptKey(OfTx(t)) in n.store ==> HashKey(OfTx(t)) in n.store && n.store[HashKey(OfTx(t))] == TxV(t)
    ensures HashKey(OfTx(t)) in n.store ==> t.from.Some? && t.nonce < Nonce(n.committed, Keyed(t.from.value))
    ensures
      var past := Past(evm, map[], events);
      && (HashKey(OfTx(t)) in n.store ==> t in past)
      && forall i, j | 0 <= i < j < |past| && past[i].from == past[j].from :: past[i].nonce < past[j].nonce
  {
    EveryLifeIsSound(evm, events);
  }

  /** The rest of a node's life, from `n` on. */
  function Onward(evm: Evm, n: Node, events: seq<Event>): Option<Node>
    decreases |events|
  {
    if events == [] then Some(n)
    else
      match Next(evm, n, events[0])
      case None => None
      case Some(n') => Onward(evm, n', events[1..])
  }

  /** Every root ever written stays readable, and reads as the same world, for the rest of a node's life. */
  lemma {:induction false} RootsStayReadable(evm: Evm, n: Node, past: seq<Tx>, events: seq<Event>, w: World)
    requires Lawful(evm) && NodeInv(n, past) && HasRoot(n.store, w)
    ensures
      var n' := Onward(evm, n, events);
      n'.Some? && ReadWorld(n'.value.store, OfRoot(w)) == Some(w)
    decreases |events|
  {
    if events == [] {
      TrieRoundTrip(n.store, w);
    } else {
      EventKeepsNode(evm, n, past, events[0]);
      RootStaysReadable(evm, n, past, events[0], w);
      RootsStayReadable(evm, Next(evm, n, events[0]).value, PastNext(evm, n, past, events[0]), events[1..], w);
    }
  }

  // ----- receipts are final -----

  ghost predicate Spares(writes: seq<Write>, k: Key) {
    forall i :: 0 <= i < |writes| ==> k !in Entries(writes[i])
  }

  lemma {:induction false} ReplayKeys(s: Store, writes: seq<Write>, k: Key)
    ensures k in Replay(s, writes) <==> k in s || !Spares(writes, k)
  {
    if writes != [] {
      var n := |writes| - 1;
      ReplayKeys(s, writes[..n], k);
      assert Spares(writes, k) <==> Spares(writes[..n], k) && k !in Entries(writes[n]);
    }
  }

  lemma SparesConcat(a: seq<Write>, b: seq<Write>, k: Key)
    ensures Spares(a + b, k) <==> Spares(a, k) && Spares(b, k)
  {
    forall i | 0 <= i < |a| ensures (a + b)[i] == a[i] {
    }
    forall i | 0 <= i < |b| ensures (a + b)[|a| + i] == b[i] {
    }
  }

  predicate AgreeOn(n1: Node, n2: Node, k: Key) {
    && n1.committed == n2.committed
    && n1.was == n2.was
    && (k in n1.store <==> k in n2.store)
    && (k in n1.store ==> n1.store[k] == n2.store[k])
  }

  lemma {:induction false} SameWritesAgree(s1: Store, s2: Store, writes: seq<Write>, k: Key)
    requires (k in s1 <==> k in s2) && (k in s1 ==> s1[k] == s2[k])
    ensures
      var s1', s2' := Replay(s1, writes), Replay(s2, writes);
      (k in s1' <==> k in s2') && (k in s1' ==> s1'[k] == s2'[k])
  {
    if writes != [] {
      SameWritesAgree(s1, s2, writes[..|writes| - 1], k);
    }
  }

  lemma CommitOnlyFlushes(evm: Evm, n: Node)
    ensures Writes(evm, n, Op.Commit) == CommitWrites(n.was.world, n.was.transactions, n.was.receipts)
  {
  }

  /** Blocks, error records and the head are kept apart from the index of transactions. */
  lemma NeutralSpares(writes: seq<Write>, t: Tx)
    requires AllNeutral(writes)
    ensures Spares(writes, HashKey(OfTx(t))) && Spares(writes, ReceiptKey(OfTx(t)))
  {
  }

  lemma {:induction false} SparedReplay(s: Store, writes: seq<Write>, k: Key)
    requires Spares(writes, k)
    ensures k in Replay(s, writes) <==> k in s
    ensures k in s ==> Replay(s, writes)[k] == s[k]
  {
    if writes != [] {
      SparedReplay(s, writes[..|writes| - 1], k);
    }
  }

  lemma SparedCrash(s: Store, writes: seq<Write>, cut: Cut, k: Key)
    requires Spares(writes, k)
    ensures k in Crashed(s, writes, cut) <==> k in s
    ensures k in s ==> Crashed(s, writes, cut)[k] == s[k]
  {
    SparedReplay(s, if cut.after < |writes| then writes[..cut.after] else writes, k);
  }

  lemma OrderedApart(a: seq<Tx>, b: seq<Tx>, i: nat, j: nat)
    requires Ordered(a + b) && i < |a| && j < |b|
    ensures a[i] != b[j]
  {
    assert (a + b)[i] == a[i] && (a + b)[|a| + j] == b[j];
  }

  lemma HistoryNotRepeated(was: Was, past: seq<Tx>, t: Tx)
    requires WasInv(was, past) && t in past
    ensures t !in was.transactions
  {
    var i :| 0 <= i < |past| && past[i] == t;
    forall j | 0 <= j < |was.transactions| ensures was.transactions[j] != t {
      OrderedApart(past, was.transactions, i, j);
    }
  }

  lemma CommitSpares(was: Was, t: Tx)
    requires Paired(was) && t !in was.transactions
    ensures
      var commit := CommitWrites(was.world, was.transactions, was.receipts);
      Spares(commit, HashKey(OfTx(t))) && Spares(commit, ReceiptKey(OfTx(t)))
  {
    TxBatchHolds(was.transactions);
    ReceiptBatchHolds(was.receipts);
    assert !ReceiptFor(was.receipts, OfTx(t));
  }

  /** A transaction already in the history is not written again. */
  lemma HistorySpared(evm: Evm, n: Node, past: seq<Tx>, op: Op, t: Tx)
    requires Lawful(evm) && NodeInv(n, past) && t in past
    ensures Spares(Writes(evm, n, op), HashKey(OfTx(t)))
    ensures Spares(Writes(evm, n, op), ReceiptKey(OfTx(t)))
  {
    if !op.Deliver? {
      WorkKeepsWas(evm, n, past, op);
      var was := Work(evm, n, op);
      HistoryNotRepeated(was, past, t);
      CommitSpares(was, t);
      PreludeNeutral(evm, n, op);
      NeutralSpares(Prelude(evm, n, op), t);
      var commit := CommitWrites(was.world, was.transactions, was.receipts);
      SparesConcat(Prelude(evm, n, op), commit, HashKey(OfTx(t)));
      SparesConcat(Prelude(evm, n, op), commit, ReceiptKey(OfTx(t)));
    }
  }

  /** The receipt and the transaction under `h` are there, and the same as in `s`. */
  predicate KeepsReceipt(s: Store, s': Store, h: Hash) {
    && ReceiptKey(h) in s && ReceiptKey(h) in s' && s'[ReceiptKey(h)] == s[ReceiptKey(h)]
    && HashKey(h) in s && HashKey(h) in s' && s'[HashKey(h)] == s[HashKey(h)]
  }

  lemma ReceiptIsKept(evm: Evm, n: Node, past: seq<Tx>, e: Event, h: Hash)
    requires Lawful(evm) && NodeInv(n, past) && ReceiptKey(h) in n.store
    ensures
      var n' := Next(evm, n, e);
      n'.Some? && KeepsReceipt(n.store, n'.value.store, h)
  {
    assert HashKey(OfTx(h.tx)) in n.store;
    HistorySpared(evm, n, past, e.op, h.tx);
    var writes := Writes(evm, n, e.op);
    match e {
      case Run(op) =>
        SparedReplay(n.store, writes, HashKey(h));
        SparedReplay(n.store, writes, ReceiptKey(h));
      case Crash(op, cut) =>
        CrashIsAtomic(evm, n, past, op, cut);
        SparedCrash(n.store, writes, cut, HashKey(h));
        SparedCrash(n.store, writes, cut, ReceiptKey(h));
    }
  }

  /** No later block, replay or crash ever changes a stored receipt or its transaction. */
  lemma {:induction false} ReceiptsAreFinal(evm: Evm, n: Node, past: seq<Tx>, events: seq<Event>, h: Hash)
    requires Lawful(evm) && NodeInv(n, past) && ReceiptKey(h) in n.store
    ensures
      var n' := Onward(evm, n, events);
      n'.Some? && KeepsReceipt(n.store, n'.value.store, h)
    decreases |events|
  {
    if events != [] {
      EventKeepsNode(evm, n, past, events[0]);
      ReceiptIsKept(evm, n, past, events[0], h);
      ReceiptsAreFinal(evm, Next(evm, n, events[0]).value, PastNext(evm, n, past, events[0]), events[1..], h);
    }
  }

  lemma LostEntryStaysLost(evm: Evm, n: Node, past: seq<Tx>, e: Event, t: Tx)
    requires Lawful(evm) && NodeInv(n, past) && t in past && HashKey(OfTx(t)) !in n.store
    ensures
      var n' := Next(evm, n, e);
      n'.Some? && HashKey(OfTx(t)) !in n'.value.store && t in PastNext(evm, n, past, e)
  {
    EventKeepsNode(evm, n, past, e);
    HistorySpared(evm, n, past, e.op, t);
    match e {
      case Run(op) => SparedReplay(n.store, Writes(evm, n, op), HashKey(OfTx(t)));
      case Crash(op, cut) => SparedCrash(n.store, Writes(evm, n, op), cut, HashKey(OfTx(t)));
    }
  }

  /** A transaction that took effect but whose index entry a crash has lost is not indexed ever again. */
  lemma {:induction false} LostEntriesStayLost(evm: Evm, n: Node, past: seq<Tx>, events: seq<Event>, t: Tx)
    requires Lawful(evm) && NodeInv(n, past) && t in past && HashKey(OfTx(t)) !in n.store
    ensures
      var n' := Onward(evm, n, events);
      n'.Some? && HashKey(OfTx(t)) !in n'.value.store
    decreases |events|
  {
    if events != [] {
      EventKeepsNode(evm, n, past, events[0]);
      LostEntryStaysLost(evm, n, past, events[0], t);
      LostEntriesStayLost(evm, Next(evm, n, events[0]).value, PastNext(evm, n, past, events[0]), events[1..], t);
    }
  }

  // ----- the head -----

  lemma CommitHead(s: Store, w: World, txs: seq<Tx>, receipts: seq<Receipt>)
    ensures
      var s' := Replay(s, CommitWrites(w, txs, receipts));
      HeadKey in s' && s'[HeadKey] == HeadV(Head(txs))
  {
    var writes := CommitWrites(w, txs, receipts);
    var done, rest := writes[..4], writes[4..];
    ReplayStep(s, writes, 3);
    BatchesSpareHead(txs, receipts);
    assert Spares(rest, HeadKey);
    SparedReplay(Replay(s, done), rest, HeadKey);
    ReplayConcat(s, done, rest);
    assert writes == done + rest;
  }

  lemma BatchesSpareHead(txs: seq<Tx>, receipts: seq<Receipt>)
    ensures HeadKey !in TxBatch(txs) && HeadKey !in ReceiptBatch(receipts)
  {
    TxBatchHolds(txs);
    ReceiptBatchHolds(receipts);
  }

  /**
   After a commit the head is the last transaction that succeeded, and can be looked up; unless none
   did, when it becomes the hash of the empty transaction, which never can be.
   */
  lemma HeadCanBeLookedUpIff(evm: Evm, n: Node, past: seq<Tx>, op: Op)
    requires Lawful(evm) && NodeInv(n, past) && !op.Deliver?
    ensures
      var s := Perform(evm, n, op).store;
      var txs := Work(evm, n, op).transactions;
      && HeadKey in s && s[HeadKey].HeadV?
      && (HashKey(s[HeadKey].head) in s <==> txs != [])
      && (txs != [] ==> s[HeadKey].head == OfTx(txs[|txs| - 1]))
  {
    var was := Work(evm, n, op);
    var commit := CommitWrites(was.world, was.transactions, was.receipts);
    ReplayConcat(n.store, Prelude(evm, n, op), commit);
    CommitHead(Replay(n.store, Prelude(evm, n, op)), was.world, was.transactions, was.receipts);
    RunKeepsNode(evm, n, past, op);
    if was.transactions != [] {
      TxBatchHolds(was.transactions);
      var t := was.transactions[|was.transactions| - 1];
      assert HashKey(OfTx(t)) in Entries(commit[4]);
      ReplayKeys(Replay(n.store, Prelude(evm, n, op)), commit, HashKey(OfTx(t)));
    } else {
      EmptyTxIsNotStored(Perform(evm, n, op), PastNext(evm, n, past, Run(op)));
    }
  }

  lemma EmptyTxIsNotStored(n: Node, past: seq<Tx>)
    requires NodeInv(n, past)
    ensures HashKey(OfTx(EMPTY_TX)) !in n.store
  {
  }
}
