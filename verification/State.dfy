/** The mutable objects: the database, the three worlds, the write-ahead state, the pool and State. */
module EvmState {
  import opened Wrappers
  import opened Types
  import opened Evm
  import opened Gas
  import opened Ledger
  import opened Storage
  import opened Machine
  import opened Sessions
  import DryRun
  import Genesis

  class Database {
    var store: Store
    /** Every write made through this object, in order. */
    ghost var writes: seq<Write>

    constructor (s: Store)
      ensures store == s && writes == []
    {
      store := s;
      writes := [];
    }

    method Put(k: Key, v: Value)
      modifies this
      ensures store == old(store) + map[k := v]
      ensures writes == old(writes) + [Write.Put(k, v)]
    {
      store := store[k := v];
      writes := writes + [Write.Put(k, v)];
    }

    method WriteBatch(batch: Store)
      modifies this
      ensures store == old(store) + batch && writes == old(writes) + [Batch(batch)]
    {
      store := store + batch;
      writes := writes + [Batch(batch)];
    }

    method FlushNodes(nodes: Store)
      modifies this
      ensures store == old(store) + nodes && writes == old(writes) + [Flush(nodes)]
    {
      store := store + nodes;
      writes := writes + [Flush(nodes)];
    }
  }

  /** One in-memory copy of the world. */
  class StateDB {
    var world: World

    constructor (w: World)
      ensures world == w
    {
      world := w;
    }

    /** Fails, and leaves the copy alone, when the trie at `root` cannot be opened. */
    method Reset(db: Database, root: Hash) returns (ok: bool)
      modifies this
      ensures ok <==> ReadWorld(db.store, root).Some?
      ensures world == if ok then ReadWorld(db.store, root).value else old(world)
    {
      match ReadWorld(db.store, root) {
        case Some(w) => world := w; ok := true;
        case None => ok := false;
      }
    }

    method Copy() returns (copy: StateDB)
      ensures fresh(copy) && copy.world == world
    {
      copy := new StateDB(world);
    }

    method AddBalance(a: Address, amount: nat)
      modifies this
      ensures world == Genesis.AddBalance(old(world), a, amount)
    {
      world := Genesis.AddBalance(world, a, amount);
    }

    method SetCode(a: Address, code: seq<nat>)
      modifies this
      ensures world == Genesis.SetCode(old(world), a, code)
    {
      world := Genesis.SetCode(world, a, code);
    }

    method SetState(a: Address, key: nat, value: nat)
      modifies this
      ensures world == Genesis.SetState(old(world), a, key, value)
    {
      world := Genesis.SetState(world, a, key, value);
    }

    /** Drop the empty accounts: the first thing a commit of this copy does. */
    method Finalise()
      modifies this
      ensures world == Genesis.Finalise(old(world))
    {
      world := Genesis.Finalise(world);
    }

    method CreateAccount(alloc: Genesis.Alloc)
      modifies this
      ensures world == Genesis.Create(old(world), alloc)
    {
      AddBalance(alloc.address, alloc.balance);
      SetCode(alloc.address, alloc.code);
      ghost var w := world;
      for i := 0 to |alloc.storage|
        invariant world == Genesis.SetStates(w, alloc.address, alloc.storage[..i])
      {
        assert alloc.storage[..i + 1][..i] == alloc.storage[..i];
        SetState(alloc.address, alloc.storage[i].0, alloc.storage[i].1);
      }
      assert alloc.storage[..|alloc.storage|] == alloc.storage;
    }
  }

  lemma OneWrite(s: Store, write: Write)
    ensures Replay(s, [write]) == s + Entries(write)
  {
    assert [write][..0] == [];
  }

  lemma SixWrites(before: seq<Write>, a: Write, b: Write, c: Write, d: Write, e: Write, f: Write)
    ensures before + [a] + [b] + [c] + [d] + [e] + [f] == before + [a, b, c, d, e, f]
  {
  }

  /** Opening a StateDB at `root`. */
  method Open(db: Database, root: Hash) returns (opening: StateDB?)
    ensures opening == null <==> ReadWorld(db.store, root).None?
    ensures opening != null ==> fresh(opening) && opening.world == ReadWorld(db.store, root).value
  {
    opening := null;
    var copy := new StateDB(map[]);
    var ok := copy.Reset(db, root);
    if ok {
      opening := copy;
    }
  }

  /** A node that has just opened its database, whether or not its gas pool exists yet. */
  lemma OpenedNode(s: Store, past: seq<Tx>, pool: nat)
    requires StoreInv(s, past) && Sequential(Recovered(s), past) && pool <= GAS_LIMIT
    ensures Storage.InitState(s) == Some(Recovered(s))
    ensures NodeInv(Machine.Node(s, Recovered(s), Was(Recovered(s), 0, [], [], [], 0, pool)), past)
    ensures RootKey in s ==> s[RootKey].RootV?
  {
    InitStateSucceeds(s, past);
    assert past + [] == past;
  }

  /** The node just before an operation's commit. */
  function BeforeCommit(evm: Evm, n: Node, op: Op): Node {
    Machine.Node(Replay(n.store, Prelude(evm, n, op)), n.committed, Work(evm, n, op))
  }

  lemma BeforeCommitIsSound(evm: Evm, n: Node, past: seq<Tx>, op: Op)
    requires Lawful(evm) && NodeInv(n, past) && !op.Deliver?
    ensures NodeInv(BeforeCommit(evm, n, op), past)
  {
    WorkKeepsWas(evm, n, past, op);
    PreludeNeutral(evm, n, op);
    NeutralReplay(n.store, past, Prelude(evm, n, op));
  }

  /** Committing that node completes the operation. */
  lemma CommitCompletes(evm: Evm, n: Node, op: Op)
    requires !op.Deliver?
    ensures Perform(evm, BeforeCommit(evm, n, op), Op.Commit) == Perform(evm, n, op)
    ensures Writes(evm, n, op) == Prelude(evm, n, op) + Writes(evm, BeforeCommit(evm, n, op), Op.Commit)
  {
    var was := Work(evm, n, op);
    var commit := CommitWrites(was.world, was.transactions, was.receipts);
    assert [] + commit == commit;
    assert Writes(evm, BeforeCommit(evm, n, op), Op.Commit) == commit;
    ReplayConcat(n.store, Prelude(evm, n, op), commit);
  }

  /** What the methods need to know of an operation before they commit it. */
  lemma OperationSplits(evm: Evm, n: Node, past: seq<Tx>, op: Op, written: seq<Write>)
    requires Lawful(evm) && NodeInv(n, past) && !op.Deliver?
    ensures
      var before := BeforeCommit(evm, n, op);
      && NodeInv(before, past)
      && Perform(evm, before, Op.Commit) == Perform(evm, n, op)
      && written + Prelude(evm, n, op) + Writes(evm, before, Op.Commit) == written + Writes(evm, n, op)
  {
    BeforeCommitIsSound(evm, n, past, op);
    CommitCompletes(evm, n, op);
    WritesInTwoParts(written, Prelude(evm, n, op), Writes(evm, BeforeCommit(evm, n, op), Op.Commit));
  }

  /** Genesis writes nothing before its commit. */
  lemma GenesisSplits(evm: Evm, n: Node, past: seq<Tx>, allocs: seq<Genesis.Alloc>)
    requires Lawful(evm) && NodeInv(n, past)
    ensures
      var op := Op.CreateAccounts(allocs);
      var before := n.(was := n.was.(world := Genesis.Enter(n.committed, n.was.world, allocs)));
      && NodeInv(before, past)
      && Perform(evm, before, Op.Commit) == Perform(evm, n, op)
      && Writes(evm, before, Op.Commit) == Writes(evm, n, op)
  {
    var op := Op.CreateAccounts(allocs);
    BeforeCommitIsSound(evm, n, past, op);
    CommitCompletes(evm, n, op);
    var writes := Writes(evm, BeforeCommit(evm, n, op), Op.Commit);
    assert Prelude(evm, n, op) + writes == writes;
    assert BeforeCommit(evm, n, op) == n.(was := n.was.(world := Genesis.Enter(n.committed, n.was.world, allocs)));
  }

  lemma PreludeReplays(evm: Evm, n: Node, block: Block, now: int)
    ensures
      var stored := BlockV(StoredBlock(block, now));
      var puts := n.store + map[HashKey(BlockHash(block)) := stored] + map[BlockKey(block.index) := stored];
      Replay(n.store, Prelude(evm, n, Process(block, now)))
      == Replay(puts, ErrorPuts(evm, n.was, block.transactions, BlockHash(block)))
  {
    var puts := BlockPuts(block, now);
    ReplayConcat(n.store, puts, ErrorPuts(evm, n.was, block.transactions, BlockHash(block)));
    assert puts[..1] == [puts[0]];
    OneWrite(n.store, puts[0]);
  }

  lemma WritesInTwoParts(before: seq<Write>, a: seq<Write>, b: seq<Write>)
    ensures before + a + b == before + (a + b)
  {
  }

  /** One more transaction of a block. */
  lemma NextInBlock(evm: Evm, was: Was, s: Store, raws: seq<Raw>, blockHash: Hash, i: nat)
    requires i < |raws|
    ensures
      var before := Fold(evm, Saturate, was, raws[..i], blockHash);
      var (after, verdict) := ApplyRaw(evm, Saturate, before, raws[i], TxContext(blockHash, i));
      var puts, put := ErrorPuts(evm, was, raws[..i], blockHash), ErrorPut(raws[i], verdict);
      && Fold(evm, Saturate, was, raws[..i + 1], blockHash) == after
      && ErrorPuts(evm, was, raws[..i + 1], blockHash) == puts + put
      && Replay(s, puts + put) == Replay(Replay(s, puts), put)
  {
    assert raws[..i + 1][..i] == raws[..i];
    var before := Fold(evm, Saturate, was, raws[..i], blockHash);
    var verdict := ApplyRaw(evm, Saturate, before, raws[i], TxContext(blockHash, i)).1;
    ReplayConcat(s, ErrorPuts(evm, was, raws[..i], blockHash), ErrorPut(raws[i], verdict));
  }

  /** A commit's root reads back at once, so none of the three resets can fail. */
  lemma CommitReadsBack(evm: Evm, n: Node, past: seq<Tx>)
    requires Lawful(evm) && NodeInv(n, past)
    ensures
      var n' := Perform(evm, n, Op.Commit);
      && ReadWorld(n'.store, OfRoot(n.was.world)) == Some(n.was.world)
      && Storage.InitState(n'.store) == Some(n.was.world)
      && NodeInv(n', past + n.was.transactions)
      && Writes(evm, n, Op.Commit) == CommitWrites(n.was.world, n.was.transactions, n.was.receipts)
      && n' == Machine.Node(Replay(n.store, CommitWrites(n.was.world, n.was.transactions, n.was.receipts)),
                            n.was.world, Fresh(n.was.world))
  {
    RunKeepsNode(evm, n, past, Op.Commit);
    var n' := Perform(evm, n, Op.Commit);
    var commit := CommitWrites(n.was.world, n.was.transactions, n.was.receipts);
    assert Writes(evm, n, Op.Commit) == commit;
    InitStateSucceeds(n'.store, past + n.was.transactions);
    CommitWritesRoot(n.store, past, n.was.world, n.was.transactions, n.was.receipts);
    TrieRoundTrip(n'.store, n.was.world);
  }

  lemma CommitWritesRoot(s: Store, past: seq<Tx>, w: World, txs: seq<Tx>, receipts: seq<Receipt>)
    requires StoreInv(s, past) && Committable(w, txs, receipts)
    ensures HasRoot(Replay(s, CommitWrites(w, txs, receipts)), w)
  {
    CommitReplays(s, w, txs, receipts);
    var s1, s2, s3, s4, s5, s6 := CommitStages(s, past, w, txs, receipts);
  }

  // ----- read-only calls -----

  /** What a call asks for; a gas limit or price may be left out. */
  datatype CallArgs = CallArgs(from: Address, to: Option<Address>, gas: Option<uint64>, gasPrice: Option<nat>,
                               value: nat, data: seq<nat>)

  const DEFAULT_GAS: uint64 := 90_000
  const DEFAULT_GAS_PRICE: nat := 1_000_000_000
  const HALF_MAX: uint64 := 0x7fff_ffff_ffff_ffff

  /** The message the call handler builds: no nonce check, and a zero limit or price replaced. */
  function CallMessage(args: CallArgs): Msg {
    var gas := if args.gas.None? then DEFAULT_GAS else args.gas.value;
    var price := if args.gasPrice.None? then 0 else args.gasPrice.value;
    Msg(args.from, 0, if gas == 0 then HALF_MAX else gas, if price == 0 then DEFAULT_GAS_PRICE else price,
        args.value, args.to, args.data, false)
  }

  /** A call that asks for no gas gets more than the pool holds, and so is always refused. */
  lemma ZeroGasCallIsRefused(evm: Evm, w: World, args: CallArgs)
    requires Lawful(evm) && args.gas == Some(0)
    ensures evm.apply(w, CallMessage(args), GAS_LIMIT).Rejected?
  {
    assert Law(evm, w, CallMessage(args), GAS_LIMIT);
  }

  class WriteAheadState {
    const db: Database
    const ethState: StateDB
    /** Signer and configurations; None when the object was built without them. */
    const wiring: Option<Evm>
    var txIndex: nat
    var transactions: seq<Tx>
    var receipts: seq<Receipt>
    var allLogs: seq<Log>
    /** Nil until the first Reset, unless the object was built with them. */
    var totalUsedGas: Option<nat>
    var gp: Option<nat>

    /** NewWriteAheadState: wired, but without a gas pool. */
    constructor Wired(db: Database, ethState: StateDB, evm: Evm)
      ensures this.db == db && this.ethState == ethState && wiring == Some(evm)
      ensures Empty() && gp == None && totalUsedGas == None
    {
      this.db, this.ethState, wiring := db, ethState, Some(evm);
      txIndex, transactions, receipts, allLogs := 0, [], [], [];
      totalUsedGas, gp := None, None;
    }

    /** resetWAS: with a gas pool, but without signer and configurations. */
    constructor Bare(db: Database, ethState: StateDB)
      ensures this.db == db && this.ethState == ethState && wiring == None
      ensures Empty() && gp == Some(GAS_LIMIT) && totalUsedGas == Some(0)
    {
      this.db, this.ethState, wiring := db, ethState, None;
      txIndex, transactions, receipts, allLogs := 0, [], [], [];
      totalUsedGas, gp := Some(0), Some(GAS_LIMIT);
    }

    predicate Empty()
      reads this
    {
      txIndex == 0 && transactions == [] && receipts == [] && allLogs == []
    }

    predicate Ready()
      reads this
    {
      gp.Some? && totalUsedGas.Some?
    }

    /** The object as a value; what is nil counts for nothing. */
    ghost function Model(): Was
      reads this, ethState
    {
      Was(ethState.world, txIndex, transactions, receipts, allLogs,
          if totalUsedGas.Some? then totalUsedGas.value else 0, if gp.Some? then gp.value else 0)
    }

    method Reset(root: Hash) returns (ok: bool)
      modifies this, ethState
      ensures ok <==> ReadWorld(db.store, root).Some?
      ensures ok ==> Ready() && Model() == Fresh(ReadWorld(db.store, root).value)
      ensures !ok ==> Model() == old(Model()) && unchanged(this)
    {
      ok := ethState.Reset(db, root);
      if !ok {
        return;
      }
      txIndex, transactions, receipts, allLogs := 0, [], [], [];
      totalUsedGas, gp := Some(0), Some(GAS_LIMIT);
    }

    /** The part both apply paths share: record a success under the given conversion of the total. */
    method Record(tx: Tx, o: Outcome, c: Conversion, ctx: TxContext)
      requires tx.from.Some? && o.Applied? && Ready()
      modifies this, ethState
      ensures Ready()
      ensures
        var was := old(Model());
        var receipt := ReceiptOf(c, tx, o, was.totalUsedGas + o.gasUsed, ctx);
        Model() == Was(o.world, was.txIndex + 1, was.transactions + [tx], was.receipts + [receipt],
                       was.allLogs + receipt.logs, was.totalUsedGas + o.gasUsed, o.pool)
    {
      ethState.world := o.world;
      gp := Some(o.pool);
      totalUsedGas := Some(totalUsedGas.value + o.gasUsed);
      var receipt := ReceiptOf(c, tx, o, totalUsedGas.value, ctx);
      txIndex := txIndex + 1;
      transactions := transactions + [tx];
      receipts := receipts + [receipt];
      allLogs := allLogs + receipt.logs;
    }

    /** No reply means that the process is gone: there was no signer, or no gas pool when one was needed. */
    method ApplyTransaction(tx: Tx, ctx: TxContext) returns (reply: Option<Verdict>)
      requires (wiring.Some? ==> Lawful(wiring.value)) && gp.Some? == totalUsedGas.Some?
      modifies this, ethState
      ensures reply.None? <==>
                || wiring.None?
                || (tx.from.Some? && !old(Ready()) && wiring.value.usesPool(old(ethState.world), AsMessage(tx)))
      ensures reply.None? ==> Model() == old(Model())
      ensures reply.Some? ==> (Model(), reply.value) == ApplyTx(wiring.value, Truncate, old(Model()), tx, ctx)
      ensures Ready() == old(Ready()) && gp.Some? == totalUsedGas.Some?
    {
      if wiring.None? {
        return None;
      }
      if tx.from.None? {
        return Some(BadSignature);
      }
      if gp.None? {
        reply := WithoutPool(wiring.value, tx);
        return;
      }
      var o := wiring.value.apply(ethState.world, AsMessage(tx), gp.value);
      match o {
        case Rejected(w, pool, error) =>
          ethState.world := w;
          gp := Some(pool);
          reply := Some(Refused(error));
        case Applied(_, _, gasUsed, _, _) =>
          Record(tx, o, Truncate, ctx);
          reply := Some(Done(gasUsed));
      }
    }

    /** What becomes of a message when there is no gas pool: refused before it is needed, or a crash. */
    method WithoutPool(evm: Evm, tx: Tx) returns (reply: Option<Verdict>)
      requires tx.from.Some? && Lawful(evm)
      ensures reply.None? <==> evm.usesPool(ethState.world, AsMessage(tx))
      ensures
        reply.Some? ==>
          && reply.value.Refused?
          && forall pool: nat :: evm.apply(ethState.world, AsMessage(tx), pool) == Rejected(ethState.world, pool, reply.value.error)
    {
      var m := AsMessage(tx);
      if evm.usesPool(ethState.world, m) {
        return None;
      }
      var early := evm.apply(ethState.world, m, 0);
      assert Law(evm, ethState.world, m, 0);
      forall pool: nat ensures evm.apply(ethState.world, m, pool) == Rejected(ethState.world, pool, early.error) {
        assert Law(evm, ethState.world, m, pool);
      }
      reply := Some(Refused(early.error));
    }

    method Commit() returns (root: Hash)
      modifies db
      ensures root == OfRoot(ethState.world)
      ensures db.store == Replay(old(db.store), CommitWrites(ethState.world, transactions, receipts))
      ensures db.writes == old(db.writes) + CommitWrites(ethState.world, transactions, receipts)
    {
      ghost var s, before := db.store, db.writes;
      ghost var w := ethState.world;
      root := OfRoot(ethState.world);
      db.FlushNodes(Leaves(ethState.world));
      db.WriteBatch(RootNode(ethState.world));
      db.Put(RootKey, RootV(root));
      db.Put(HeadKey, HeadV(if |transactions| > 0 then OfTx(transactions[|transactions| - 1]) else OfTx(EMPTY_TX)));
      WriteTransactions();
      WriteReceipts();
      SixWrites(before, Flush(Leaves(w)), Batch(RootNode(w)), Write.Put(RootKey, RootV(root)),
                Write.Put(HeadKey, HeadV(Head(transactions))), Batch(TxBatch(transactions)), Batch(ReceiptBatch(receipts)));
      CommitReplays(s, w, transactions, receipts);
    }

    method WriteTransactions()
      modifies db
      ensures db.store == old(db.store) + TxBatch(transactions)
      ensures db.writes == old(db.writes) + [Batch(TxBatch(transactions))]
    {
      var batch: Store := map[];
      for i := 0 to |transactions|
        invariant batch == TxBatch(transactions[..i])
      {
        assert transactions[..i + 1][..i] == transactions[..i];
        batch := batch[HashKey(OfTx(transactions[i])) := TxV(transactions[i])];
      }
      assert transactions[..|transactions|] == transactions;
      db.WriteBatch(batch);
    }

    method WriteReceipts()
      modifies db
      ensures db.store == old(db.store) + ReceiptBatch(receipts)
      ensures db.writes == old(db.writes) + [Batch(ReceiptBatch(receipts))]
    {
      var batch: Store := map[];
      for i := 0 to |receipts|
        invariant batch == ReceiptBatch(receipts[..i])
      {
        assert receipts[..i + 1][..i] == receipts[..i];
        batch := batch[ReceiptKey(receipts[i].txHash) := ReceiptV(receipts[i])];
      }
      assert receipts[..|receipts|] == receipts;
      db.WriteBatch(batch);
    }
  }

  class TxPool {
    const ethState: StateDB
    const evm: Evm
    var totalUsedGas: nat
    /** Nil until the first Reset. */
    var gp: Option<nat>

    constructor (ethState: StateDB, evm: Evm)
      ensures this.ethState == ethState && this.evm == evm && totalUsedGas == 0 && gp == None
    {
      this.ethState, this.evm, totalUsedGas, gp := ethState, evm, 0, None;
    }

    ghost function Model(): DryRun.Pool
      reads this, ethState
    {
      DryRun.Pool(ethState.world, totalUsedGas, if gp.Some? then gp.value else 0)
    }

    method Reset(db: Database, root: Hash) returns (ok: bool)
      modifies this, ethState
      ensures ok <==> ReadWorld(db.store, root).Some?
      ensures ok ==> gp.Some? && Model() == DryRun.FreshPool(ReadWorld(db.store, root).value)
      ensures !ok ==> Model() == old(Model()) && unchanged(this)
    {
      ok := ethState.Reset(db, root);
      if !ok {
        return;
      }
      totalUsedGas, gp := 0, Some(GAS_LIMIT);
    }

    method CheckTx(tx: Tx) returns (verdict: Verdict)
      requires tx.from.Some? ==> gp.Some?
      modifies this, ethState
      ensures (Model(), verdict) == DryRun.Check(evm, old(Model()), tx)
      ensures old(gp.Some?) ==> gp.Some?
    {
      if tx.from.None? {
        return BadSignature;
      }
      var o := evm.apply(ethState.world, AsMessage(tx), gp.value);
      ethState.world, gp := o.world, Some(o.pool);
      match o {
        case Rejected(_, _, error) => verdict := Refused(error);
        case Applied(_, _, gasUsed, _, _) =>
          totalUsedGas := (totalUsedGas + gasUsed) % TWO_64;
          verdict := Done(gasUsed);
      }
    }
  }

  class State {
    const db: Database
    const evm: Evm
    var ethState: StateDB
    var was: WriteAheadState
    var txPool: TxPool
    var blockIndex: int
    /** The successful transactions whose effects are in the stored root. */
    ghost var past: seq<Tx>

    /** The objects of a state that InitState has just read from the database. */
    constructor Parts(db: Database, evm: Evm, ethState: StateDB, was: WriteAheadState, txPool: TxPool, ghost past: seq<Tx>)
      requires ethState != was.ethState && ethState != txPool.ethState && was.ethState != txPool.ethState
      requires was.db == db && txPool.evm == evm && was.wiring == Some(evm) && was.gp == None && was.totalUsedGas == None
      requires Lawful(evm) && NodeInv(Machine.Node(db.store, ethState.world, was.Model()), past)
      ensures Valid()
      ensures this.db == db && this.evm == evm && this.ethState == ethState && this.was == was
      ensures this.txPool == txPool && this.past == past && blockIndex == 0
    {
      this.db, this.evm, this.ethState, this.was, this.txPool := db, evm, ethState, was, txPool;
      this.past := past;
      blockIndex := 0;
    }

    ghost function Repr(): set<object>
      reads this, was, txPool
    {
      {this, db, ethState, was, was.ethState, txPool, txPool.ethState}
    }

    ghost function Node(): Node
      reads this, was, txPool, Repr()
    {
      Machine.Node(db.store, ethState.world, was.Model())
    }

    /** The node, and what its write-ahead state was built with. */
    ghost function Current(): Session
      reads this, was, txPool, Repr()
    {
      Session(Node(), was.wiring.Some?, was.Ready())
    }

    /** Three worlds that are three objects, over one database, sound with respect to its history. */
    ghost predicate Valid()
      reads this, was, txPool, Repr()
    {
      && ethState != was.ethState && ethState != txPool.ethState && was.ethState != txPool.ethState
      && was.db == db && txPool.evm == evm && (was.wiring.Some? ==> was.wiring.value == evm)
      && was.gp.Some? == was.totalUsedGas.Some?
      && Lawful(evm)
      && NodeInv(Node(), past)
    }

    /** The three-state invariant: all worlds are the one at the stored root, nothing is pending. */
    ghost predicate Synced()
      reads this, was, txPool, Repr()
    {
      && Storage.InitState(db.store) == Some(ethState.world)
      && was.ethState.world == ethState.world
      && txPool.ethState.world == ethState.world
      && was.Empty()
    }

    static method InitState(db: Database, evm: Evm, ghost past: seq<Tx>) returns (s: State?)
      requires Lawful(evm) && StoreInv(db.store, past) && Sequential(Recovered(db.store), past)
      ensures s != null && fresh(s) && fresh(s.Repr() - {db}) && s.db == db && s.evm == evm && s.past == past
      ensures s.Valid() && s.Synced() && Some(s.Current()) == InitSession(db.store) && s.txPool.gp == None
    {
      OpenedNode(db.store, past, 0);
      var root := ZeroHash;
      if RootKey in db.store {
        root := db.store[RootKey].root;
      }
      var ethState, was, txPool := OpenParts(db, evm, root);
      if ethState == null || was == null || txPool == null {
        return null;
      }
      s := new State.Parts(db, evm, ethState, was, txPool, past);
    }

    /** The main StateDB, a wired write-ahead state and a pool, all at `root`. */
    static method OpenParts(db: Database, evm: Evm, root: Hash)
      returns (ethState: StateDB?, was: WriteAheadState?, txPool: TxPool?)
      ensures ReadWorld(db.store, root).None? <==> ethState == null || was == null || txPool == null
      ensures ReadWorld(db.store, root).Some? ==>
                && fresh({ethState, was, was.ethState, txPool, txPool.ethState})
                && ethState != was.ethState && ethState != txPool.ethState && was.ethState != txPool.ethState
                && was.db == db && was.wiring == Some(evm) && was.Empty() && was.gp == None && was.totalUsedGas == None
                && txPool.evm == evm && txPool.gp == None
                && ethState.world == was.ethState.world == txPool.ethState.world == ReadWorld(db.store, root).value
    {
      was, txPool := null, null;
      ethState := Open(db, root);
      if ethState == null {
        return;
      }
      var wasState := Open(db, root);
      if wasState == null {
        return;
      }
      was := new WriteAheadState.Wired(db, wasState, evm);
      var poolState := ethState.Copy();
      txPool := new TxPool(poolState, evm);
    }

    /** NewState ends by replacing the wired write-ahead state with a bare one. */
    static method NewState(db: Database, evm: Evm, ghost past: seq<Tx>) returns (s: State?)
      requires Lawful(evm) && StoreInv(db.store, past) && Sequential(Recovered(db.store), past)
      ensures s != null && fresh(s) && fresh(s.Repr() - {db}) && s.db == db && s.evm == evm && s.past == past
      ensures s.Valid() && s.Synced() && Some(s.Current()) == NewSession(db.store) && s.txPool.gp == None
    {
      s := InitState(db, evm, past);
      if s == null {
        return;
      }
      s.ResetWAS();
    }

    method ResetWAS()
      requires Valid()
      modifies this`was
      ensures Valid() && fresh(was) && fresh(was.ethState)
      ensures was.wiring.None? && was.Ready() && was.Model() == Fresh(ethState.world)
    {
      var copy := ethState.Copy();
      FreshWas(ethState.world, past);
      was := new WriteAheadState.Bare(db, copy);
    }

    /** Bring all three worlds to `root`, one after the other, and empty what was pending. */
    method Synchronise(root: Hash) returns (ok: bool)
      requires was.db == db
      requires ethState != was.ethState && ethState != txPool.ethState && was.ethState != txPool.ethState
      modifies ethState, was, was.ethState, txPool, txPool.ethState
      ensures ok <==> ReadWorld(db.store, root).Some?
      ensures
        ok ==>
          var w := ReadWorld(db.store, root).value;
          && ethState.world == w && txPool.ethState.world == w
          && was.Ready() && was.Empty() && was.Model() == Fresh(w)
          && txPool.gp.Some? && txPool.Model() == DryRun.FreshPool(w)
    {
      ok := ethState.Reset(db, root);
      if !ok {
        return;
      }
      ok := was.Reset(root);
      if !ok {
        return;
      }
      ok := txPool.Reset(db, root);
    }

    /** Persist the write-ahead state, then bring all three worlds to the new root. */
    method Commit() returns (root: Hash, ok: bool)
      requires Valid()
      modifies this`past, db, ethState, was, was.ethState, txPool, txPool.ethState
      ensures ok && root == OfRoot(ethState.world) && Valid() && Synced()
      ensures Node() == Perform(evm, old(Node()), Op.Commit) && was.Ready()
      ensures txPool.gp.Some? && txPool.Model() == DryRun.FreshPool(ethState.world)
      ensures db.writes == old(db.writes) + Writes(evm, old(Node()), Op.Commit)
      ensures past == old(past + was.transactions)
    {
      CommitReadsBack(evm, Node(), past);
      past := past + was.transactions;
      root := was.Commit();
      ok := Synchronise(root);
    }

    /** ProcessBlock's path: the state's own signer and configuration, error records written at once. */
    method ApplyToWAS(raw: Raw, ctx: TxContext) returns (verdict: Verdict)
      requires was.db == db && ethState != was.ethState && Lawful(evm) && was.gp.Some? == was.totalUsedGas.Some?
      requires was.Ready() || !UsesPool(evm, was.ethState.world, raw)
      modifies db, was, was.ethState
      ensures was.Model() == ApplyRaw(evm, Saturate, old(was.Model()), raw, ctx).0
      ensures verdict == ApplyRaw(evm, Saturate, old(was.Model()), raw, ctx).1
      ensures db.store == Replay(old(db.store), ErrorPut(raw, verdict))
      ensures db.writes == old(db.writes) + ErrorPut(raw, verdict)
      ensures was.Ready() == old(was.Ready()) && was.gp.Some? == was.totalUsedGas.Some?
      ensures !was.Ready() ==> was.ethState.world == old(was.ethState.world)
    {
      match Decode(raw) {
        case None => verdict := Undecodable;
        case Some(tx) =>
          if tx.from.None? {
            return BadSignature;
          }
          if was.gp.None? {
            var reply := was.WithoutPool(evm, tx);
            verdict := reply.value;
            NoteError(tx, verdict.error);
            return;
          }
          var o := evm.apply(was.ethState.world, AsMessage(tx), was.gp.value);
          match o {
            case Rejected(w, pool, error) =>
              was.ethState.world, was.gp := w, Some(pool);
              NoteError(tx, error);
              verdict := Refused(error);
            case Applied(_, _, gasUsed, _, _) =>
              was.Record(tx, o, Saturate, ctx);
              verdict := Done(gasUsed);
          }
      }
    }

    method NoteError(tx: Tx, error: string)
      modifies db
      ensures db.store == Replay(old(db.store), [Write.Put(ErrorKey(OfTx(tx)), ErrorV(tx, error))])
      ensures db.writes == old(db.writes) + [Write.Put(ErrorKey(OfTx(tx)), ErrorV(tx, error))]
    {
      OneWrite(db.store, Write.Put(ErrorKey(OfTx(tx)), ErrorV(tx, error)));
      db.Put(ErrorKey(OfTx(tx)), ErrorV(tx, error));
    }

    /** Apply one transaction on the path that consensus drives; only the write-ahead state moves. */
    method ApplyTransaction(raw: Raw, ctx: TxContext) returns (reply: Option<Verdict>)
      requires Valid()
      modifies was, was.ethState
      ensures Valid()
      ensures
        match Sessions.Call(evm, old(Current()), Deliver(raw, ctx))
        case None => reply == None && Current() == old(Current())
        case Some(s) => Current() == s && reply == Some(ApplyRaw(evm, Truncate, old(Node()).was, raw, ctx).1)
    {
      WorkKeepsWas(evm, Node(), past, Deliver(raw, ctx));
      match Decode(raw) {
        case None => reply := Some(Undecodable);
        case Some(tx) => reply := was.ApplyTransaction(tx, ctx);
      }
    }

    /** The dry run; only the pool moves. */
    method CheckTx(tx: Tx) returns (verdict: Verdict)
      requires Valid() && (tx.from.Some? ==> txPool.gp.Some?)
      modifies txPool, txPool.ethState
      ensures Valid() && Node() == old(Node())
      ensures (txPool.Model(), verdict) == DryRun.Check(evm, old(txPool.Model()), tx)
    {
      verdict := txPool.CheckTx(tx);
      assert Node() == old(Node());
    }

    /** A read-only call runs on a copy of the write-ahead world; it dereferences the recipient. */
    method Call(m: Msg) returns (o: Outcome)
      requires Valid() && m.to.Some?
      ensures o == evm.apply(was.ethState.world, m, GAS_LIMIT)
      ensures unchanged(Repr())
    {
      var copy := was.ethState.Copy();
      o := evm.apply(copy.world, m, GAS_LIMIT);
      copy.world := o.world;
    }

    /** Balances are read from the committed world, nonces from the write-ahead one. */
    function GetBalance(a: Address): nat
      reads this, ethState
    {
      Balance(ethState.world, a)
    }

    function GetNonce(a: Address): nat
      reads this, was, was.ethState
    {
      Nonce(was.ethState.world, a)
    }

    function GetPoolNonce(a: Address): nat
      reads this, txPool, txPool.ethState
    {
      Nonce(txPool.ethState.world, a)
    }

    /** Right after a commit or a start the three readers speak of one world, the one at the stored root. */
    lemma ReadersAgree(a: Address)
      requires Valid() && Synced()
      ensures
        var w := Storage.InitState(db.store).value;
        GetBalance(a) == Balance(w, a) && GetNonce(a) == Nonce(w, a) == GetPoolNonce(a)
    {
    }

    /** The loop of ProcessBlock: a transaction's failure does not stop the block. */
    method ApplyAll(raws: seq<Raw>, blockHash: Hash)
      requires was.db == db && ethState != was.ethState && Lawful(evm) && was.gp.Some? == was.totalUsedGas.Some?
      requires was.Ready() || forall raw | raw in raws :: !UsesPool(evm, was.ethState.world, raw)
      modifies db, was, was.ethState
      ensures was.Model() == Fold(evm, Saturate, old(was.Model()), raws, blockHash)
      ensures was.Ready() == old(was.Ready()) && was.gp.Some? == was.totalUsedGas.Some?
      ensures db.store == Replay(old(db.store), ErrorPuts(evm, old(was.Model()), raws, blockHash))
      ensures db.writes == old(db.writes) + ErrorPuts(evm, old(was.Model()), raws, blockHash)
    {
      ghost var w0, s0, ws0 := was.Model(), db.store, db.writes;
      ghost var puts: seq<Write> := [];
      for i := 0 to |raws|
        invariant was.Ready() == old(was.Ready()) && was.gp.Some? == was.totalUsedGas.Some?
        invariant !was.Ready() ==> was.ethState.world == old(was.ethState.world)
        invariant was.Model() == Fold(evm, Saturate, w0, raws[..i], blockHash)
        invariant puts == ErrorPuts(evm, w0, raws[..i], blockHash)
        invariant db.store == Replay(s0, puts) && db.writes == ws0 + puts
      {
        NextInBlock(evm, w0, s0, raws, blockHash, i);
        var verdict := ApplyToWAS(raws[i], TxContext(blockHash, i));
        WritesInTwoParts(ws0, puts, ErrorPut(raws[i], verdict));
        puts := puts + ErrorPut(raws[i], verdict);
      }
      assert raws[..|raws|] == raws;
    }

    /** Store the block and run its transactions, up to the commit. */
    method ApplyBlock(block: Block, now: int)
      requires was.db == db && ethState != was.ethState && Lawful(evm) && was.gp.Some? == was.totalUsedGas.Some?
      requires !Crashes(evm, Current(), Process(block, now))
      modifies db, was, was.ethState
      ensures Node() == BeforeCommit(evm, old(Node()), Process(block, now)) && was.gp.Some? == was.totalUsedGas.Some?
      ensures db.writes == old(db.writes) + Prelude(evm, old(Node()), Process(block, now))
    {
      PreludeReplays(evm, Node(), block, now);
      var stored := BlockV(StoredBlock(block, now));
      db.Put(HashKey(BlockHash(block)), stored);
      db.Put(BlockKey(block.index), stored);
      ApplyAll(block.transactions, BlockHash(block));
    }

    method ProcessBlock(block: Block, now: int) returns (root: Hash, ok: bool)
      requires Valid() && !Crashes(evm, Current(), Process(block, now))
      modifies this`past, this`blockIndex, db, ethState, was, was.ethState, txPool, txPool.ethState
      ensures ok && root == OfRoot(ethState.world) && Valid() && Synced()
      ensures Node() == Perform(evm, old(Node()), Process(block, now)) && was.Ready()
      ensures txPool.gp.Some? && txPool.Model() == DryRun.FreshPool(ethState.world)
      ensures db.writes == old(db.writes) + Writes(evm, old(Node()), Process(block, now))
      ensures blockIndex == block.index
      ensures past == old(past) + Work(evm, old(Node()), Process(block, now)).transactions
    {
      OperationSplits(evm, Node(), past, Process(block, now), db.writes);
      blockIndex := block.index;
      ApplyBlock(block, now);
      root, ok := Commit();
    }

    method CreateAccounts(allocs: seq<Genesis.Alloc>) returns (ok: bool)
      requires Valid()
      modifies this`past, db, ethState, was, was.ethState, txPool, txPool.ethState
      ensures ok && Valid() && Synced()
      ensures Node() == Perform(evm, old(Node()), Op.CreateAccounts(allocs)) && was.Ready()
      ensures db.writes == old(db.writes) + Writes(evm, old(Node()), Op.CreateAccounts(allocs))
    {
      GenesisSplits(evm, Node(), past, allocs);
      CreateEach(allocs);
      was.ethState.Finalise();
      var root;
      root, ok := Commit();
    }

    method CreateEach(allocs: seq<Genesis.Alloc>)
      requires ethState != was.ethState
      modifies was.ethState
      ensures was.ethState.world == Genesis.CreateAll(ethState.world, old(was.ethState.world), allocs)
    {
      ghost var w := was.ethState.world;
      for i := 0 to |allocs|
        invariant was.ethState.world == Genesis.CreateAll(ethState.world, w, allocs[..i])
      {
        assert allocs[..i + 1][..i] == allocs[..i];
        if allocs[i].address !in ethState.world {
          was.ethState.CreateAccount(allocs[i]);
        }
      }
      assert allocs[..|allocs|] == allocs;
    }
  }
}
