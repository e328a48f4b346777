/** The in-memory Lachesis proxy: one commit per block, none for a block that fails. */
module Lachesis {
  import opened Wrappers
  import opened Types
  import opened Evm
  import opened Gas
  import opened Ledger
  import opened Storage
  import opened Machine
  import opened Sessions
  import opened EvmState
  import opened Transfers
  import DryRun
  import Lookup
  import Receipts

  /** The position of the first transaction that fails, or the number of transactions. */
  function FirstFailure(evm: Evm, was: Was, raws: seq<Raw>, blockHash: Hash): (k: nat)
    ensures k <= |raws|
  {
    if raws == [] then 0
    else
      var n := |raws| - 1;
      var k := FirstFailure(evm, was, raws[..n], blockHash);
      if k < n then k
      else if Verdicts(evm, Truncate, was, raws, blockHash)[n].Done? then |raws|
      else n
  }

  /** What CommitBlock applied before it stopped: the failing transaction's traces included. */
  function Attempted(evm: Evm, was: Was, raws: seq<Raw>, blockHash: Hash): Was {
    var k := FirstFailure(evm, was, raws, blockHash);
    Fold(evm, Truncate, was, if k < |raws| then raws[..k + 1] else raws, blockHash)
  }

  predicate AllApply(evm: Evm, was: Was, block: Block) {
    FirstFailure(evm, was, block.transactions, block.hash) == |block.transactions|
  }

  function LachesisCommit(evm: Evm, n: Node, block: Block): (Node, Option<Hash>) {
    var was := Attempted(evm, n.was, block.transactions, block.hash);
    if AllApply(evm, n.was, block) then (Perform(evm, n.(was := was), Op.Commit), Some(OfRoot(was.world)))
    else (n.(was := was), None)
  }

  lemma {:induction false} FirstFailureIs(evm: Evm, was: Was, raws: seq<Raw>, blockHash: Hash)
    ensures forall i | 0 <= i < FirstFailure(evm, was, raws, blockHash) ::
              Verdicts(evm, Truncate, was, raws, blockHash)[i].Done?
    ensures FirstFailure(evm, was, raws, blockHash) < |raws| ==>
              !Verdicts(evm, Truncate, was, raws, blockHash)[FirstFailure(evm, was, raws, blockHash)].Done?
  {
    if raws != [] {
      var n := |raws| - 1;
      FirstFailureIs(evm, was, raws[..n], blockHash);
      var all, prefix := Verdicts(evm, Truncate, was, raws, blockHash), Verdicts(evm, Truncate, was, raws[..n], blockHash);
      assert forall i | 0 <= i < n :: all[i] == prefix[i];
    }
  }

  /** What the loop of CommitBlock has come to: `failed` once a transaction has. */
  datatype Progress = Progress(session: Session, failed: bool)

  function DeliverEach(evm: Evm, s: Session, raws: seq<Raw>, blockHash: Hash): Option<Progress> {
    if raws == [] then Some(Progress(s, false))
    else
      var n := |raws| - 1;
      match DeliverEach(evm, s, raws[..n], blockHash)
      case None => None
      case Some(p) =>
        if p.failed then Some(p)
        else
          match Call(evm, p.session, Deliver(raws[n], TxContext(blockHash, n)))
          case None => None
          case Some(s') => Some(Progress(s', !ApplyRaw(evm, Truncate, p.session.node.was, raws[n], TxContext(blockHash, n)).1.Done?))
  }

  /** CommitBlock as a call; None when it brings the process down. */
  function LachesisCall(evm: Evm, s: Session, block: Block): Option<(Session, Option<Hash>)> {
    match DeliverEach(evm, s, block.transactions, block.hash)
    case None => None
    case Some(p) =>
      if p.failed then Some((p.session, None))
      else
        match Call(evm, p.session, Op.Commit)
        case None => None
        case Some(s') => Some((s', Some(OfRoot(p.session.node.was.world))))
  }

  /** So far the calls have done to the node what the attempts do, and failed where they did. */
  ghost predicate Tracks(evm: Evm, s: Session, raws: seq<Raw>, blockHash: Hash, p: Progress) {
    && p.session == Session(s.node.(was := Attempted(evm, s.node.was, raws, blockHash)), s.signer, s.pool)
    && (p.failed <==> FirstFailure(evm, s.node.was, raws, blockHash) < |raws|)
  }

  lemma DeliveryMovesWas(evm: Evm, s: Session, was: Was, raw: Raw, ctx: TxContext)
    requires Call(evm, Session(s.node.(was := was), s.signer, s.pool), Deliver(raw, ctx)).Some?
    ensures
      Call(evm, Session(s.node.(was := was), s.signer, s.pool), Deliver(raw, ctx))
      == Some(Session(s.node.(was := ApplyRaw(evm, Truncate, was, raw, ctx).0), s.signer, s.pool))
  {
  }

  lemma NextTracks(evm: Evm, s: Session, raws: seq<Raw>, blockHash: Hash, p: Progress, p': Progress)
    requires raws != [] && Tracks(evm, s, raws[..|raws| - 1], blockHash, p) && !p.failed
    requires
      var n := |raws| - 1;
      var s' := Call(evm, p.session, Deliver(raws[n], TxContext(blockHash, n)));
      && s'.Some?
      && p' == Progress(s'.value, !ApplyRaw(evm, Truncate, p.session.node.was, raws[n], TxContext(blockHash, n)).1.Done?)
    ensures Tracks(evm, s, raws, blockHash, p')
  {
    var n := |raws| - 1;
    AttemptedNext(evm, s.node.was, raws, blockHash);
    DeliveryMovesWas(evm, s, p.session.node.was, raws[n], TxContext(blockHash, n));
  }

  lemma {:induction false} DeliverEachTracks(evm: Evm, s: Session, raws: seq<Raw>, blockHash: Hash)
    ensures
      var p := DeliverEach(evm, s, raws, blockHash);
      && (p.Some? ==> Tracks(evm, s, raws, blockHash, p.value))
      && (s.signer && s.pool ==> p.Some?)
  {
    if raws != [] {
      var n := |raws| - 1;
      DeliverEachTracks(evm, s, raws[..n], blockHash);
      var p := DeliverEach(evm, s, raws[..n], blockHash);
      var p' := DeliverEach(evm, s, raws, blockHash);
      if p.Some? && p.value.failed {
        AttemptedAlready(evm, s.node.was, raws, blockHash);
      } else if p.Some? && p'.Some? {
        NextTracks(evm, s, raws, blockHash, p.value, p'.value);
      }
    }
  }

  /** Nothing is attempted after a failure. */
  lemma AttemptedAlready(evm: Evm, was: Was, raws: seq<Raw>, blockHash: Hash)
    requires raws != [] && FirstFailure(evm, was, raws[..|raws| - 1], blockHash) < |raws| - 1
    ensures Attempted(evm, was, raws, blockHash) == Attempted(evm, was, raws[..|raws| - 1], blockHash)
    ensures FirstFailure(evm, was, raws, blockHash) < |raws|
  {
    var n, k := |raws| - 1, FirstFailure(evm, was, raws[..|raws| - 1], blockHash);
    FailedAlready(evm, was, raws, blockHash);
    AttemptedIs(evm, was, raws, blockHash, k);
    AttemptedIs(evm, was, raws[..n], blockHash, k);
    assert raws[..n][..k + 1] == raws[..k + 1];
  }

  lemma FailedAlready(evm: Evm, was: Was, raws: seq<Raw>, blockHash: Hash)
    requires raws != [] && FirstFailure(evm, was, raws[..|raws| - 1], blockHash) < |raws| - 1
    ensures FirstFailure(evm, was, raws, blockHash) == FirstFailure(evm, was, raws[..|raws| - 1], blockHash)
  {
  }

  lemma AttemptedIs(evm: Evm, was: Was, raws: seq<Raw>, blockHash: Hash, k: nat)
    requires k == FirstFailure(evm, was, raws, blockHash) < |raws|
    ensures Attempted(evm, was, raws, blockHash) == Fold(evm, Truncate, was, raws[..k + 1], blockHash)
  {
  }

  lemma AttemptedNext(evm: Evm, was: Was, raws: seq<Raw>, blockHash: Hash)
    requires raws != [] && FirstFailure(evm, was, raws[..|raws| - 1], blockHash) == |raws| - 1
    ensures
      var n := |raws| - 1;
      var (after, verdict) := ApplyRaw(evm, Truncate, Attempted(evm, was, raws[..n], blockHash), raws[n], TxContext(blockHash, n));
      && Attempted(evm, was, raws, blockHash) == after
      && (FirstFailure(evm, was, raws, blockHash) < |raws| <==> !verdict.Done?)
  {
    var n := |raws| - 1;
    var before := Fold(evm, Truncate, was, raws[..n], blockHash);
    assert Attempted(evm, was, raws[..n], blockHash) == before;
    assert Verdicts(evm, Truncate, was, raws, blockHash)[n] == ApplyRaw(evm, Truncate, before, raws[n], TxContext(blockHash, n)).1;
    assert raws[..n + 1] == raws;
    assert Attempted(evm, was, raws, blockHash) == Fold(evm, Truncate, was, raws, blockHash);
  }

  /** Unless it crashes the call does to the node what CommitBlock does. */
  lemma LachesisCallIsCommit(evm: Evm, s: Session, block: Block)
    ensures
      var c := LachesisCall(evm, s, block);
      && (c.Some? ==> (c.value.0.node, c.value.1) == LachesisCommit(evm, s.node, block))
      && (s.signer && s.pool ==> c.Some?)
  {
    DeliverEachTracks(evm, s, block.transactions, block.hash);
  }

  lemma {:induction false} DeliverEachStops(evm: Evm, s: Session, raws: seq<Raw>, blockHash: Hash, i: nat)
    requires i <= |raws|
    requires
      var p := DeliverEach(evm, s, raws[..i], blockHash);
      p.None? || p.value.failed
    ensures DeliverEach(evm, s, raws, blockHash) == DeliverEach(evm, s, raws[..i], blockHash)
  {
    if i == |raws| {
      assert raws[..i] == raws;
    } else {
      assert raws[..|raws| - 1][..i] == raws[..i];
      DeliverEachStops(evm, s, raws[..|raws| - 1], blockHash, i);
    }
  }

  /** On a state that NewState has opened, CommitBlock crashes exactly if the block's first transaction decodes. */
  lemma UnsignedLachesisCrashesIff(evm: Evm, s: Session, block: Block)
    requires !s.signer
    ensures LachesisCall(evm, s, block).None? <==> block.transactions != [] && Decode(block.transactions[0]).Some?
  {
    var raws := block.transactions;
    if raws != [] {
      assert raws[..1][..0] == [] && raws[..1][0] == raws[0];
      assert DeliverEach(evm, s, raws[..1][..0], block.hash) == Some(Progress(s, false));
      DeliverEachStops(evm, s, raws, block.hash, 1);
    }
  }

  /** The object through which Lachesis commits blocks in the same process. */
  class InmemProxy {
    const state: State

    constructor (state: State)
      ensures this.state == state
    {
      this.state := state;
    }

    /** The loop: stop at the first transaction that fails. */
    method ApplyEach(block: Block) returns (crashed: bool, ok: bool)
      requires state.Valid()
      modifies state.was, state.was.ethState
      ensures state.Valid()
      ensures
        match DeliverEach(state.evm, old(state.Current()), block.transactions, block.hash)
        case None => crashed
        case Some(p) => !crashed && state.Current() == p.session && ok == !p.failed
    {
      ghost var s := state.Current();
      var raws := block.transactions;
      for i := 0 to |raws|
        invariant state.Valid()
        invariant DeliverEach(state.evm, s, raws[..i], block.hash) == Some(Progress(state.Current(), false))
      {
        DeliverEachStep(state.evm, s, raws, block.hash, i);
        var reply := state.ApplyTransaction(raws[i], TxContext(block.hash, i));
        if reply.None? {
          return true, false;
        }
        if !reply.value.Done? {
          return false, false;
        }
      }
      assert raws[..|raws|] == raws;
      crashed, ok := false, true;
    }

    method CommitBlock(block: Block) returns (crashed: bool, root: Option<Hash>)
      requires state.Valid()
      modifies state`past, state.db, state.ethState, state.was, state.was.ethState, state.txPool, state.txPool.ethState
      ensures state.Valid()
      ensures
        match LachesisCall(state.evm, old(state.Current()), block)
        case None => crashed
        case Some(c) => !crashed && (state.Current(), root) == c && (root.Some? ==> state.Synced())
    {
      var ok;
      crashed, ok := ApplyEach(block);
      if crashed || !ok {
        return crashed, None;
      }
      var hash;
      hash, ok := state.Commit();
      root := Some(hash);
    }
  }

  lemma DeliverEachStep(evm: Evm, s: Session, raws: seq<Raw>, blockHash: Hash, i: nat)
    requires i < |raws| && DeliverEach(evm, s, raws[..i], blockHash).Some? && !DeliverEach(evm, s, raws[..i], blockHash).value.failed
    ensures
      var s1 := DeliverEach(evm, s, raws[..i], blockHash).value.session;
      var s2 := Call(evm, s1, Deliver(raws[i], TxContext(blockHash, i)));
      var done := ApplyRaw(evm, Truncate, s1.node.was, raws[i], TxContext(blockHash, i)).1.Done?;
      var next := if s2.None? then None else Some(Progress(s2.value, !done));
      && DeliverEach(evm, s, raws[..i + 1], blockHash) == next
      && (s2.None? || !done ==> DeliverEach(evm, s, raws, blockHash) == next)
  {
    assert raws[..i + 1][..i] == raws[..i];
    var s1 := DeliverEach(evm, s, raws[..i], blockHash).value.session;
    var s2 := Call(evm, s1, Deliver(raws[i], TxContext(blockHash, i)));
    if s2.None? || !ApplyRaw(evm, Truncate, s1.node.was, raws[i], TxContext(blockHash, i)).1.Done? {
      DeliverEachStops(evm, s, raws, blockHash, i + 1);
    }
  }

  /** The same receipt but for the marks on its logs. */
  predicate SameButMarks(a: Receipt, b: Receipt) {
    a.(logs := []) == b.(logs := []) && |a.logs| == |b.logs|
  }

  /** Two write-ahead states that differ at most in the marks put on logs. */
  predicate SameButLogs(a: Was, b: Was) {
    && a.world == b.world && a.txIndex == b.txIndex && a.transactions == b.transactions
    && a.totalUsedGas == b.totalUsedGas && a.pool == b.pool
    && |a.receipts| == |b.receipts|
    && forall i | 0 <= i < |a.receipts| :: SameButMarks(a.receipts[i], b.receipts[i])
  }

  /** The block hash a driver passes on ends up in the logs and nowhere else. */
  lemma {:induction false} HashOnlyMarksLogs(evm: Evm, c: Conversion, was: Was, raws: seq<Raw>, h1: Hash, h2: Hash)
    ensures SameButLogs(Fold(evm, c, was, raws, h1), Fold(evm, c, was, raws, h2))
    ensures Verdicts(evm, c, was, raws, h1) == Verdicts(evm, c, was, raws, h2)
  {
    if raws != [] {
      var n := |raws| - 1;
      HashOnlyMarksLogs(evm, c, was, raws[..n], h1, h2);
      MarksOnlyLogs(evm, c, Fold(evm, c, was, raws[..n], h1), Fold(evm, c, was, raws[..n], h2), raws[n],
                    TxContext(h1, n), TxContext(h2, n));
    }
  }

  lemma MarksOnlyLogs(evm: Evm, c: Conversion, a: Was, b: Was, raw: Raw, ctx1: TxContext, ctx2: TxContext)
    requires SameButLogs(a, b)
    ensures SameButLogs(ApplyRaw(evm, c, a, raw, ctx1).0, ApplyRaw(evm, c, b, raw, ctx2).0)
    ensures ApplyRaw(evm, c, a, raw, ctx1).1 == ApplyRaw(evm, c, b, raw, ctx2).1
  {
  }

  lemma {:induction false} NoErrorPuts(evm: Evm, was: Was, raws: seq<Raw>, blockHash: Hash)
    requires forall i | 0 <= i < |raws| :: Verdicts(evm, Saturate, was, raws, blockHash)[i].Done?
    ensures ErrorPuts(evm, was, raws, blockHash) == []
  {
    if raws != [] {
      var n := |raws| - 1;
      var all := Verdicts(evm, Saturate, was, raws, blockHash);
      forall i | 0 <= i < n ensures Verdicts(evm, Saturate, was, raws[..n], blockHash)[i].Done? {
        assert all[i] == Verdicts(evm, Saturate, was, raws[..n], blockHash)[i];
      }
      assert all[n].Done?;
      NoErrorPuts(evm, was, raws[..n], blockHash);
    }
  }

  /** When every transaction applies, the two drivers leave the same write-ahead state but for log marks. */
  lemma WorkAgrees(evm: Evm, n: Node, past: seq<Tx>, block: Block, now: int)
    requires Lawful(evm) && NodeInv(n, past) && AllApply(evm, n.was, block)
    ensures
      var attempted := Attempted(evm, n.was, block.transactions, block.hash);
      var work := Work(evm, n, Process(block, now));
      && SameButLogs(attempted, work)
      && (attempted.receipts == work.receipts <==> block.hash == BlockHash(block) || Silent(n.was, work))
      && ErrorPuts(evm, n.was, block.transactions, BlockHash(block)) == []
  {
    var raws := block.transactions;
    var h := BlockHash(block);
    FirstFailureIs(evm, n.was, raws, block.hash);
    HashOnlyMarksLogs(evm, Truncate, n.was, raws, block.hash, h);
    FoldsAgree(evm, n.was, raws, h);
    NoErrorPuts(evm, n.was, raws, h);
    LogsAreMarked(evm, Truncate, n.was, raws, block.hash);
    LogsAreMarked(evm, Truncate, n.was, raws, h);
    MarksDifferIff(n.was, Fold(evm, Truncate, n.was, raws, block.hash), Fold(evm, Truncate, n.was, raws, h), block.hash, h);
  }

  /** None of the receipts added to `was` has logs. */
  predicate Silent(was: Was, was': Was) {
    forall i | |was.receipts| <= i < |was'.receipts| :: was'.receipts[i].logs == []
  }

  /** What was added to `was` is marked with `h`. */
  ghost predicate Marked(was: Was, was': Was, h: Hash) {
    && was.receipts <= was'.receipts
    && forall i, j | |was.receipts| <= i < |was'.receipts| && 0 <= j < |was'.receipts[i].logs| ::
         was'.receipts[i].logs[j].blockHash == h
  }

  lemma MarksStep(evm: Evm, c: Conversion, was: Was, before: Was, raw: Raw, ctx: TxContext)
    requires Marked(was, before, ctx.blockHash)
    ensures Marked(was, ApplyRaw(evm, c, before, raw, ctx).0, ctx.blockHash)
  {
  }

  lemma {:induction false} LogsAreMarked(evm: Evm, c: Conversion, was: Was, raws: seq<Raw>, blockHash: Hash)
    ensures Marked(was, Fold(evm, c, was, raws, blockHash), blockHash)
  {
    if raws != [] {
      var n := |raws| - 1;
      LogsAreMarked(evm, c, was, raws[..n], blockHash);
      MarksStep(evm, c, was, Fold(evm, c, was, raws[..n], blockHash), raws[n], TxContext(blockHash, n));
    }
  }

  lemma MarksDifferIff(was: Was, a: Was, b: Was, h1: Hash, h2: Hash)
    requires SameButLogs(a, b) && Marked(was, a, h1) && Marked(was, b, h2) && (h1 == h2 ==> a == b)
    ensures a.receipts == b.receipts <==> h1 == h2 || Silent(was, b)
  {
    if h1 != h2 && Silent(was, b) {
      forall i | 0 <= i < |a.receipts| ensures a.receipts[i] == b.receipts[i] {
        assert SameButMarks(a.receipts[i], b.receipts[i]);
        if i < |was.receipts| {
          assert a.receipts[i] == was.receipts[i] == b.receipts[i];
        }
      }
    } else if h1 != h2 {
      var i :| |was.receipts| <= i < |b.receipts| && b.receipts[i].logs != [];
      assert SameButMarks(a.receipts[i], b.receipts[i]);
      assert a.receipts[i].logs[0].blockHash == h1 && b.receipts[i].logs[0].blockHash == h2;
    }
  }

  /** Writes to other keys that come first make no difference to a key. */
  lemma SparedWritesFirst(s: Store, puts: seq<Write>, commit: seq<Write>, k: Key)
    requires Spares(puts, k)
    ensures
      var s1, s2 := Replay(s, commit), Replay(s, puts + commit);
      (k in s1 <==> k in s2) && (k in s1 ==> s1[k] == s2[k])
  {
    ReplayConcat(s, puts, commit);
    SparedReplay(s, puts, k);
    SameWritesAgree(s, Replay(s, puts), commit, k);
  }

  predicate OwnKey(block: Block, k: Key) {
    k == HashKey(BlockHash(block)) || k == BlockKey(block.index)
  }

  /** The same worlds, and databases that agree on every key but the block's own. */
  ghost predicate AgreeThroughout(n1: Node, n2: Node, block: Block) {
    forall k: Key | !OwnKey(block, k) :: AgreeOn(n1, n2, k)
  }

  ghost predicate AgreeOffReceipts(n1: Node, n2: Node, block: Block) {
    forall k: Key | !OwnKey(block, k) && !k.ReceiptKey? :: AgreeOn(n1, n2, k)
  }

  /** The same receipt in both databases but for log marks, or in neither. */
  predicate AgreeButMarks(n1: Node, n2: Node, h: Hash) {
    var r1, r2 := ValueAt(n1.store, ReceiptKey(h)), ValueAt(n2.store, ReceiptKey(h));
    || r1 == r2
    || (r1.Some? && r2.Some? && r1.value.ReceiptV? && r2.value.ReceiptV? && SameButMarks(r1.value.receipt, r2.value.receipt))
  }

  /**
   When every transaction of a block applies, CommitBlock and ProcessBlock reach the same world and root,
   with the same transactions and the same receipts but for log marks: the databases agree on every key
   but the block's own and the receipts', and on the receipts too exactly if the block carries its own
   hash or emits no logs.
   */
  lemma BlockDriversAgree(evm: Evm, n: Node, past: seq<Tx>, block: Block, now: int)
    requires Lawful(evm) && NodeInv(n, past) && AllApply(evm, n.was, block)
    ensures
      var (committed, root) := LachesisCommit(evm, n, block);
      var processed := Perform(evm, n, Process(block, now));
      && committed.committed == processed.committed
      && root == Some(OfRoot(processed.committed))
      && AgreeOffReceipts(committed, processed, block)
      && (forall h: Hash :: AgreeButMarks(committed, processed, h))
      && (AgreeThroughout(committed, processed, block)
          <==> block.hash == BlockHash(block) || Silent(n.was, Work(evm, n, Process(block, now))))
  {
    WorkAgrees(evm, n, past, block, now);
    var attempted := Attempted(evm, n.was, block.transactions, block.hash);
    var was := Work(evm, n, Process(block, now));
    CommitBlockIs(evm, n, block, attempted);
    ProcessIs(evm, n, block, now, was);
    WorkKeepsWas(evm, n, past, Process(block, now));
    BlockKeepsWas(evm, Truncate, n.was, past, block.transactions, block.hash);
    FlushesAgree(n.store, block, now, attempted, was, past);
  }

  lemma FlushesAgree(s: Store, block: Block, now: int, a: Was, b: Was, past: seq<Tx>)
    requires SameButLogs(a, b) && WasInv(a, past) && WasInv(b, past)
    ensures
      var n1, n2 := Flushed(s, [], a), Flushed(s, BlockPuts(block, now), b);
      && AgreeOffReceipts(n1, n2, block)
      && (forall h: Hash :: AgreeButMarks(n1, n2, h))
      && (AgreeThroughout(n1, n2, block) <==> a.receipts == b.receipts)
  {
    var puts := BlockPuts(block, now);
    OffReceipts(s, block, now, a, b);
    forall h: Hash ensures AgreeButMarks(Flushed(s, [], a), Flushed(s, puts, b), h) {
      FlushedReceipts(s, puts, a, b, h);
    }
    if a.receipts == b.receipts {
      EqualReceipts(s, block, now, a, b);
    } else {
      DifferentReceipts(s, block, now, a, b, past);
    }
  }

  lemma OffReceipts(s: Store, block: Block, now: int, a: Was, b: Was)
    requires SameButLogs(a, b)
    ensures AgreeOffReceipts(Flushed(s, [], a), Flushed(s, BlockPuts(block, now), b), block)
  {
    forall k: Key | !OwnKey(block, k) && !k.ReceiptKey?
      ensures AgreeOn(Flushed(s, [], a), Flushed(s, BlockPuts(block, now), b), k)
    {
      FlushedElsewhere(s, BlockPuts(block, now), a, b, k);
    }
  }

  lemma EqualReceipts(s: Store, block: Block, now: int, a: Was, b: Was)
    requires SameButLogs(a, b) && a.receipts == b.receipts
    ensures AgreeThroughout(Flushed(s, [], a), Flushed(s, BlockPuts(block, now), b), block)
  {
    OffReceipts(s, block, now, a, b);
    forall k: Key | k.ReceiptKey? ensures AgreeOn(Flushed(s, [], a), Flushed(s, BlockPuts(block, now), b), k) {
      FlushedReceipts(s, BlockPuts(block, now), a, b, k.hash);
    }
  }

  lemma FlushedReceipts(s: Store, puts: seq<Write>, a: Was, b: Was, h: Hash)
    requires SameButLogs(a, b) && Spares(puts, ReceiptKey(h))
    ensures AgreeButMarks(Flushed(s, [], a), Flushed(s, puts, b), h)
    ensures a.receipts == b.receipts ==> AgreeOn(Flushed(s, [], a), Flushed(s, puts, b), ReceiptKey(h))
  {
    FlushedReceipt(s, [], a, h);
    FlushedReceipt(s, puts, b, h);
    LastReceiptsMatch(a.receipts, b.receipts, h);
  }

  /** Only the receipts of the two may differ, and those are written under their own keys. */
  lemma FlushedElsewhere(s: Store, puts: seq<Write>, a: Was, b: Was, k: Key)
    requires SameButLogs(a, b) && Spares(puts, k) && !k.ReceiptKey?
    ensures AgreeOn(Flushed(s, [], a), Flushed(s, puts, b), k)
  {
    LastBatchElsewhere(s, a.world, a.transactions, a.receipts, k);
    LastBatchElsewhere(s, a.world, a.transactions, b.receipts, k);
    FlushedAgree(s, puts, b, k);
    assert [] + CommitWrites(a.world, a.transactions, a.receipts) == CommitWrites(a.world, a.transactions, a.receipts);
    assert [] + CommitWrites(b.world, b.transactions, b.receipts) == CommitWrites(b.world, b.transactions, b.receipts);
  }

  lemma LastBatchElsewhere(s: Store, w: World, txs: seq<Tx>, receipts: seq<Receipt>, k: Key)
    requires !k.ReceiptKey?
    ensures
      ValueAt(Replay(s, CommitWrites(w, txs, receipts)), k)
      == ValueAt(Replay(s, CommitWrites(w, txs, [])[..5]), k)
  {
    var commit := CommitWrites(w, txs, receipts);
    ReceiptBatchHolds(receipts);
    assert commit == commit[..5] + [commit[5]];
    assert commit[..5] == CommitWrites(w, txs, [])[..5];
    ReplayConcat(s, commit[..5], [commit[5]]);
    SparedReplay(Replay(s, commit[..5]), [commit[5]], k);
  }

  lemma FlushedReceipt(s: Store, puts: seq<Write>, was: Was, h: Hash)
    requires Spares(puts, ReceiptKey(h))
    ensures
      ValueAt(Flushed(s, puts, was).store, ReceiptKey(h))
      == Lookup.Or(AsValue(LastReceipt(was.receipts, h)), ValueAt(s, ReceiptKey(h)))
  {
    ReplayConcat(s, puts, CommitWrites(was.world, was.transactions, was.receipts));
    SparedReplay(s, puts, ReceiptKey(h));
    Lookup.CommitReceiptValue(Replay(s, puts), was, h);
  }

  lemma {:induction false} LastReceiptsMatch(a: seq<Receipt>, b: seq<Receipt>, h: Hash)
    requires |a| == |b| && forall i | 0 <= i < |a| :: SameButMarks(a[i], b[i])
    ensures
      var r1, r2 := LastReceipt(a, h), LastReceipt(b, h);
      r1.Some? == r2.Some? && (r1.Some? ==> SameButMarks(r1.value, r2.value))
  {
    if a != [] {
      var n := |a| - 1;
      assert SameButMarks(a[n], b[n]);
      LastReceiptsMatch(a[..n], b[..n], h);
    }
  }

  lemma DifferentReceipts(s: Store, block: Block, now: int, a: Was, b: Was, past: seq<Tx>)
    requires SameButLogs(a, b) && WasInv(a, past) && WasInv(b, past) && a.receipts != b.receipts
    ensures !AgreeThroughout(Flushed(s, [], a), Flushed(s, BlockPuts(block, now), b), block)
  {
    var h := SomeReceiptDiffers(a, b, past);
    ReceiptDiffers(s, BlockPuts(block, now), a, b, h);
    assert !OwnKey(block, ReceiptKey(h));
  }

  lemma SomeReceiptDiffers(a: Was, b: Was, past: seq<Tx>) returns (h: Hash)
    requires SameButLogs(a, b) && WasInv(a, past) && WasInv(b, past) && a.receipts != b.receipts
    ensures LastReceipt(a.receipts, h).Some? && LastReceipt(b.receipts, h).Some?
    ensures LastReceipt(a.receipts, h) != LastReceipt(b.receipts, h)
  {
    var i :| 0 <= i < |a.receipts| && a.receipts[i] != b.receipts[i];
    assert SameButMarks(a.receipts[i], b.receipts[i]);
    h := a.receipts[i].txHash;
    Receipts.OwnReceiptIsLast(a, past, i);
    Receipts.OwnReceiptIsLast(b, past, i);
  }

  lemma ReceiptDiffers(s: Store, puts: seq<Write>, a: Was, b: Was, h: Hash)
    requires Spares(puts, ReceiptKey(h))
    requires LastReceipt(a.receipts, h).Some? && LastReceipt(b.receipts, h).Some?
    requires LastReceipt(a.receipts, h) != LastReceipt(b.receipts, h)
    ensures !AgreeOn(Flushed(s, [], a), Flushed(s, puts, b), ReceiptKey(h))
  {
    FlushedReceipt(s, [], a, h);
    FlushedReceipt(s, puts, b, h);
  }

  function Flushed(s: Store, pre: seq<Write>, was: Was): Node {
    Machine.Node(Replay(s, pre + CommitWrites(was.world, was.transactions, was.receipts)), was.world, Fresh(was.world))
  }

  lemma CommitBlockIs(evm: Evm, n: Node, block: Block, was: Was)
    requires AllApply(evm, n.was, block) && was == Attempted(evm, n.was, block.transactions, block.hash)
    ensures LachesisCommit(evm, n, block) == (Flushed(n.store, [], was), Some(OfRoot(was.world)))
  {
  }

  lemma ProcessIs(evm: Evm, n: Node, block: Block, now: int, was: Was)
    requires ErrorPuts(evm, n.was, block.transactions, BlockHash(block)) == []
    requires was == Work(evm, n, Process(block, now))
    ensures Perform(evm, n, Process(block, now)) == Flushed(n.store, BlockPuts(block, now), was)
  {
    assert BlockPuts(block, now) + [] == BlockPuts(block, now);
  }

  lemma FlushedAgree(s: Store, puts: seq<Write>, was: Was, k: Key)
    requires Spares(puts, k)
    ensures AgreeOn(Flushed(s, [], was), Flushed(s, puts, was), k)
  {
    var commit := CommitWrites(was.world, was.transactions, was.receipts);
    assert [] + commit == commit;
    SparedWritesFirst(s, puts, commit, k);
  }

  lemma {:induction false} FoldGrows(evm: Evm, c: Conversion, was: Was, raws: seq<Raw>, blockHash: Hash)
    ensures was.transactions <= Fold(evm, c, was, raws, blockHash).transactions
  {
    if raws != [] {
      FoldGrows(evm, c, was, raws[..|raws| - 1], blockHash);
    }
  }

  lemma {:induction false} SucceededAreCollected(evm: Evm, was: Was, raws: seq<Raw>, blockHash: Hash, i: nat)
    requires i < |raws| && Verdicts(evm, Truncate, was, raws, blockHash)[i].Done?
    ensures Signed(raws[i]).Some? && Signed(raws[i]).value in Fold(evm, Truncate, was, raws, blockHash).transactions
  {
    var n := |raws| - 1;
    if i < n {
      SucceededAreCollected(evm, was, raws[..n], blockHash, i);
    }
  }

  lemma {:induction false} FoldSplits(evm: Evm, c: Conversion, was: Was, raws: seq<Raw>, blockHash: Hash, k: nat)
    requires k <= |raws|
    ensures Verdicts(evm, c, was, raws, blockHash)[..k] == Verdicts(evm, c, was, raws[..k], blockHash)
  {
    if k < |raws| {
      var n := |raws| - 1;
      FoldSplits(evm, c, was, raws[..n], blockHash, k);
      assert raws[..n][..k] == raws[..k];
    } else {
      assert raws[..k] == raws;
    }
  }

  /**
   A block that CommitBlock rejects is not undone: nothing is committed, but the transactions before
   the failing one stay in the write-ahead state, and the next block that applies commits them too.
   */
  lemma RejectedBlockLeaks(evm: Evm, n: Node, past: seq<Tx>, bad: Block, good: Block, i: nat)
    requires Lawful(evm) && NodeInv(n, past)
    requires i < FirstFailure(evm, n.was, bad.transactions, bad.hash) < |bad.transactions|
    requires AllApply(evm, LachesisCommit(evm, n, bad).0.was, good)
    ensures
      var (n1, none) := LachesisCommit(evm, n, bad);
      var (n2, root) := LachesisCommit(evm, n1, good);
      && none.None? && n1.store == n.store && n1.committed == n.committed
      && root.Some?
      && Signed(bad.transactions[i]).Some?
      && Signed(bad.transactions[i]).value in n1.was.transactions
      && HashKey(OfTx(Signed(bad.transactions[i]).value)) in n2.store
  {
    var raws := bad.transactions;
    var k := FirstFailure(evm, n.was, raws, bad.hash);
    FirstFailureIs(evm, n.was, raws, bad.hash);
    FoldSplits(evm, Truncate, n.was, raws, bad.hash, k + 1);
    assert Verdicts(evm, Truncate, n.was, raws, bad.hash)[..k + 1][i].Done?;
    SucceededAreCollected(evm, n.was, raws[..k + 1], bad.hash, i);
    var n1 := LachesisCommit(evm, n, bad).0;
    var t := Signed(raws[i]).value;
    FoldGrows(evm, Truncate, n1.was, good.transactions, good.hash);
    var was := Attempted(evm, n1.was, good.transactions, good.hash);
    assert t in was.transactions;
    CommitStores(evm, n1.(was := was), t);
  }

  lemma {:induction false} SuccessGrows(evm: Evm, was: Was, raws: seq<Raw>, blockHash: Hash, i: nat)
    requires i < |raws| && Verdicts(evm, Truncate, was, raws, blockHash)[i].Done?
    ensures |Fold(evm, Truncate, was, raws, blockHash).transactions| > |was.transactions|
  {
    var n := |raws| - 1;
    FoldGrows(evm, Truncate, was, raws[..n], blockHash);
    if i < n {
      SuccessGrows(evm, was, raws[..n], blockHash, i);
    }
  }

  lemma FirstVerdict(evm: Evm, was: Was, raws: seq<Raw>, blockHash: Hash)
    requires raws != []
    ensures Verdicts(evm, Truncate, was, raws, blockHash)[0] == ApplyRaw(evm, Truncate, was, raws[0], TxContext(blockHash, 0)).1
    ensures Fold(evm, Truncate, was, raws[..1], blockHash) == ApplyRaw(evm, Truncate, was, raws[0], TxContext(blockHash, 0)).0
  {
    assert raws[..1] == [raws[0]];
    DryRun.VerdictOfOne(evm, Truncate, was, raws[0], blockHash);
    FoldSplits(evm, Truncate, was, raws, blockHash, 1);
    assert Verdicts(evm, Truncate, was, raws, blockHash)[..1][0] == Verdicts(evm, Truncate, was, raws, blockHash)[0];
  }

  lemma FirstTraceIff(was: Was, raw: Raw, ctx: TxContext)
    requires Canonical(was.world)
    ensures
      var (was', verdict) := ApplyRaw(TRANSFERS, Truncate, was, raw, ctx);
      var buys := Signed(raw).Some? && BuysGas(was.world, was.pool, AsMessage(Signed(raw).value));
      (was' == was <==> !buys) && (verdict.Done? ==> buys)
  {
    if Signed(raw).Some? {
      var m := AsMessage(Signed(raw).value);
      if BuysGas(was.world, was.pool, m) {
        BoughtGasIsGone(was.world, m, was.pool);
      } else {
        NoGasNoTrace(was.world, m, was.pool);
      }
    }
  }

  /**
   For plain transfers, exactly when a rejected block leaves no trace: its first transaction, already, did
   not get as far as buying gas.
   */
  lemma RejectedBlockLeavesNoTraceIff(n: Node, bad: Block)
    requires Canonical(n.was.world) && LachesisCommit(TRANSFERS, n, bad).1.None?
    ensures bad.transactions != []
    ensures
      var first := Signed(bad.transactions[0]);
      LachesisCommit(TRANSFERS, n, bad).0 == n
      <==> !(first.Some? && BuysGas(n.was.world, n.was.pool, AsMessage(first.value)))
  {
    var raws := bad.transactions;
    var k := FirstFailure(TRANSFERS, n.was, raws, bad.hash);
    FirstFailureIs(TRANSFERS, n.was, raws, bad.hash);
    FirstVerdict(TRANSFERS, n.was, raws, bad.hash);
    FirstTraceIff(n.was, raws[0], TxContext(bad.hash, 0));
    if k > 0 {
      FoldSplits(TRANSFERS, Truncate, n.was, raws, bad.hash, k + 1);
      assert Verdicts(TRANSFERS, Truncate, n.was, raws, bad.hash)[..k + 1][0].Done?;
      SuccessGrows(TRANSFERS, n.was, raws[..k + 1], bad.hash, 0);
    }
  }

  lemma CommitStores(evm: Evm, n: Node, t: Tx)
    requires t in n.was.transactions
    ensures HashKey(OfTx(t)) in Perform(evm, n, Op.Commit).store
  {
    var commit := CommitWrites(n.was.world, n.was.transactions, n.was.receipts);
    TxBatchHolds(n.was.transactions);
    assert HashKey(OfTx(t)) in Entries(commit[4]);
    ReplayKeys(n.store, commit, HashKey(OfTx(t)));
    CommitOnlyFlushes(evm, n);
  }
}