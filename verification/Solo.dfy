/** The solo driver: one commit per transaction. */
module SoloDriver {
  import opened Wrappers
  import opened Types
  import opened Evm
  import opened Gas
  import opened Ledger
  import opened Storage
  import opened Machine
  import opened Sessions
  import opened EvmState
  import opened Transfers
  import DryRun

  function SoloContext(txIndex: int): TxContext {
    TxContext(OfLabel(txIndex), txIndex)
  }

  /** The state solo drives, and how many transactions it has seen. */
  datatype SoloNode = SoloNode(node: Node, txIndex: int)

  /** One commit per transaction, whether or not it applied. */
  function SoloStep(evm: Evm, s: SoloNode, raw: Raw): SoloNode {
    SoloNode(Perform(evm, Perform(evm, s.node, Deliver(raw, SoloContext(s.txIndex))), Op.Commit), s.txIndex + 1)
  }

  function SoloRun(evm: Evm, s: SoloNode, raws: seq<Raw>): SoloNode {
    if raws == [] then s else SoloStep(evm, SoloRun(evm, s, raws[..|raws| - 1]), raws[|raws| - 1])
  }

  /** What became of each transaction on its own. */
  function SoloVerdicts(evm: Evm, s: SoloNode, raws: seq<Raw>): seq<Verdict> {
    if raws == [] then []
    else
      var before, raw := raws[..|raws| - 1], raws[|raws| - 1];
      var s1 := SoloRun(evm, s, before);
      SoloVerdicts(evm, s, before) + [ApplyRaw(evm, Truncate, s1.node.was, raw, SoloContext(s1.txIndex)).1]
  }

  datatype SoloSession = SoloSession(session: Session, txIndex: int)

  /** One round of Run as a call; None when it brings the process down. */
  function SoloCall(evm: Evm, s: SoloSession, raw: Raw): Option<SoloSession> {
    match Call(evm, s.session, Deliver(raw, SoloContext(s.txIndex)))
    case None => None
    case Some(s1) =>
      match Call(evm, s1, Op.Commit)
      case None => None
      case Some(s2) => Some(SoloSession(s2, s.txIndex + 1))
  }

  function SoloCalls(evm: Evm, s: SoloSession, raws: seq<Raw>): Option<SoloSession> {
    if raws == [] then Some(s)
    else
      match SoloCalls(evm, s, raws[..|raws| - 1])
      case None => None
      case Some(s') => SoloCall(evm, s', raws[|raws| - 1])
  }

  lemma SoloCallIs(evm: Evm, s: SoloSession, raw: Raw)
    ensures
      SoloCall(evm, s, raw)
      == if Crashes(evm, s.session, Deliver(raw, SoloContext(s.txIndex))) then None
         else
           var s' := SoloStep(evm, SoloNode(s.session.node, s.txIndex), raw);
           Some(SoloSession(Session(s'.node, s.session.signer, true), s'.txIndex))
  {
  }

  lemma SoloCallCommits(evm: Evm, s: SoloSession, raw: Raw, delivered: Session)
    requires Call(evm, s.session, Deliver(raw, SoloContext(s.txIndex))) == Some(delivered)
    ensures
      SoloCall(evm, s, raw)
      == Some(SoloSession(Session(Perform(evm, delivered.node, Op.Commit), delivered.signer, true), s.txIndex + 1))
  {
  }

  /** While nothing crashes the rounds do to the node what the pure run does. */
  lemma {:induction false} SoloCallsAreSoloRun(evm: Evm, s: SoloSession, raws: seq<Raw>)
    ensures
      var s' := SoloCalls(evm, s, raws);
      var pure := SoloRun(evm, SoloNode(s.session.node, s.txIndex), raws);
      && (s'.Some? ==> s'.value.session.node == pure.node && s'.value.txIndex == pure.txIndex
                       && s'.value.session.signer == s.session.signer && (s.session.pool ==> s'.value.session.pool))
      && (s.session.signer && s.session.pool ==> s'.Some?)
  {
    if raws != [] {
      var before, last := raws[..|raws| - 1], raws[|raws| - 1];
      SoloCallsAreSoloRun(evm, s, before);
      if SoloCalls(evm, s, before).Some? {
        SoloCallIs(evm, SoloCalls(evm, s, before).value, last);
      }
    }
  }

  ghost predicate SomeIsDecodable(raws: seq<Raw>) {
    exists raw :: raw in raws && Decode(raw).Some?
  }

  lemma SomeIsDecodableExtends(before: seq<Raw>, last: Raw)
    ensures SomeIsDecodable(before + [last]) <==> SomeIsDecodable(before) || Decode(last).Some?
  {
    assert last in before + [last];
    assert forall raw :: raw in before + [last] <==> raw in before || raw == last;
  }

  /** On a state that NewState has opened, solo brings the process down at the first transaction that decodes. */
  lemma {:induction false} UnsignedSoloCrashesIff(evm: Evm, s: SoloSession, raws: seq<Raw>)
    requires !s.session.signer
    ensures SoloCalls(evm, s, raws).None? <==> SomeIsDecodable(raws)
    ensures SoloCalls(evm, s, raws).Some? ==> !SoloCalls(evm, s, raws).value.session.signer
  {
    if raws != [] {
      var before, last := raws[..|raws| - 1], raws[|raws| - 1];
      Snoc(raws);
      SomeIsDecodableExtends(before, last);
      UnsignedSoloCrashesIff(evm, s, before);
      if SoloCalls(evm, s, before).Some? {
        SoloCallIs(evm, SoloCalls(evm, s, before).value, last);
      }
    }
  }

  lemma {:induction false} SoloCallsFail(evm: Evm, s: SoloSession, raws: seq<Raw>, i: nat)
    requires i <= |raws| && SoloCalls(evm, s, raws[..i]).None?
    ensures SoloCalls(evm, s, raws).None?
  {
    if i == |raws| {
      assert raws[..i] == raws;
    } else {
      assert raws[..|raws| - 1][..i] == raws[..i];
      SoloCallsFail(evm, s, raws[..|raws| - 1], i);
    }
  }

  lemma SoloCallsStep(evm: Evm, s: SoloSession, raws: seq<Raw>, i: nat)
    requires i < |raws| && SoloCalls(evm, s, raws[..i]).Some?
    ensures SoloCalls(evm, s, raws[..i + 1]) == SoloCall(evm, SoloCalls(evm, s, raws[..i]).value, raws[i])
    ensures SoloCalls(evm, s, raws[..i + 1]).None? ==> SoloCalls(evm, s, raws).None?
  {
    assert raws[..i + 1][..i] == raws[..i];
    if SoloCalls(evm, s, raws[..i + 1]).None? {
      SoloCallsFail(evm, s, raws, i + 1);
    }
  }

  /** No transaction asks for more than a whole pool. */
  ghost predicate EachFits(raws: seq<Raw>) {
    forall i :: 0 <= i < |raws| ==> GasOf(raws[i]) <= GAS_LIMIT
  }

  lemma {:induction false} FittingEachFit(evm: Evm, c: Conversion, w: World, raws: seq<Raw>, blockHash: Hash)
    requires Lawful(evm) && Fits(evm, c, Fresh(w), raws, blockHash)
    ensures EachFits(raws)
  {
    if raws != [] {
      FittingEachFit(evm, c, w, raws[..|raws| - 1], blockHash);
      BlockKeepsAccounts(evm, c, Fresh(w), raws[..|raws| - 1], blockHash);
    }
  }

  lemma SoloStepIsIdeal(evm: Evm, s: SoloNode, raw: Raw)
    requires Lawful(evm) && s.node.was == Fresh(s.node.committed) && GasOf(raw) <= GAS_LIMIT
    ensures
      var n' := SoloStep(evm, s, raw).node;
      n'.committed == IdealStep(evm, s.node.committed, raw).0 && n'.was == Fresh(n'.committed)
    ensures ApplyRaw(evm, Truncate, s.node.was, raw, SoloContext(s.txIndex)).1 == IdealStep(evm, s.node.committed, raw).1
  {
    if Signed(raw).Some? {
      assert Law(evm, s.node.committed, AsMessage(Signed(raw).value), GAS_LIMIT);
    }
  }

  lemma {:induction false} SoloIsIdeal(evm: Evm, s: SoloNode, raws: seq<Raw>)
    requires Lawful(evm) && s.node.was == Fresh(s.node.committed) && EachFits(raws)
    ensures
      var n' := SoloRun(evm, s, raws).node;
      n'.committed == IdealWorld(evm, s.node.committed, raws) && n'.was == Fresh(n'.committed)
    ensures SoloVerdicts(evm, s, raws) == IdealVerdicts(evm, s.node.committed, raws)
  {
    if raws != [] {
      var before, raw := raws[..|raws| - 1], raws[|raws| - 1];
      SoloIsIdeal(evm, s, before);
      SoloStepIsIdeal(evm, SoloRun(evm, s, before), raw);
    }
  }

  /** One commit per transaction and one commit for a block that fits reach the same world and verdicts. */
  lemma SoloAgreesWithBlock(evm: Evm, n: Node, block: Block, now: int, txIndex: int)
    requires Lawful(evm) && n.was == Fresh(n.committed)
    requires Fits(evm, Saturate, n.was, block.transactions, BlockHash(block))
    ensures SoloRun(evm, SoloNode(n, txIndex), block.transactions).node.committed == Perform(evm, n, Process(block, now)).committed
    ensures SoloVerdicts(evm, SoloNode(n, txIndex), block.transactions)
         == Verdicts(evm, Saturate, n.was, block.transactions, BlockHash(block))
  {
    FittingEachFit(evm, Saturate, n.committed, block.transactions, BlockHash(block));
    SoloIsIdeal(evm, SoloNode(n, txIndex), block.transactions);
    BlockIsIdeal(evm, Saturate, n.was, block.transactions, BlockHash(block));
  }

  /**
   Of transactions that solo applies one and all, the block decides as solo does exactly if each gas limit
   is covered by what the pool has left before it; that the limits add up to no more than the pool
   is enough for that, but not needed.
   */
  lemma SoloAndBlockAgreeIff(evm: Evm, n: Node, block: Block, txIndex: int)
    requires Lawful(evm) && n.was == Fresh(n.committed) && EachFits(block.transactions)
    requires AllDone(SoloVerdicts(evm, SoloNode(n, txIndex), block.transactions))
    ensures
      Verdicts(evm, Saturate, n.was, block.transactions, BlockHash(block))
      == SoloVerdicts(evm, SoloNode(n, txIndex), block.transactions)
      <==> Fits(evm, Saturate, n.was, block.transactions, BlockHash(block))
    ensures GasSum(block.transactions) <= GAS_LIMIT ==> Fits(evm, Saturate, n.was, block.transactions, BlockHash(block))
  {
    SoloIsIdeal(evm, SoloNode(n, txIndex), block.transactions);
    BlockIsIdealIff(evm, Saturate, n.was, block.transactions, BlockHash(block));
    if GasSum(block.transactions) <= GAS_LIMIT {
      SmallBlockFits(evm, Saturate, n.was, block.transactions, BlockHash(block));
    }
  }

  lemma LoneSolo(s: SoloNode, raw: Raw, n: uint64, gas: uint64, after: nat)
    requires raw == Encoded(ToSelf(n, gas), []) && INTRINSIC_GAS <= gas <= GAS_LIMIT && after == n + 1
    requires s.node.was == Fresh(Lone(n))
    ensures SoloStep(TRANSFERS, s, raw).node.was == Fresh(Lone(after))
    ensures SoloStep(TRANSFERS, s, raw).node.committed == Lone(after)
  {
    ToSelfIs(n, n, gas, GAS_LIMIT);
  }

  const FIRST_OF_TWO: Raw := Encoded(ToSelf(0, 21_000), [])
  const SECOND_OF_TWO: Raw := Encoded(ToSelf(1, GAS_LIMIT), [])

  lemma LoneBlock(s: Store, block: Block, now: int)
    requires block.transactions == [FIRST_OF_TWO, SECOND_OF_TWO]
    ensures Perform(TRANSFERS, LoneNode(s, 0), Process(block, now)).committed == Lone(1)
  {
    ToSelfIs(0, 0, 21_000, GAS_LIMIT);
    ToSelfIs(1, 1, GAS_LIMIT, GAS_LIMIT - 21_000);
    FoldTwo(TRANSFERS, Fresh(Lone(0)), FIRST_OF_TWO, SECOND_OF_TWO, BlockHash(block));
  }

  lemma LoneSoloTwo(s0: SoloNode)
    requires s0.node.was == Fresh(Lone(0))
    ensures SoloRun(TRANSFERS, s0, [FIRST_OF_TWO, SECOND_OF_TWO]).node.committed == Lone(2)
  {
    SoloRunTwo(TRANSFERS, s0, FIRST_OF_TWO, SECOND_OF_TWO);
    LoneSolo(s0, FIRST_OF_TWO, 0, 21_000, 1);
    var s1 := SoloStep(TRANSFERS, s0, FIRST_OF_TWO);
    LoneSolo(s1, SECOND_OF_TWO, 1, GAS_LIMIT, 2);
    var s2 := SoloStep(TRANSFERS, s1, SECOND_OF_TWO);
    assert s2.node.committed == Lone(2);
  }

  /** Where they part the worlds do too: alone the second transaction fits, after the first it does not. */
  lemma FullBlockRefusesWhatSoloAccepts(s: Store, block: Block, now: int, txIndex: int)
    requires block.transactions == [FIRST_OF_TWO, SECOND_OF_TWO]
    ensures SoloRun(TRANSFERS, SoloNode(LoneNode(s, 0), txIndex), block.transactions).node.committed == Lone(2)
    ensures Perform(TRANSFERS, LoneNode(s, 0), Process(block, now)).committed == Lone(1)
  {
    LoneSoloTwo(SoloNode(LoneNode(s, 0), txIndex));
    LoneBlock(s, block, now);
  }

  lemma SoloRunTwo(evm: Evm, s: SoloNode, a: Raw, b: Raw)
    ensures SoloRun(evm, s, [a, b]) == SoloStep(evm, SoloStep(evm, s, a), b)
  {
    assert [a, b][..1] == [a] && [a][..0] == [];
    assert SoloRun(evm, s, [a][..0]) == s;
    assert SoloRun(evm, s, [a]) == SoloStep(evm, s, a);
  }

  lemma FoldTwo(evm: Evm, was: Was, a: Raw, b: Raw, blockHash: Hash)
    ensures
      var first := ApplyRaw(evm, Saturate, was, a, TxContext(blockHash, 0)).0;
      Fold(evm, Saturate, was, [a, b], blockHash) == ApplyRaw(evm, Saturate, first, b, TxContext(blockHash, 1)).0
  {
    assert [a, b][..1] == [a];
    DryRun.VerdictOfOne(evm, Saturate, was, a, blockHash);
  }

  /** The solo consensus object. */
  class Solo {
    const state: State
    var txIndex: int

    constructor (state: State)
      ensures this.state == state && txIndex == 0
    {
      this.state := state;
      txIndex := 0;
    }

    /** What Run has done once `submitted` has come through the channel, unless the process has crashed by then. */
    method Run(submitted: seq<Raw>) returns (crashed: bool)
      requires state.Valid()
      modifies this, state`past, state.db, state.ethState, state.was, state.was.ethState, state.txPool, state.txPool.ethState
      ensures state.Valid()
      ensures
        match SoloCalls(state.evm, SoloSession(old(state.Current()), old(txIndex)), submitted)
        case None => crashed
        case Some(s) => !crashed && SoloSession(state.Current(), txIndex) == s && (submitted != [] ==> state.Synced())
    {
      ghost var s := SoloSession(state.Current(), txIndex);
      for i := 0 to |submitted|
        invariant state.Valid() && (i > 0 ==> state.Synced())
        invariant SoloCalls(state.evm, s, submitted[..i]) == Some(SoloSession(state.Current(), txIndex))
      {
        SoloCallsStep(state.evm, s, submitted, i);
        crashed := Relay(submitted[i]);
        if crashed {
          return;
        }
      }
      assert submitted[..|submitted|] == submitted;
      crashed := false;
    }

    /** One round of the loop: whatever became of the transaction, commit. */
    method Relay(raw: Raw) returns (crashed: bool)
      requires state.Valid()
      modifies this, state`past, state.db, state.ethState, state.was, state.was.ethState, state.txPool, state.txPool.ethState
      ensures state.Valid()
      ensures
        match SoloCall(state.evm, SoloSession(old(state.Current()), old(txIndex)), raw)
        case None => crashed
        case Some(s) => !crashed && SoloSession(state.Current(), txIndex) == s && state.Synced()
    {
      ghost var s := SoloSession(state.Current(), txIndex);
      var reply := state.ApplyTransaction(raw, TxContext(OfLabel(txIndex), txIndex));
      if reply.None? {
        return true;
      }
      SoloCallCommits(state.evm, s, raw, state.Current());
      ghost var delivered := state.Current();
      var root, ok := state.Commit();
      txIndex := txIndex + 1;
      crashed := false;
      assert state.Current() == Session(Perform(state.evm, delivered.node, Op.Commit), delivered.signer, true);
    }
  }
}
