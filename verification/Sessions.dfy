/** Nodes as the objects behind them were built: with or without a signer, with or without a gas pool. */
module Sessions {
  import opened Wrappers
  import opened Types
  import opened Evm
  import opened Gas
  import opened Ledger
  import opened Storage
  import opened Machine
  import opened Transfers

  /**
   `signer`: the write-ahead state has a signer and configurations. `pool`: it has a gas pool; without one
   its pool counts as empty.
   */
  datatype Session = Session(node: Node, signer: bool, pool: bool)

  /** ApplyMessage gets as far as the gas pool. */
  predicate UsesPool(evm: Evm, w: World, raw: Raw) {
    Signed(raw).Some? && evm.usesPool(w, AsMessage(Signed(raw).value))
  }

  /**
   The calls that bring the process down: a transaction delivered to a write-ahead state without a signer,
   or one that needs a gas pool where there is none. ProcessBlock has a signer of its own.
   */
  predicate Crashes(evm: Evm, s: Session, op: Op) {
    match op
    case Deliver(raw, _) => Decode(raw).Some? && (!s.signer || (!s.pool && UsesPool(evm, s.node.was.world, raw)))
    case Process(block, _) => !s.pool && exists raw :: raw in block.transactions && UsesPool(evm, s.node.was.world, raw)
    case _ => false
  }

  /** A commit makes a gas pool; nothing makes a signer. */
  function Call(evm: Evm, s: Session, op: Op): Option<Session> {
    if Crashes(evm, s, op) then None
    else Some(Session(Perform(evm, s.node, op), s.signer, s.pool || !op.Deliver?))
  }

  function Calls(evm: Evm, s: Session, ops: seq<Op>): Option<Session> {
    if ops == [] then Some(s)
    else
      match Calls(evm, s, ops[..|ops| - 1])
      case None => None
      case Some(s') => Call(evm, s', ops[|ops| - 1])
  }

  /** NewState: a pool but no signer. */
  function NewSession(s: Store): Option<Session> {
    match Boot(s)
    case None => None
    case Some(n) => Some(Session(n, false, true))
  }

  /** InitState alone: a signer but no pool. */
  function InitSession(s: Store): Option<Session> {
    match InitState(s)
    case None => None
    case Some(w) => Some(Session(Machine.Node(s, w, Idle(w, 0)), true, false))
  }

  ghost predicate SessionInv(s: Session, past: seq<Tx>) {
    NodeInv(s.node, past) && (!s.pool ==> s.node.was.pool == 0)
  }

  lemma InitSessionIsSound(s: Store, past: seq<Tx>)
    requires StoreInv(s, past) && Sequential(Recovered(s), past)
    ensures InitSession(s).Some? && SessionInv(InitSession(s).value, past)
    ensures NewSession(s).Some? && SessionInv(NewSession(s).value, past)
  {
    InitStateSucceeds(s, past);
    FreshWas(Recovered(s), past);
    assert past + [] == past;
  }

  /** Without a pool, what is delivered and does not crash is refused, and changes nothing. */
  lemma PoollessDelivery(evm: Evm, s: Session, past: seq<Tx>, raw: Raw, ctx: TxContext)
    requires Lawful(evm) && SessionInv(s, past) && !s.pool && !Crashes(evm, s, Deliver(raw, ctx))
    ensures Call(evm, s, Deliver(raw, ctx)) == Some(s)
    ensures !ApplyRaw(evm, Truncate, s.node.was, raw, ctx).1.Done?
  {
    if Signed(raw).Some? {
      assert Law(evm, s.node.was.world, AsMessage(Signed(raw).value), 0);
    }
  }

  lemma CallKeepsSession(evm: Evm, s: Session, past: seq<Tx>, op: Op)
    requires Lawful(evm) && SessionInv(s, past) && !Crashes(evm, s, op)
    ensures SessionInv(Call(evm, s, op).value, PastNext(evm, s.node, past, Run(op)))
  {
    RunKeepsNode(evm, s.node, past, op);
    if op.Deliver? && !s.pool {
      PoollessDelivery(evm, s, past, op.raw, op.ctx);
    }
  }

  /** No sequence of calls gives a state a signer, or takes its signer or its pool away. */
  lemma {:induction false} CallsKeepWiring(evm: Evm, s: Session, ops: seq<Op>)
    ensures
      var s' := Calls(evm, s, ops);
      s'.Some? ==> s'.value.signer == s.signer && (s.pool ==> s'.value.pool)
  {
    if ops != [] {
      CallsKeepWiring(evm, s, ops[..|ops| - 1]);
    }
  }

  /**
   On a state that NewState has opened, whatever was called before, ApplyTransaction crashes the process
   exactly if the transaction decodes, and nothing else ever does.
   */
  lemma NewStateCrashesIff(evm: Evm, s: Store, ops: seq<Op>, op: Op)
    requires NewSession(s).Some? && Calls(evm, NewSession(s).value, ops).Some?
    ensures
      Call(evm, Calls(evm, NewSession(s).value, ops).value, op) == None
      <==> op.Deliver? && Decode(op.raw).Some?
  {
    CallsKeepWiring(evm, NewSession(s).value, ops);
  }

  /** On one that InitState alone has opened, what needs the pool crashes, until the first commit; then nothing does. */
  lemma InitStateCrashesIff(evm: Evm, s: Store, ops: seq<Op>, op: Op)
    requires InitSession(s).Some? && Calls(evm, InitSession(s).value, ops).Some?
    ensures
      var s' := Calls(evm, InitSession(s).value, ops).value;
      && (s'.pool <==> Committed(ops))
      && (s'.pool ==> Call(evm, s', op).Some?)
      && (!s'.pool && op.Deliver? ==> (Call(evm, s', op) == None <==> UsesPool(evm, s'.node.was.world, op.raw)))
  {
    CallsKeepWiring(evm, InitSession(s).value, ops);
    PoolSinceCommit(evm, InitSession(s).value, ops);
  }

  /** Some call committed. */
  ghost predicate Committed(ops: seq<Op>) {
    exists o :: o in ops && !o.Deliver?
  }

  lemma CommittedExtends(before: seq<Op>, last: Op)
    ensures Committed(before + [last]) <==> Committed(before) || !last.Deliver?
  {
    assert last in before + [last];
    assert forall o :: o in before + [last] <==> o in before || o == last;
  }

  lemma {:induction false} PoolSinceCommit(evm: Evm, s: Session, ops: seq<Op>)
    requires Calls(evm, s, ops).Some? && !s.pool
    ensures Calls(evm, s, ops).value.pool <==> Committed(ops)
  {
    if ops != [] {
      var before, last := ops[..|ops| - 1], ops[|ops| - 1];
      assert ops == before + [last];
      CommittedExtends(before, last);
      PoolSinceCommit(evm, s, before);
    }
  }

  // ----- what the first commit after a restart writes -----

  /**
   InitState followed by a commit, which makes the pool: the world is the same, and so is every key of the
   database but the root, which is only written if it was not there, and the head, which becomes the hash of
   the empty transaction.
   */
  lemma FirstCommitOverwritesHead(evm: Evm, s: Store, past: seq<Tx>)
    requires StoreInv(s, past) && InitSession(s).Some?
    ensures
      var w := InitState(s).value;
      Call(evm, InitSession(s).value, Op.Commit)
      == Some(Session(Machine.Node(s[RootKey := RootV(OfRoot(w))][HeadKey := HeadV(OfTx(EMPTY_TX))], w, Fresh(w)), true, true))
  {
    InitStateSucceeds(s, past);
    var w := Recovered(s);
    LeavesAreThere(s, past);
    RedundantCommit(s, w);
    CommitOnlyFlushes(evm, InitSession(s).value.node);
  }

  lemma Absorb(s: Store, leaves: Store, node: Store, root: Store, head: Store, none: Store)
    requires s + leaves == s && s + node == s && none == map[]
    ensures s + leaves + node + root + head + none + none == s + root + head
  {
    assert s + root + head + none == s + root + head;
  }

  lemma PutIsUpdate(s: Store, k: Key, v: Value)
    ensures s + map[k := v] == s[k := v]
  {
  }

  lemma RedundantCommit(s: Store, w: World)
    requires s + Leaves(w) == s && s + RootNode(w) == s
    ensures Replay(s, CommitWrites(w, [], [])) == s[RootKey := RootV(OfRoot(w))][HeadKey := HeadV(OfTx(EMPTY_TX))]
  {
    CommitReplays(s, w, [], []);
    Absorb(s, Leaves(w), RootNode(w), map[RootKey := RootV(OfRoot(w))], map[HeadKey := HeadV(Head([]))], TxBatch([]));
    PutIsUpdate(s, RootKey, RootV(OfRoot(w)));
    PutIsUpdate(s[RootKey := RootV(OfRoot(w))], HeadKey, HeadV(OfTx(EMPTY_TX)));
  }

  /** The world at the stored root is on disk already. */
  lemma LeavesAreThere(s: Store, past: seq<Tx>)
    requires StoreInv(s, past)
    ensures s + Leaves(Recovered(s)) == s && s + RootNode(Recovered(s)) == s
  {
    var w := Recovered(s);
    forall k | k in Leaves(w) ensures k in s && s[k] == Leaves(w)[k] {
      var a :| a in w && k == HashKey(OfAccount(w[a]));
      assert HashKey(OfAccount(w[a])) in s;
    }
    RootIsThere(s, w);
  }

  lemma RootIsThere(s: Store, w: World)
    requires ContentAddressed(s) && HasRoot(s, w)
    ensures s + RootNode(w) == s
  {
  }

  // ----- the smallest example -----

  /** A node of plain transfers that has just booted with one account. */
  function LoneNode(s: Store, nonce: nat): Node {
    Machine.Node(s, Lone(nonce), Fresh(Lone(nonce)))
  }
}
