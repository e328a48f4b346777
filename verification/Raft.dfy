/** The Raft driver: one log entry at a time, committed if it was applied. */
module Raft {
  import opened Wrappers
  import opened Types
  import opened Evm
  import opened Gas
  import opened Ledger
  import opened Storage
  import opened Machine
  import opened Sessions
  import opened EvmState
  import opened Transfers

  datatype LogEntry = LogEntry(index: int, data: Raw)

  function RaftContext(entry: LogEntry): TxContext {
    TxContext(ZeroHash, entry.index)
  }

  function RaftVerdict(evm: Evm, n: Node, entry: LogEntry): Verdict {
    ApplyRaw(evm, Truncate, n.was, entry.data, RaftContext(entry)).1
  }

  /** FSM.Apply: commit after a success, return early after an error. */
  function RaftApply(evm: Evm, n: Node, entry: LogEntry): Node {
    var delivered := Perform(evm, n, Deliver(entry.data, RaftContext(entry)));
    if RaftVerdict(evm, n, entry).Done? then Perform(evm, delivered, Op.Commit) else delivered
  }

  function RaftRun(evm: Evm, n: Node, log: seq<LogEntry>): Node {
    if log == [] then n else RaftApply(evm, RaftRun(evm, n, log[..|log| - 1]), log[|log| - 1])
  }

  /** The length of the log up to and including its last successful entry. */
  function LastSuccess(evm: Evm, n: Node, log: seq<LogEntry>): (k: nat)
    ensures k <= |log|
  {
    if log == [] then 0
    else
      var before := log[..|log| - 1];
      if RaftVerdict(evm, RaftRun(evm, n, before), log[|log| - 1]).Done? then |log|
      else LastSuccess(evm, n, before)
  }

  /** One entry: a success refills the pool, a refusal leaves what the EVM left. */
  function EntryStep(evm: Evm, w: World, pool: nat, entry: LogEntry): (World, nat) {
    match Signed(entry.data)
    case None => (w, pool)
    case Some(tx) =>
      match evm.apply(w, AsMessage(tx), pool)
      case Rejected(w', pool', _) => (w', pool')
      case Applied(w', _, _, _, _) => (w', GAS_LIMIT)
  }

  function EntryFold(evm: Evm, w: World, pool: nat, log: seq<LogEntry>): (World, nat) {
    if log == [] then (w, pool)
    else
      var (w', pool') := EntryFold(evm, w, pool, log[..|log| - 1]);
      EntryStep(evm, w', pool', log[|log| - 1])
  }

  lemma RaftStepIs(evm: Evm, n: Node, entry: LogEntry)
    requires n.was == Idle(n.was.world, n.was.pool)
    ensures
      var n' := RaftApply(evm, n, entry);
      var (w, pool) := EntryStep(evm, n.was.world, n.was.pool, entry);
      var done := RaftVerdict(evm, n, entry).Done?;
      && n'.was == Idle(w, pool)
      && n'.committed == (if done then w else n.committed)
      && (!done ==> n'.store == n.store)
  {
  }

  /**
   A replica refines a fold: after any log its write-ahead world is the fold of all entries, and its
   committed world, which is what a restart finds, is the fold up to and including the last success.
   */
  lemma {:induction false} RaftRefinesFold(evm: Evm, n: Node, log: seq<LogEntry>)
    requires n.was == Idle(n.was.world, n.was.pool)
    ensures
      var n' := RaftRun(evm, n, log);
      var (w, pool) := EntryFold(evm, n.was.world, n.was.pool, log);
      var k := LastSuccess(evm, n, log);
      && n'.was == Idle(w, pool)
      && n'.store == RaftRun(evm, n, log[..k]).store
      && n'.committed == if k == 0 then n.committed else EntryFold(evm, n.was.world, n.was.pool, log[..k]).0
  {
    if log == [] {
      assert log[..0] == [];
    } else {
      var before, entry := log[..|log| - 1], log[|log| - 1];
      RaftRefinesFold(evm, n, before);
      RaftStepIs(evm, RaftRun(evm, n, before), entry);
      var k := LastSuccess(evm, n, log);
      assert log[..k] == if k == |log| then log else before[..k];
    }
  }

  ghost function RaftPast(evm: Evm, n: Node, past: seq<Tx>, log: seq<LogEntry>): seq<Tx> {
    if log == [] then past
    else
      var before, entry := log[..|log| - 1], log[|log| - 1];
      RaftPast(evm, n, past, before)
      + if RaftVerdict(evm, RaftRun(evm, n, before), entry).Done? && Decode(entry.data).Some? then [Decode(entry.data).value] else []
  }

  lemma SuccessIsDelivered(evm: Evm, n: Node, entry: LogEntry)
    requires n.was.transactions == [] && RaftVerdict(evm, n, entry).Done?
    ensures
      var delivered := Perform(evm, n, Deliver(entry.data, RaftContext(entry)));
      && Decode(entry.data).Some? && Decode(entry.data).value != EMPTY_TX
      && delivered.was.transactions == [Decode(entry.data).value]
      && RaftApply(evm, n, entry) == Perform(evm, delivered, Op.Commit)
  {
  }

  lemma FailureIsDelivered(evm: Evm, n: Node, entry: LogEntry)
    requires n.was.transactions == [] && !RaftVerdict(evm, n, entry).Done?
    ensures RaftApply(evm, n, entry) == Perform(evm, n, Deliver(entry.data, RaftContext(entry)))
    ensures RaftApply(evm, n, entry).was.transactions == []
  {
  }

  lemma SuccessSound(evm: Evm, n: Node, past: seq<Tx>, entry: LogEntry)
    requires Lawful(evm) && NodeInv(n, past) && n.was.transactions == [] && RaftVerdict(evm, n, entry).Done?
    ensures Decode(entry.data).Some? && NodeInv(RaftApply(evm, n, entry), past + [Decode(entry.data).value])
    ensures RaftApply(evm, n, entry).was.transactions == []
  {
    var op := Deliver(entry.data, RaftContext(entry));
    SuccessIsDelivered(evm, n, entry);
    RunKeepsNode(evm, n, past, op);
    CommitSound(evm, Perform(evm, n, op), past, Decode(entry.data).value);
  }

  lemma CommitSound(evm: Evm, n: Node, past: seq<Tx>, t: Tx)
    requires Lawful(evm) && NodeInv(n, past) && n.was.transactions == [t]
    ensures NodeInv(Perform(evm, n, Op.Commit), past + [t]) && Perform(evm, n, Op.Commit).was.transactions == []
  {
    RunKeepsNode(evm, n, past, Op.Commit);
  }

  lemma RaftApplySound(evm: Evm, n: Node, past: seq<Tx>, entry: LogEntry)
    requires Lawful(evm) && NodeInv(n, past) && n.was.transactions == []
    ensures
      var n' := RaftApply(evm, n, entry);
      var done := RaftVerdict(evm, n, entry).Done? && Decode(entry.data).Some?;
      && NodeInv(n', past + if done then [Decode(entry.data).value] else [])
      && n'.was.transactions == []
  {
    if RaftVerdict(evm, n, entry).Done? {
      SuccessSound(evm, n, past, entry);
    } else {
      FailureIsDelivered(evm, n, entry);
      RunKeepsNode(evm, n, past, Deliver(entry.data, RaftContext(entry)));
      assert past + [] == past;
    }
  }

  lemma {:induction false} RaftRunSound(evm: Evm, n: Node, past: seq<Tx>, log: seq<LogEntry>)
    requires Lawful(evm) && NodeInv(n, past) && n.was.transactions == []
    ensures NodeInv(RaftRun(evm, n, log), RaftPast(evm, n, past, log)) && RaftRun(evm, n, log).was.transactions == []
  {
    if log != [] {
      var before := log[..|log| - 1];
      RaftRunSound(evm, n, past, before);
      RaftApplySound(evm, RaftRun(evm, n, before), RaftPast(evm, n, past, before), log[|log| - 1]);
    }
  }

  /** Replicas fed the same log stay in step: whatever they agreed on before, they agree on after. */
  lemma {:induction false} ReplicasAgree(evm: Evm, n1: Node, n2: Node, log: seq<LogEntry>, k: Key)
    requires AgreeOn(n1, n2, k)
    ensures AgreeOn(RaftRun(evm, n1, log), RaftRun(evm, n2, log), k)
  {
    if log != [] {
      var before, entry := log[..|log| - 1], log[|log| - 1];
      ReplicasAgree(evm, n1, n2, before, k);
      var d1 := Perform(evm, RaftRun(evm, n1, before), Deliver(entry.data, RaftContext(entry)));
      var d2 := Perform(evm, RaftRun(evm, n2, before), Deliver(entry.data, RaftContext(entry)));
      SameWritesAgree(d1.store, d2.store, Writes(evm, d1, Op.Commit), k);
    }
  }

  // ----- restart and replay -----

  /** No entry could be accepted any more: the sender's nonce is past it. */
  ghost predicate AllSpent(w: World, log: seq<LogEntry>) {
    forall e | e in log :: Signed(e.data).Some? ==> Signed(e.data).value.nonce < Nonce(w, Keyed(Signed(e.data).value.from.value))
  }

  lemma {:induction false} ReplayOfSpentIsNoOp(evm: Evm, n: Node, log: seq<LogEntry>)
    requires Lawful(evm) && AllSpent(n.was.world, log)
    ensures RaftRun(evm, n, log) == n
  {
    if log != [] {
      var before, entry := log[..|log| - 1], log[|log| - 1];
      ReplayOfSpentIsNoOp(evm, n, before);
      if Signed(entry.data).Some? {
        assert entry in log;
        assert Law(evm, n.was.world, AsMessage(Signed(entry.data).value), n.was.pool);
      }
    }
  }

  /** Every entry of the log was applied and committed. */
  ghost predicate AllSucceeded(evm: Evm, n: Node, log: seq<LogEntry>) {
    forall i | 0 <= i < |log| :: RaftVerdict(evm, RaftRun(evm, n, log[..i]), log[i]).Done?
  }

  lemma AllSucceededPrefix(evm: Evm, n: Node, log: seq<LogEntry>)
    requires log != [] && AllSucceeded(evm, n, log)
    ensures AllSucceeded(evm, n, log[..|log| - 1])
  {
    var before := log[..|log| - 1];
    forall i | 0 <= i < |before| ensures RaftVerdict(evm, RaftRun(evm, n, before[..i]), before[i]).Done? {
      assert before[..i] == log[..i];
      assert RaftVerdict(evm, RaftRun(evm, n, log[..i]), log[i]).Done?;
    }
  }

  lemma {:induction false} SucceededAreInHistory(evm: Evm, n: Node, past: seq<Tx>, log: seq<LogEntry>)
    requires AllSucceeded(evm, n, log)
    ensures forall e | e in log :: Signed(e.data).Some? && Signed(e.data).value in RaftPast(evm, n, past, log)
  {
    if log != [] {
      var before, entry := log[..|log| - 1], log[|log| - 1];
      AllSucceededPrefix(evm, n, log);
      SucceededAreInHistory(evm, n, past, before);
      DoneIsSigned(evm, RaftRun(evm, n, before), entry);
      var earlier := RaftPast(evm, n, past, before);
      assert RaftPast(evm, n, past, log) == earlier + [Signed(entry.data).value];
      forall e | e in log ensures Signed(e.data).Some? && Signed(e.data).value in earlier + [Signed(entry.data).value] {
        assert e in before || e == entry;
      }
    }
  }

  lemma DoneIsSigned(evm: Evm, n: Node, entry: LogEntry)
    requires RaftVerdict(evm, n, entry).Done?
    ensures Signed(entry.data).Some? && Decode(entry.data) == Signed(entry.data)
  {
  }

  // ----- the calls a driver makes -----

  /** FSM.Apply as a call; None when it brings the process down. */
  function RaftCall(evm: Evm, s: Session, entry: LogEntry): Option<Session> {
    match Call(evm, s, Deliver(entry.data, RaftContext(entry)))
    case None => None
    case Some(s1) => if RaftVerdict(evm, s.node, entry).Done? then Call(evm, s1, Op.Commit) else Some(s1)
  }

  function RaftCalls(evm: Evm, s: Session, log: seq<LogEntry>): Option<Session> {
    if log == [] then Some(s)
    else
      match RaftCalls(evm, s, log[..|log| - 1])
      case None => None
      case Some(s') => RaftCall(evm, s', log[|log| - 1])
  }

  lemma RaftCallIs(evm: Evm, s: Session, entry: LogEntry)
    ensures
      RaftCall(evm, s, entry)
      == if Crashes(evm, s, Deliver(entry.data, RaftContext(entry))) then None
         else Some(Session(RaftApply(evm, s.node, entry), s.signer, s.pool || RaftVerdict(evm, s.node, entry).Done?))
  {
  }

  /** While nothing crashes the calls do to the node what the log does. */
  lemma {:induction false} RaftCallsAreRaftRun(evm: Evm, s: Session, log: seq<LogEntry>)
    ensures
      var s' := RaftCalls(evm, s, log);
      && (s'.Some? ==> s'.value.node == RaftRun(evm, s.node, log) && s'.value.signer == s.signer)
      && (s.signer && s.pool ==> s'.Some? && s'.value.pool)
  {
    if log != [] {
      var before, last := log[..|log| - 1], log[|log| - 1];
      RaftCallsAreRaftRun(evm, s, before);
      if RaftCalls(evm, s, before).Some? {
        RaftCallIs(evm, RaftCalls(evm, s, before).value, last);
      }
    }
  }

  ghost predicate SomeDecodes(log: seq<LogEntry>) {
    exists e :: e in log && Decode(e.data).Some?
  }

  lemma SomeDecodesExtends(before: seq<LogEntry>, last: LogEntry)
    ensures SomeDecodes(before + [last]) <==> SomeDecodes(before) || Decode(last.data).Some?
  {
    assert last in before + [last];
    assert forall e :: e in before + [last] <==> e in before || e == last;
  }

  /** Without a signer, Raft brings the process down at the first entry that decodes. */
  lemma {:induction false} UnsignedRaftCrashesIff(evm: Evm, s: Session, log: seq<LogEntry>)
    requires !s.signer
    ensures RaftCalls(evm, s, log) == if SomeDecodes(log) then None else Some(s)
  {
    if log != [] {
      var before, last := log[..|log| - 1], log[|log| - 1];
      assert log == before + [last];
      SomeDecodesExtends(before, last);
      UnsignedRaftCrashesIff(evm, s, before);
    }
  }

  /** So a replica whose state NewState opened never applies an entry, whatever was called before the first. */
  lemma NewStateRaftCrashesIff(evm: Evm, store: Store, ops: seq<Op>, log: seq<LogEntry>)
    requires NewSession(store).Some? && Calls(evm, NewSession(store).value, ops).Some?
    ensures
      var s := Calls(evm, NewSession(store).value, ops).value;
      RaftCalls(evm, s, log) == if SomeDecodes(log) then None else Some(s)
  {
    CallsKeepWiring(evm, NewSession(store).value, ops);
    UnsignedRaftCrashesIff(evm, Calls(evm, NewSession(store).value, ops).value, log);
  }

  // ----- restart and replay, with InitState -----

  ghost predicate SomeUsesPool(evm: Evm, w: World, log: seq<LogEntry>) {
    exists e :: e in log && UsesPool(evm, w, e.data)
  }

  lemma SomeUsesPoolExtends(evm: Evm, w: World, before: seq<LogEntry>, last: LogEntry)
    ensures SomeUsesPool(evm, w, before + [last]) <==> SomeUsesPool(evm, w, before) || UsesPool(evm, w, last.data)
  {
    assert last in before + [last];
    assert forall e :: e in before + [last] <==> e in before || e == last;
  }

  /** Without a gas pool a log either changes nothing at all or brings the process down. */
  lemma {:induction false} PoollessRaft(evm: Evm, s: Session, past: seq<Tx>, log: seq<LogEntry>)
    requires Lawful(evm) && SessionInv(s, past) && s.signer && !s.pool
    ensures RaftCalls(evm, s, log) == if SomeUsesPool(evm, s.node.was.world, log) then None else Some(s)
  {
    if log != [] {
      var before, last := log[..|log| - 1], log[|log| - 1];
      assert log == before + [last];
      SomeUsesPoolExtends(evm, s.node.was.world, before, last);
      PoollessRaft(evm, s, past, before);
      if !UsesPool(evm, s.node.was.world, last.data) {
        PoollessDelivery(evm, s, past, last.data, RaftContext(last));
      }
    }
  }

  /**
   After any log a replica that InitState alone restarts can be fed the log again, and then nothing at all
   changes, exactly if none of its entries gets as far as the gas pool; otherwise the process crashes.
   */
  lemma RestartAndReplayIff(evm: Evm, n: Node, past: seq<Tx>, log: seq<LogEntry>)
    requires Lawful(evm) && NodeInv(n, past) && n.was.transactions == []
    ensures
      var n' := RaftRun(evm, n, log);
      var s := InitSession(n'.store);
      && s.Some? && s.value.node.committed == n'.committed
      && RaftCalls(evm, s.value, log) == if SomeUsesPool(evm, n'.committed, log) then None else s
  {
    var past' := RaftPast(evm, n, past, log);
    RaftRunSound(evm, n, past, log);
    InitSessionIsSound(RaftRun(evm, n, log).store, past');
    InitStateSucceeds(RaftRun(evm, n, log).store, past');
    PoollessRaft(evm, InitSession(RaftRun(evm, n, log).store).value, past', log);
  }

  /** What is spent is refused before the pool is looked at. */
  lemma SpentUsesNoPool(evm: Evm, w: World, log: seq<LogEntry>)
    requires Lawful(evm) && AllSpent(w, log)
    ensures !SomeUsesPool(evm, w, log)
  {
    forall e | e in log ensures !UsesPool(evm, w, e.data) {
      if Signed(e.data).Some? {
        assert Law(evm, w, AsMessage(Signed(e.data).value), 0);
      }
    }
  }

  lemma SucceededAreSpent(evm: Evm, n: Node, past: seq<Tx>, log: seq<LogEntry>)
    requires Lawful(evm) && NodeInv(n, past) && n.was.transactions == [] && AllSucceeded(evm, n, log)
    ensures AllSpent(RaftRun(evm, n, log).committed, log)
  {
    RaftRunSound(evm, n, past, log);
    SucceededAreInHistory(evm, n, past, log);
  }

  /**
   A log whose entries all succeeded can be replayed from its start over the database it produced: with the
   state that InitState opens, nothing crashes and nothing at all changes.
   */
  lemma RestartAndReplay(evm: Evm, n: Node, past: seq<Tx>, log: seq<LogEntry>)
    requires Lawful(evm) && NodeInv(n, past) && n.was.transactions == [] && AllSucceeded(evm, n, log)
    ensures
      var n' := RaftRun(evm, n, log);
      var s := InitSession(n'.store);
      s.Some? && s.value.node.committed == n'.committed && RaftCalls(evm, s.value, log) == s
  {
    RestartAndReplayIff(evm, n, past, log);
    SucceededAreSpent(evm, n, past, log);
    SpentUsesNoPool(evm, RaftRun(evm, n, log).committed, log);
  }

  lemma CommitWritesRootKey(evm: Evm, n: Node)
    ensures RootKey in Perform(evm, n, Op.Commit).store
  {
    var commit := CommitWrites(n.was.world, n.was.transactions, n.was.receipts);
    assert RootKey in Entries(commit[2]);
    ReplayKeys(n.store, commit, RootKey);
    CommitOnlyFlushes(evm, n);
  }

  /** After an entry that succeeded, the database has a root, and its head is that entry's transaction. */
  lemma SuccessSetsHead(evm: Evm, n: Node, past: seq<Tx>, entry: LogEntry)
    requires Lawful(evm) && NodeInv(n, past) && n.was.transactions == [] && RaftVerdict(evm, n, entry).Done?
    ensures
      var s := RaftApply(evm, n, entry).store;
      && Decode(entry.data).Some? && Decode(entry.data).value != EMPTY_TX
      && RootKey in s
      && HeadKey in s && s[HeadKey] == HeadV(OfTx(Decode(entry.data).value))
  {
    var op := Deliver(entry.data, RaftContext(entry));
    var delivered := Perform(evm, n, op);
    SuccessIsDelivered(evm, n, entry);
    RunKeepsNode(evm, n, past, op);
    HeadCanBeLookedUpIff(evm, delivered, past, Op.Commit);
    CommitWritesRootKey(evm, delivered);
  }

  /**
   With InitState and a commit, as a new gas pool needs one, the replay of a log of successes changes nothing
   either; but the commit has changed the head: it named the log's last transaction, and now it names none.
   */
  lemma RestartCommitAndReplay(evm: Evm, n: Node, past: seq<Tx>, log: seq<LogEntry>)
    requires Lawful(evm) && NodeInv(n, past) && n.was.transactions == [] && AllSucceeded(evm, n, log) && log != []
    ensures
      var n' := RaftRun(evm, n, log);
      && InitSession(n'.store).Some?
      && var s := Call(evm, InitSession(n'.store).value, Op.Commit);
      && s.Some? && s.value.signer && s.value.pool && s.value.node.committed == n'.committed
      && RaftCalls(evm, s.value, log) == s
      && s.value.node.store == n'.store[HeadKey := HeadV(OfTx(EMPTY_TX))]
      && HeadKey in n'.store && n'.store[HeadKey] == HeadV(OfTx(Decode(log[|log| - 1].data).value))
      && s.value.node.store != n'.store
  {
    var n' := RaftRun(evm, n, log);
    var before, last := log[..|log| - 1], log[|log| - 1];
    var past' := RaftPast(evm, n, past, log);
    AllSucceededPrefix(evm, n, log);
    RaftRunSound(evm, n, past, before);
    RaftRunSound(evm, n, past, log);
    assert RaftVerdict(evm, RaftRun(evm, n, before), last).Done?;
    SuccessSetsHead(evm, RaftRun(evm, n, before), RaftPast(evm, n, past, before), last);
    InitSessionIsSound(n'.store, past');
    FirstCommitOverwritesHead(evm, n'.store, past');
    RootStays(n'.store, past');
    var s := Call(evm, InitSession(n'.store).value, Op.Commit).value;
    SucceededAreSpent(evm, n, past, log);
    ReplayOfSpentIsNoOp(evm, s.node, log);
    RaftCallsAreRaftRun(evm, s, log);
    RaftCallsKeepPool(evm, s, log);
  }

  lemma {:induction false} RaftCallsKeepPool(evm: Evm, s: Session, log: seq<LogEntry>)
    requires s.signer && s.pool
    ensures RaftCalls(evm, s, log) == Some(Session(RaftRun(evm, s.node, log), true, true))
  {
    RaftCallsAreRaftRun(evm, s, log);
  }

  lemma RootStays(s: Store, past: seq<Tx>)
    requires StoreInv(s, past) && RootKey in s
    ensures InitState(s).Some? && s[RootKey := RootV(OfRoot(InitState(s).value))] == s
  {
    InitStateSucceeds(s, past);
  }

  // ----- exactly which replays are harmless -----

  /** The entry would have some effect: it decodes, is validly signed, and gets as far as buying gas. */
  predicate Buys(w: World, pool: nat, entry: LogEntry) {
    Signed(entry.data).Some? && BuysGas(w, pool, AsMessage(Signed(entry.data).value))
  }

  ghost predicate Rose(w: World, w': World) {
    exists a: Address :: a.Keyed? && Nonce(w, a) < Nonce(w', a)
  }

  /** Progress that nothing undoes: some nonce has risen, or gas has gone from the pool. */
  ghost predicate Moved(w: World, pool: nat, w': World, pool': nat) {
    NonceNeverFalls(w, w') && (Rose(w, w') || pool' < pool)
  }

  lemma EntryMoves(w: World, pool: nat, entry: LogEntry)
    requires Canonical(w)
    ensures
      var (w', pool') := EntryStep(TRANSFERS, w, pool, entry);
      && Canonical(w') && NonceNeverFalls(w, w')
      && (Rose(w, w') || pool' <= pool)
      && (if Buys(w, pool, entry) then Moved(w, pool, w', pool') else w' == w && pool' == pool)
  {
    if Signed(entry.data).Some? {
      var m := AsMessage(Signed(entry.data).value);
      TransferLaws(w, m, pool);
      var o := TRANSFERS.apply(w, m, pool);
      if BuysGas(w, pool, m) {
        BoughtGasIsGone(w, m, pool);
      } else {
        NoGasNoTrace(w, m, pool);
      }
      if o.Applied? {
        assert m.from.Keyed? && Nonce(w, m.from) < Nonce(o.world, m.from);
      }
    }
  }

  lemma MovedStays(w0: World, pool0: nat, w: World, pool: nat, w': World, pool': nat)
    requires Moved(w0, pool0, w, pool) && NonceNeverFalls(w, w') && (Rose(w, w') || pool' <= pool)
    ensures Moved(w0, pool0, w', pool')
  {
    if Rose(w0, w) {
      var a: Address :| a.Keyed? && Nonce(w0, a) < Nonce(w, a);
      assert Nonce(w0, a) < Nonce(w', a);
    } else if Rose(w, w') {
      var a: Address :| a.Keyed? && Nonce(w, a) < Nonce(w', a);
      assert Nonce(w0, a) < Nonce(w', a);
    }
  }

  ghost predicate NoneBuys(w: World, pool: nat, log: seq<LogEntry>) {
    forall e | e in log :: !Buys(w, pool, e)
  }

  lemma NoneBuysExtends(w: World, pool: nat, before: seq<LogEntry>, last: LogEntry)
    ensures NoneBuys(w, pool, before + [last]) <==> NoneBuys(w, pool, before) && !Buys(w, pool, last)
  {
    assert last in before + [last];
    assert forall e | e in before :: e in before + [last];
  }

  lemma {:induction false} LogMoves(w: World, pool: nat, log: seq<LogEntry>)
    requires Canonical(w)
    ensures
      var (w', pool') := EntryFold(TRANSFERS, w, pool, log);
      && Canonical(w')
      && (if NoneBuys(w, pool, log) then w' == w && pool' == pool else Moved(w, pool, w', pool'))
  {
    if log != [] {
      var before, last := log[..|log| - 1], log[|log| - 1];
      assert log == before + [last];
      LogMoves(w, pool, before);
      NoneBuysExtends(w, pool, before, last);
      var (w1, pool1) := EntryFold(TRANSFERS, w, pool, before);
      EntryMoves(w1, pool1, last);
      if !NoneBuys(w, pool, before) {
        var (w', pool') := EntryStep(TRANSFERS, w1, pool1, last);
        MovedStays(w, pool, w1, pool1, w', pool');
      }
    }
  }

  lemma NoBuyNoTrace(n: Node, entry: LogEntry)
    requires Canonical(n.was.world) && !Buys(n.was.world, n.was.pool, entry)
    ensures RaftApply(TRANSFERS, n, entry) == n
  {
    if Signed(entry.data).Some? {
      NoGasNoTrace(n.was.world, AsMessage(Signed(entry.data).value), n.was.pool);
    }
  }

  lemma {:induction false} NoBuysNoTrace(n: Node, log: seq<LogEntry>)
    requires Canonical(n.was.world) && NoneBuys(n.was.world, n.was.pool, log)
    ensures RaftRun(TRANSFERS, n, log) == n
  {
    if log != [] {
      NoBuysNoTrace(n, log[..|log| - 1]);
      assert log[|log| - 1] in log;
      NoBuyNoTrace(n, log[|log| - 1]);
    }
  }

  /**
   For plain transfers, exactly when a log leaves no trace at all: no entry of it, met in the state the
   log starts from, gets as far as buying gas.
   */
  lemma ReplayIsNoOpIff(n: Node, log: seq<LogEntry>)
    requires n.was == Idle(n.was.world, n.was.pool) && Canonical(n.was.world)
    ensures RaftRun(TRANSFERS, n, log) == n <==> NoneBuys(n.was.world, n.was.pool, log)
  {
    LogMoves(n.was.world, n.was.pool, log);
    if NoneBuys(n.was.world, n.was.pool, log) {
      NoBuysNoTrace(n, log);
    } else {
      RaftRefinesFold(TRANSFERS, n, log);
    }
  }

  /**
   So, for plain transfers, a replica restarted by InitState and a commit may be fed its log again exactly if
   no entry could buy gas in the world it recovered.
   */
  lemma RestartCommitAndReplayIff(n: Node, past: seq<Tx>, log: seq<LogEntry>)
    requires NodeInv(n, past) && n.was.transactions == []
    ensures
      var n' := RaftRun(TRANSFERS, n, log);
      && InitSession(n'.store).Some?
      && var s := Call(TRANSFERS, InitSession(n'.store).value, Op.Commit);
      && s.Some?
      && (RaftCalls(TRANSFERS, s.value, log) == s <==> NoneBuys(n'.committed, GAS_LIMIT, log))
  {
    var n', past' := RaftRun(TRANSFERS, n, log), RaftPast(TRANSFERS, n, past, log);
    TransfersAreLawful();
    RaftRunSound(TRANSFERS, n, past, log);
    InitSessionIsSound(n'.store, past');
    InitStateSucceeds(n'.store, past');
    FirstCommitOverwritesHead(TRANSFERS, n'.store, past');
    var s := Call(TRANSFERS, InitSession(n'.store).value, Op.Commit).value;
    RaftCallsKeepPool(TRANSFERS, s, log);
    ReplayIsNoOpIff(s.node, log);
  }

  const TOO_EARLY := LogEntry(1, Encoded(ToSelf(1, 21_000), []))
  const IN_TURN := LogEntry(2, Encoded(ToSelf(0, 21_000), []))

  lemma LoneApply(s: Store, n: nat, entry: LogEntry, nonce: uint64)
    requires entry.data == Encoded(ToSelf(nonce, 21_000), [])
    ensures nonce != n ==> RaftApply(TRANSFERS, LoneNode(s, n), entry) == LoneNode(s, n)
    ensures nonce == n ==> RaftApply(TRANSFERS, LoneNode(s, n), entry)
                           == LoneNode(RaftApply(TRANSFERS, LoneNode(s, n), entry).store, n + 1)
  {
    ToSelfIs(n, nonce, 21_000, GAS_LIMIT);
    RaftStepIs(TRANSFERS, LoneNode(s, n), entry);
  }

  lemma RaftRunTwo(evm: Evm, n: Node, a: LogEntry, b: LogEntry)
    ensures RaftRun(evm, n, [a, b]) == RaftApply(evm, RaftApply(evm, n, a), b)
  {
    assert [a, b][..1] == [a] && [a][..0] == [];
    assert RaftRun(evm, n, [a][..0]) == n;
    assert RaftRun(evm, n, [a]) == RaftApply(evm, n, a);
  }

  /**
   With a refused entry in the log the replay need not be a no-op: what came too early the first time
   comes in turn the second time, and the sender's nonce, now 1, becomes 2.
   */
  lemma ReplayCanApplyARefusedEntry(s: Store)
    ensures
      var log := [TOO_EARLY, IN_TURN];
      var n' := RaftRun(TRANSFERS, LoneNode(s, 0), log);
      n'.committed == Lone(1) && RaftRun(TRANSFERS, n', log).committed == Lone(2)
  {
    var n0 := LoneNode(s, 0);
    RaftRunTwo(TRANSFERS, n0, TOO_EARLY, IN_TURN);
    LoneApply(s, 0, TOO_EARLY, 1);
    LoneApply(s, 0, IN_TURN, 0);
    var n1 := RaftRun(TRANSFERS, n0, [TOO_EARLY, IN_TURN]);
    RaftRunTwo(TRANSFERS, n1, TOO_EARLY, IN_TURN);
    LoneApply(n1.store, 1, TOO_EARLY, 1);
    var n2 := RaftApply(TRANSFERS, n1, TOO_EARLY);
    LoneApply(n2.store, 2, IN_TURN, 0);
  }

  /** The object Raft drives. */
  class FSM {
    const state: State

    constructor (state: State)
      ensures this.state == state
    {
      this.state := state;
    }

    /** The new root, or nothing when the entry was not applied. */
    method Apply(entry: LogEntry) returns (crashed: bool, hash: Option<Hash>)
      requires state.Valid()
      modifies state`past, state.db, state.ethState, state.was, state.was.ethState, state.txPool, state.txPool.ethState
      ensures state.Valid()
      ensures
        match RaftCall(state.evm, old(state.Current()), entry)
        case None => crashed && hash == None && state.Current() == old(state.Current())
        case Some(s) =>
          && !crashed && state.Current() == s
          && hash == if RaftVerdict(state.evm, old(state.Node()), entry).Done? then Some(OfRoot(state.ethState.world)) else None
    {
      var reply := state.ApplyTransaction(entry.data, TxContext(ZeroHash, entry.index));
      if reply.None? {
        return true, None;
      }
      if !reply.value.Done? {
        return false, None;
      }
      var root, ok := state.Commit();
      crashed, hash := false, if ok then Some(root) else None;
    }
  }
}
