/** The flat key/value database, the writes made to it, and what a crash can leave behind. */
module Storage {
  import opened Wrappers
  import opened Types

  datatype Key =
    | RootKey
    | HeadKey
    | BlockKey(index: int)
    | HashKey(hash: Hash)
    | ErrorKey(hash: Hash)
    | ReceiptKey(hash: Hash)

  datatype Value =
    | RootV(root: Hash)
    | HeadV(head: Hash)
    | BlockV(block: Block)
    | TxV(tx: Tx)
    | ErrorV(failedTx: Tx, error: string)
    | ReceiptV(receipt: Receipt)
    | AccountV(account: Account)
    | NodeV(children: map<Address, Hash>)

  type Store = map<Key, Value>

  /** A put or a batch is atomic; a trie flush may land in part, but children land before their parent. */
  datatype Write =
    | Put(key: Key, value: Value)
    | Batch(batch: Store)
    | Flush(nodes: Store)

  function Entries(write: Write): Store {
    match write
    case Put(key, value) => map[key := value]
    case Batch(batch) => batch
    case Flush(nodes) => nodes
  }

  function Replay(s: Store, writes: seq<Write>): Store {
    if writes == [] then s else Replay(s, writes[..|writes| - 1]) + Entries(writes[|writes| - 1])
  }

  /** A crash point: `after` writes are complete; of a flush then under way only `landed` is on disk. */
  datatype Cut = Cut(after: nat, landed: set<Key>)

  function Landed(write: Write, landed: set<Key>): Store {
    if write.Flush? then map k | k in write.nodes && k in landed :: write.nodes[k] else map[]
  }

  function Crashed(s: Store, writes: seq<Write>, cut: Cut): Store {
    if cut.after < |writes| then Replay(s, writes[..cut.after]) + Landed(writes[cut.after], cut.landed)
    else Replay(s, writes)
  }

  // ----- the trie -----

  function Children(w: World): map<Address, Hash> {
    map a | a in w :: OfAccount(w[a])
  }

  function Leaves(w: World): Store {
    map account | account in w.Values :: HashKey(OfAccount(account)) := AccountV(account)
  }

  /** The empty trie has no node of its own. */
  function RootNode(w: World): Store {
    if w == map[] then map[] else map[HashKey(OfRoot(w)) := NodeV(Children(w))]
  }

  /** Opening a StateDB at `root`: it fails when a node is missing. */
  function ReadWorld(s: Store, root: Hash): Option<World> {
    if root == ZeroHash || root == OfRoot(map[]) then Some(map[])
    else if HashKey(root) !in s || !s[HashKey(root)].NodeV? then None
    else
      var children := s[HashKey(root)].children;
      if forall a | a in children :: HashKey(children[a]) in s && s[HashKey(children[a])].AccountV? then
        Some(map a | a in children :: s[HashKey(children[a])].account)
      else None
  }

  /** InitState: the world at the stored root, or the empty world when no root was ever written. */
  function InitState(s: Store): Option<World> {
    if RootKey !in s then Some(map[])
    else if s[RootKey].RootV? then ReadWorld(s, s[RootKey].root)
    else None
  }

  // ----- what a commit writes -----

  const EMPTY_TX := Tx(None, 0, 0, 0, 0, None, [], 0)

  function Head(txs: seq<Tx>): Hash {
    OfTx(if txs == [] then EMPTY_TX else txs[|txs| - 1])
  }

  function TxBatch(txs: seq<Tx>): Store {
    if txs == [] then map[]
    else TxBatch(txs[..|txs| - 1])[HashKey(OfTx(txs[|txs| - 1])) := TxV(txs[|txs| - 1])]
  }

  function ReceiptBatch(receipts: seq<Receipt>): Store {
    if receipts == [] then map[]
    else
      var last := receipts[|receipts| - 1];
      ReceiptBatch(receipts[..|receipts| - 1])[ReceiptKey(last.txHash) := ReceiptV(last)]
  }

  /** The fixed order of WriteAheadState.Commit: trie, root, head, transactions, receipts. */
  function CommitWrites(w: World, txs: seq<Tx>, receipts: seq<Receipt>): (writes: seq<Write>)
    ensures |writes| == 6
  {
    [Flush(Leaves(w)),
     Batch(RootNode(w)),
     Put(RootKey, RootV(OfRoot(w))),
     Put(HeadKey, HeadV(Head(txs))),
     Batch(TxBatch(txs)),
     Batch(ReceiptBatch(receipts))]
  }

  /** The number of a commit's writes after which the stored root is the new one. */
  const ROOT_WRITTEN: nat := 3

  // ----- invariants of every store a run or a crash can leave -----

  /** Nodes are stored under the hash of their content, and never without their children. */
  ghost predicate ContentAddressed(s: Store) {
    forall h: Hash | HashKey(h) in s ::
      match h
      case OfTx(tx) => s[HashKey(h)] == TxV(tx)
      case OfBlock(_) => s[HashKey(h)].BlockV?
      case OfAccount(account) => s[HashKey(h)] == AccountV(account)
      case OfRoot(w) =>
        && s[HashKey(h)] == NodeV(Children(w))
        && forall a | a in w :: HashKey(OfAccount(w[a])) in s
      case ZeroHash => false
      case OfLabel(_) => false
  }

  ghost predicate HasRoot(s: Store, w: World) {
    w == map[] || HashKey(OfRoot(w)) in s
  }

  /** The stored root names a complete trie. */
  ghost predicate RootReadable(s: Store) {
    RootKey in s ==>
      && s[RootKey].RootV? && s[RootKey].root.OfRoot?
      && HasRoot(s, s[RootKey].root.world)
      && Canonical(s[RootKey].root.world)
  }

  /** The world InitState recovers. */
  ghost function Recovered(s: Store): World {
    if RootKey in s && s[RootKey].RootV? && s[RootKey].root.OfRoot? then s[RootKey].root.world else map[]
  }

  /** A stored receipt has its transaction beside it; a stored transaction is in the root's history. */
  ghost predicate Indexed(s: Store, past: seq<Tx>) {
    && (forall t: Tx | HashKey(OfTx(t)) in s :: t in past)
    && (forall h: Hash | ReceiptKey(h) in s ::
          h.OfTx? && HashKey(h) in s && s[ReceiptKey(h)].ReceiptV? && s[ReceiptKey(h)].receipt.txHash == h)
  }

  /** An error record is kept under the hash of the transaction it is about. */
  ghost predicate ErrorsNamed(s: Store) {
    forall h: Hash | ErrorKey(h) in s :: s[ErrorKey(h)].ErrorV? && h == OfTx(s[ErrorKey(h)].failedTx)
  }

  /** `past` is the sequence of successful transactions whose effects are in the stored root. */
  ghost predicate StoreInv(s: Store, past: seq<Tx>) {
    && ContentAddressed(s)
    && RootReadable(s)
    && Indexed(s, past)
    && ErrorsNamed(s)
  }

  /** A complete trie reads back as the world it was built from. */
  lemma TrieRoundTrip(s: Store, w: World)
    requires ContentAddressed(s) && HasRoot(s, w)
    ensures ReadWorld(s, OfRoot(w)) == Some(w)
  {
    if w != map[] {
      var children := s[HashKey(OfRoot(w))].children;
      assert children == Children(w);
      forall a | a in children ensures HashKey(children[a]) in s && s[HashKey(children[a])] == AccountV(w[a]) {
        assert children[a] == OfAccount(w[a]);
      }
      assert (map a | a in children :: s[HashKey(children[a])].account) == w;
    }
  }

  /** Whatever a run or a crash leaves, InitState opens it, at the recorded history's world. */
  lemma InitStateSucceeds(s: Store, past: seq<Tx>)
    requires StoreInv(s, past)
    ensures InitState(s) == Some(Recovered(s))
  {
    if RootKey in s {
      TrieRoundTrip(s, s[RootKey].root.world);
    }
  }

  // ----- one write at a time -----

  /** Entries no invariant looks at: blocks, error records and the head. */
  ghost predicate Neutral(entries: Store) {
    forall k | k in entries ::
      match k
      case BlockKey(_) => true
      case ErrorKey(h) => entries[k].ErrorV? && h == OfTx(entries[k].failedTx)
      case HeadKey => true
      case HashKey(h) => h.OfBlock? && entries[k].BlockV?
      case RootKey => false
      case ReceiptKey(_) => false
  }

  /** `s'` keeps every trie node of `s`. */
  ghost predicate KeepsNodes(s: Store, s': Store) {
    forall h: Hash | HashKey(h) in s && (h.OfAccount? || h.OfRoot?) :: HashKey(h) in s' && s'[HashKey(h)] == s[HashKey(h)]
  }

  lemma NeutralWrite(s: Store, past: seq<Tx>, entries: Store)
    requires StoreInv(s, past) && Neutral(entries)
    ensures StoreInv(s + entries, past) && Recovered(s + entries) == Recovered(s) && KeepsNodes(s, s + entries)
  {
    var s' := s + entries;
    forall h: Hash | HashKey(h) in s' && !h.OfBlock? ensures HashKey(h) in s && s'[HashKey(h)] == s[HashKey(h)] {
    }
    assert ContentAddressed(s');
  }

  lemma LeafWrite(s: Store, past: seq<Tx>, w: World, entries: Store)
    requires StoreInv(s, past)
    requires forall k | k in entries :: k in Leaves(w) && entries[k] == Leaves(w)[k]
    ensures StoreInv(s + entries, past) && Recovered(s + entries) == Recovered(s) && KeepsNodes(s, s + entries)
  {
    var s' := s + entries;
    forall k | k in entries ensures k.HashKey? && k.hash.OfAccount? && entries[k] == AccountV(k.hash.account) {
    }
    assert ContentAddressed(s');
  }

  lemma RootNodeWrite(s: Store, past: seq<Tx>, w: World)
    requires StoreInv(s, past)
    requires forall a | a in w :: HashKey(OfAccount(w[a])) in s
    ensures
      var s' := s + RootNode(w);
      StoreInv(s', past) && Recovered(s') == Recovered(s) && KeepsNodes(s, s') && HasRoot(s', w)
  {
    assert ContentAddressed(s + RootNode(w));
  }

  lemma RootWrite(s: Store, past: seq<Tx>, past': seq<Tx>, w: World)
    requires StoreInv(s, past) && HasRoot(s, w) && Canonical(w)
    requires forall t | t in past :: t in past'
    ensures
      var s' := s[RootKey := RootV(OfRoot(w))];
      StoreInv(s', past') && Recovered(s') == w && KeepsNodes(s, s')
  {
    assert ContentAddressed(s[RootKey := RootV(OfRoot(w))]);
  }

  lemma {:induction false} TxBatchHolds(txs: seq<Tx>)
    ensures forall k :: k in TxBatch(txs) <==> k.HashKey? && k.hash.OfTx? && k.hash.tx in txs
    ensures forall k | k in TxBatch(txs) :: TxBatch(txs)[k] == TxV(k.hash.tx)
  {
    if txs != [] {
      var n := |txs| - 1;
      TxBatchHolds(txs[..n]);
      assert txs == txs[..n] + [txs[n]];
    }
  }

  ghost predicate ReceiptFor(receipts: seq<Receipt>, h: Hash) {
    exists r :: r in receipts && r.txHash == h
  }

  lemma {:induction false} ReceiptBatchHolds(receipts: seq<Receipt>)
    ensures forall k :: k in ReceiptBatch(receipts) <==> k.ReceiptKey? && ReceiptFor(receipts, k.hash)
    ensures forall k | k in ReceiptBatch(receipts) ::
              ReceiptBatch(receipts)[k].ReceiptV? && ReceiptBatch(receipts)[k].receipt.txHash == k.hash
  {
    if receipts != [] {
      var n := |receipts| - 1;
      var last := receipts[n];
      ReceiptBatchHolds(receipts[..n]);
      assert receipts == receipts[..n] + [last];
      forall h: Hash ensures ReceiptFor(receipts, h) <==> ReceiptFor(receipts[..n], h) || last.txHash == h {
        if last.txHash == h {
          assert last in receipts;
        }
      }
    }
  }

  /** The last receipt of a transaction, if it has one. */
  function LastReceipt(receipts: seq<Receipt>, h: Hash): Option<Receipt> {
    if receipts == [] then None
    else
      var last := receipts[|receipts| - 1];
      if last.txHash == h then Some(last) else LastReceipt(receipts[..|receipts| - 1], h)
  }

  function ValueAt(s: Store, k: Key): Option<Value> {
    if k in s then Some(s[k]) else None
  }

  function AsValue(receipt: Option<Receipt>): Option<Value> {
    if receipt.Some? then Some(ReceiptV(receipt.value)) else None
  }

  lemma {:induction false} ReceiptBatchIs(receipts: seq<Receipt>, h: Hash)
    ensures ValueAt(ReceiptBatch(receipts), ReceiptKey(h)) == AsValue(LastReceipt(receipts, h))
  {
    if receipts != [] {
      ReceiptBatchIs(receipts[..|receipts| - 1], h);
    }
  }

  /** Receipts of different transactions: none takes another's place. */
  ghost predicate Distinct(receipts: seq<Receipt>) {
    forall i, j | 0 <= i < j < |receipts| :: receipts[i].txHash != receipts[j].txHash
  }

  lemma {:induction false} LastOfDistinct(receipts: seq<Receipt>, i: nat)
    requires Distinct(receipts) && i < |receipts|
    ensures LastReceipt(receipts, receipts[i].txHash) == Some(receipts[i])
  {
    var n := |receipts| - 1;
    if i < n {
      assert receipts[i].txHash != receipts[n].txHash;
      LastOfDistinct(receipts[..n], i);
    }
  }

  /** The batch loses nothing and changes nothing: under its own hash lies each receipt itself. */
  lemma BatchKeepsEveryReceipt(receipts: seq<Receipt>)
    requires Distinct(receipts)
    ensures forall r | r in receipts ::
              ReceiptKey(r.txHash) in ReceiptBatch(receipts) && ReceiptBatch(receipts)[ReceiptKey(r.txHash)] == ReceiptV(r)
    ensures forall k | k in ReceiptBatch(receipts) :: exists r :: r in receipts && k == ReceiptKey(r.txHash)
  {
    forall r | r in receipts
      ensures ReceiptKey(r.txHash) in ReceiptBatch(receipts) && ReceiptBatch(receipts)[ReceiptKey(r.txHash)] == ReceiptV(r)
    {
      var i :| 0 <= i < |receipts| && receipts[i] == r;
      LastOfDistinct(receipts, i);
      ReceiptBatchIs(receipts, r.txHash);
    }
    ReceiptBatchHolds(receipts);
    forall k | k in ReceiptBatch(receipts) ensures exists r :: r in receipts && k == ReceiptKey(r.txHash) {
      var r :| r in receipts && r.txHash == k.hash;
      assert k == ReceiptKey(r.txHash);
    }
  }

  lemma TxWrite(s: Store, past: seq<Tx>, txs: seq<Tx>)
    requires StoreInv(s, past) && forall t | t in txs :: t in past
    ensures
      var s' := s + TxBatch(txs);
      StoreInv(s', past) && Recovered(s') == Recovered(s) && KeepsNodes(s, s')
  {
    TxBatchHolds(txs);
    assert ContentAddressed(s + TxBatch(txs));
  }

  lemma ReceiptWrite(s: Store, past: seq<Tx>, txs: seq<Tx>, receipts: seq<Receipt>)
    requires StoreInv(s, past) && |receipts| == |txs|
    requires forall k :: 0 <= k < |txs| ==> receipts[k].txHash == OfTx(txs[k]) && HashKey(OfTx(txs[k])) in s
    ensures
      var s' := s + ReceiptBatch(receipts);
      StoreInv(s', past) && Recovered(s') == Recovered(s) && KeepsNodes(s, s')
  {
    ReceiptBatchHolds(receipts);
    assert ContentAddressed(s + ReceiptBatch(receipts));
  }

  // ----- sequences of writes -----

  lemma {:induction false} ReplayConcat(s: Store, a: seq<Write>, b: seq<Write>)
    ensures Replay(s, a + b) == Replay(Replay(s, a), b)
  {
    if b == [] {
      assert a + b == a;
    } else {
      assert (a + b)[..|a + b| - 1] == a + b[..|b| - 1];
      ReplayConcat(s, a, b[..|b| - 1]);
    }
  }

  lemma CrashedInFirst(s: Store, a: seq<Write>, b: seq<Write>, cut: Cut)
    requires cut.after < |a|
    ensures Crashed(s, a + b, cut) == Crashed(s, a, cut)
  {
    assert (a + b)[..cut.after] == a[..cut.after];
    assert (a + b)[cut.after] == a[cut.after];
  }

  lemma CrashedInSecond(s: Store, a: seq<Write>, b: seq<Write>, k: nat, landed: set<Key>)
    requires k < |b|
    ensures Crashed(s, a + b, Cut(|a| + k, landed)) == Crashed(Replay(s, a), b, Cut(k, landed))
  {
    assert (a + b)[..|a| + k] == a + b[..k];
    assert (a + b)[|a| + k] == b[k];
    ReplayConcat(s, a, b[..k]);
  }

  lemma CrashedConcat(s: Store, a: seq<Write>, b: seq<Write>, cut: Cut)
    ensures
      Crashed(s, a + b, cut)
      == if cut.after < |a| then Crashed(s, a, cut) else Crashed(Replay(s, a), b, Cut(cut.after - |a|, cut.landed))
  {
    if cut.after < |a| {
      CrashedInFirst(s, a, b, cut);
    } else if cut.after < |a + b| {
      CrashedInSecond(s, a, b, cut.after - |a|, cut.landed);
      assert cut == Cut(|a| + (cut.after - |a|), cut.landed);
    } else {
      ReplayConcat(s, a, b);
    }
  }

  ghost predicate AllNeutral(writes: seq<Write>) {
    forall i :: 0 <= i < |writes| ==> writes[i].Put? && Neutral(Entries(writes[i]))
  }

  lemma {:induction false} NeutralReplay(s: Store, past: seq<Tx>, writes: seq<Write>)
    requires StoreInv(s, past) && AllNeutral(writes)
    ensures
      var s' := Replay(s, writes);
      StoreInv(s', past) && Recovered(s') == Recovered(s) && KeepsNodes(s, s')
  {
    if writes != [] {
      var n := |writes| - 1;
      NeutralReplay(s, past, writes[..n]);
      NeutralWrite(Replay(s, writes[..n]), past, Entries(writes[n]));
    }
  }

  /** What a commit may assume of a write-ahead state. */
  ghost predicate Committable(w: World, txs: seq<Tx>, receipts: seq<Receipt>) {
    && Canonical(w)
    && |receipts| == |txs|
    && forall k :: 0 <= k < |txs| ==> receipts[k].txHash == OfTx(txs[k])
  }

  ghost function PastAfter(past: seq<Tx>, txs: seq<Tx>, writesDone: nat): seq<Tx> {
    if writesDone < ROOT_WRITTEN then past else past + txs
  }

  ghost function WorldAfter(s: Store, w: World, writesDone: nat): World {
    if writesDone < ROOT_WRITTEN then Recovered(s) else w
  }

  /** `s'` is what `k` of a commit's writes make of `s`, as far as anyone can tell. */
  ghost predicate Staged(s: Store, s': Store, past: seq<Tx>, w: World, txs: seq<Tx>, k: nat) {
    && StoreInv(s', PastAfter(past, txs, k))
    && Recovered(s') == WorldAfter(s, w, k)
    && KeepsNodes(s, s')
    && (k >= 1 ==> forall a | a in w :: HashKey(OfAccount(w[a])) in s')
    && (k >= 2 ==> HasRoot(s', w))
    && (k >= 5 ==> forall t | t in txs :: HashKey(OfTx(t)) in s')
  }

  lemma LeavesStage(s: Store, before: Store, past: seq<Tx>, w: World, txs: seq<Tx>)
    requires Staged(s, before, past, w, txs, 0)
    ensures Staged(s, before + Leaves(w), past, w, txs, 1)
  {
    LeafWrite(before, past, w, Leaves(w));
    forall a | a in w ensures HashKey(OfAccount(w[a])) in Leaves(w) {
      assert w[a] in w.Values;
    }
  }

  lemma RootNodeStage(s: Store, before: Store, past: seq<Tx>, w: World, txs: seq<Tx>)
    requires Staged(s, before, past, w, txs, 1)
    ensures Staged(s, before + RootNode(w), past, w, txs, 2)
  {
    RootNodeWrite(before, past, w);
  }

  lemma RootStage(s: Store, before: Store, past: seq<Tx>, w: World, txs: seq<Tx>)
    requires Staged(s, before, past, w, txs, 2) && Canonical(w)
    ensures Staged(s, before + map[RootKey := RootV(OfRoot(w))], past, w, txs, 3)
  {
    RootWrite(before, past, past + txs, w);
    assert before + map[RootKey := RootV(OfRoot(w))] == before[RootKey := RootV(OfRoot(w))];
  }

  lemma HeadStage(s: Store, before: Store, past: seq<Tx>, w: World, txs: seq<Tx>)
    requires Staged(s, before, past, w, txs, 3)
    ensures Staged(s, before + map[HeadKey := HeadV(Head(txs))], past, w, txs, 4)
  {
    NeutralWrite(before, past + txs, map[HeadKey := HeadV(Head(txs))]);
  }

  lemma TxStage(s: Store, before: Store, past: seq<Tx>, w: World, txs: seq<Tx>)
    requires Staged(s, before, past, w, txs, 4)
    ensures Staged(s, before + TxBatch(txs), past, w, txs, 5)
  {
    TxWrite(before, past + txs, txs);
    TxBatchHolds(txs);
  }

  lemma ReceiptStage(s: Store, before: Store, past: seq<Tx>, w: World, txs: seq<Tx>, receipts: seq<Receipt>)
    requires Staged(s, before, past, w, txs, 5) && Committable(w, txs, receipts)
    ensures Staged(s, before + ReceiptBatch(receipts), past, w, txs, 6)
  {
    ReceiptWrite(before, past + txs, txs, receipts);
    ReceiptBatchHolds(receipts);
  }

  /** After any number of a commit's writes the store is sound, with the old world or the new. */
  lemma CommitStages(s: Store, past: seq<Tx>, w: World, txs: seq<Tx>, receipts: seq<Receipt>)
    returns (s1: Store, s2: Store, s3: Store, s4: Store, s5: Store, s6: Store)
    requires StoreInv(s, past) && Committable(w, txs, receipts)
    ensures Staged(s, s1, past, w, txs, 1) && s1 == s + Leaves(w)
    ensures Staged(s, s2, past, w, txs, 2) && s2 == s1 + RootNode(w)
    ensures Staged(s, s3, past, w, txs, 3) && s3 == s2 + map[RootKey := RootV(OfRoot(w))]
    ensures Staged(s, s4, past, w, txs, 4) && s4 == s3 + map[HeadKey := HeadV(Head(txs))]
    ensures Staged(s, s5, past, w, txs, 5) && s5 == s4 + TxBatch(txs)
    ensures Staged(s, s6, past, w, txs, 6) && s6 == s5 + ReceiptBatch(receipts)
  {
    s1 := s + Leaves(w);
    LeavesStage(s, s, past, w, txs);
    s2 := s1 + RootNode(w);
    RootNodeStage(s, s1, past, w, txs);
    s3 := s2 + map[RootKey := RootV(OfRoot(w))];
    RootStage(s, s2, past, w, txs);
    s4 := s3 + map[HeadKey := HeadV(Head(txs))];
    HeadStage(s, s3, past, w, txs);
    s5 := s4 + TxBatch(txs);
    TxStage(s, s4, past, w, txs);
    s6 := s5 + ReceiptBatch(receipts);
    ReceiptStage(s, s5, past, w, txs, receipts);
  }

  lemma ReplayStep(s: Store, writes: seq<Write>, k: nat)
    requires k < |writes|
    ensures Replay(s, writes[..k + 1]) == Replay(s, writes[..k]) + Entries(writes[k])
  {
    assert writes[..k + 1][..k] == writes[..k];
  }

  /** Replay, counting the writes instead of slicing them off. */
  function Steps(s: Store, writes: seq<Write>, k: nat): Store
    requires k <= |writes|
  {
    if k == 0 then s else Steps(s, writes, k - 1) + Entries(writes[k - 1])
  }

  lemma {:induction false} StepsReplay(s: Store, writes: seq<Write>, k: nat)
    requires k <= |writes|
    ensures Steps(s, writes, k) == Replay(s, writes[..k])
  {
    if k > 0 {
      StepsReplay(s, writes, k - 1);
      ReplayStep(s, writes, k - 1);
    }
  }

  lemma CommitSteps(s: Store, w: World, txs: seq<Tx>, receipts: seq<Receipt>)
    ensures
      var writes := CommitWrites(w, txs, receipts);
      var s1 := s + Leaves(w);
      var s2 := s1 + RootNode(w);
      var s3 := s2 + map[RootKey := RootV(OfRoot(w))];
      var s4 := s3 + map[HeadKey := HeadV(Head(txs))];
      var s5 := s4 + TxBatch(txs);
      && Steps(s, writes, 0) == s
      && Steps(s, writes, 1) == s1
      && Steps(s, writes, 2) == s2
      && Steps(s, writes, 3) == s3
      && Steps(s, writes, 4) == s4
      && Steps(s, writes, 5) == s5
      && Steps(s, writes, 6) == s5 + ReceiptBatch(receipts)
  {
  }

  lemma CommitReplays(s: Store, w: World, txs: seq<Tx>, receipts: seq<Receipt>)
    ensures
      var writes := CommitWrites(w, txs, receipts);
      var s1 := s + Leaves(w);
      var s2 := s1 + RootNode(w);
      var s3 := s2 + map[RootKey := RootV(OfRoot(w))];
      var s4 := s3 + map[HeadKey := HeadV(Head(txs))];
      var s5 := s4 + TxBatch(txs);
      && Replay(s, writes[..0]) == s
      && Replay(s, writes[..1]) == s1
      && Replay(s, writes[..2]) == s2
      && Replay(s, writes[..3]) == s3
      && Replay(s, writes[..4]) == s4
      && Replay(s, writes[..5]) == s5
      && Replay(s, writes) == s5 + ReceiptBatch(receipts)
  {
    var writes := CommitWrites(w, txs, receipts);
    CommitSteps(s, w, txs, receipts);
    StepsReplay(s, writes, 0);
    StepsReplay(s, writes, 1);
    StepsReplay(s, writes, 2);
    StepsReplay(s, writes, 3);
    StepsReplay(s, writes, 4);
    StepsReplay(s, writes, 5);
    StepsReplay(s, writes, 6);
    assert writes[..6] == writes;
  }

  /** Only the trie flush can land in part. */
  lemma CommitCrashPoints(s: Store, w: World, txs: seq<Tx>, receipts: seq<Receipt>, cut: Cut)
    ensures
      var writes := CommitWrites(w, txs, receipts);
      var s' := Crashed(s, writes, cut);
      if cut.after == 0 then s' == s + Landed(writes[0], cut.landed)
      else if cut.after < 6 then s' == Replay(s, writes[..cut.after])
      else s' == Replay(s, writes)
  {
    var writes := CommitWrites(w, txs, receipts);
    assert writes[..0] == [];
    if 0 < cut.after < 6 {
      var stage := Replay(s, writes[..cut.after]);
      assert Landed(writes[cut.after], cut.landed) == map[];
      assert stage + map[] == stage;
    }
  }

  /** What survives a commit stopped after `k` complete writes. */
  ghost predicate Survives(s: Store, s': Store, past: seq<Tx>, w: World, txs: seq<Tx>, k: nat) {
    && StoreInv(s', PastAfter(past, txs, k))
    && Recovered(s') == WorldAfter(s, w, k)
    && KeepsNodes(s, s')
  }

  /** Where a crash leaves a commit: at one of its stages, or inside the trie flush. */
  lemma CommitCrash(s: Store, past: seq<Tx>, w: World, txs: seq<Tx>, receipts: seq<Receipt>, cut: Cut)
    requires StoreInv(s, past) && Committable(w, txs, receipts)
    ensures Survives(s, Crashed(s, CommitWrites(w, txs, receipts), cut), past, w, txs, cut.after)
  {
    CommitCrashPoints(s, w, txs, receipts, cut);
    var s' := Crashed(s, CommitWrites(w, txs, receipts), cut);
    if cut.after == 0 {
      LeafWrite(s, past, w, Landed(CommitWrites(w, txs, receipts)[0], cut.landed));
    } else {
      CommitReplays(s, w, txs, receipts);
      CommitSurvives(s, s', past, w, txs, receipts, cut.after);
    }
  }

  lemma CommitSurvives(s: Store, s': Store, past: seq<Tx>, w: World, txs: seq<Tx>, receipts: seq<Receipt>, k: nat)
    requires StoreInv(s, past) && Committable(w, txs, receipts) && k >= 1
    requires
      var s1 := s + Leaves(w);
      var s2 := s1 + RootNode(w);
      var s3 := s2 + map[RootKey := RootV(OfRoot(w))];
      var s4 := s3 + map[HeadKey := HeadV(Head(txs))];
      var s5 := s4 + TxBatch(txs);
      s' == if k == 1 then s1 else if k == 2 then s2 else if k == 3 then s3 else if k == 4 then s4
            else if k == 5 then s5 else s5 + ReceiptBatch(receipts)
    ensures Survives(s, s', past, w, txs, k)
  {
    var s1, s2, s3, s4, s5, s6 := CommitStages(s, past, w, txs, receipts);
  }

  lemma NeutralCrash(s: Store, past: seq<Tx>, writes: seq<Write>, cut: Cut)
    requires StoreInv(s, past) && AllNeutral(writes)
    ensures
      var s' := Crashed(s, writes, cut);
      StoreInv(s', past) && Recovered(s') == Recovered(s) && KeepsNodes(s, s')
  {
    if cut.after < |writes| {
      NeutralReplay(s, past, writes[..cut.after]);
      assert Replay(s, writes[..cut.after]) + map[] == Replay(s, writes[..cut.after]);
    } else {
      NeutralReplay(s, past, writes);
    }
  }

  lemma KeepsNodesTransitive(s0: Store, s1: Store, s2: Store)
    requires KeepsNodes(s0, s1) && KeepsNodes(s1, s2)
    ensures KeepsNodes(s0, s2)
  {
  }

  /** An operation's writes are neutral ones followed by a commit's; where can a crash leave them? */
  lemma OperationCrash(s: Store, past: seq<Tx>, pre: seq<Write>, w: World, txs: seq<Tx>, receipts: seq<Receipt>, cut: Cut)
    requires StoreInv(s, past) && AllNeutral(pre) && Committable(w, txs, receipts)
    ensures
      Survives(s, Crashed(s, pre + CommitWrites(w, txs, receipts), cut), past, w, txs,
               if cut.after < |pre| then 0 else cut.after - |pre|)
  {
    var commit := CommitWrites(w, txs, receipts);
    CrashedConcat(s, pre, commit, cut);
    if cut.after < |pre| {
      NeutralCrash(s, past, pre, cut);
    } else {
      NeutralReplay(s, past, pre);
      var before := Replay(s, pre);
      var rest := Cut(cut.after - |pre|, cut.landed);
      CommitCrash(before, past, w, txs, receipts, rest);
      SurvivesAfter(s, before, Crashed(before, commit, rest), past, w, txs, rest.after);
    }
  }

  lemma SurvivesAfter(s: Store, before: Store, s': Store, past: seq<Tx>, w: World, txs: seq<Tx>, k: nat)
    requires Recovered(before) == Recovered(s) && KeepsNodes(s, before) && Survives(before, s', past, w, txs, k)
    ensures Survives(s, s', past, w, txs, k)
  {
    KeepsNodesTransitive(s, before, s');
  }
}
