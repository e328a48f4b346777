/** CreateAccounts: the genesis accounts, entered in whatever order the account map is iterated. */
module Genesis {
  import opened Types

  /** One entry of the account map. */
  datatype Spec = Spec(balance: nat, code: seq<nat>, storage: map<nat, nat>)

  /** One step of the iteration: an entry, its storage in iteration order. */
  datatype Alloc = Alloc(address: Address, balance: nat, code: seq<nat>, storage: seq<(nat, nat)>)

  // The loop works on accounts in memory; one that stays empty is dropped only when the world is finalised.

  function AddBalance(w: World, a: Address, amount: nat): World {
    w[a := Get(w, a).(balance := Balance(w, a) + amount)]
  }

  function SetCode(w: World, a: Address, code: seq<nat>): World {
    w[a := Get(w, a).(code := code)]
  }

  /** A zero value deletes the slot. */
  function SetSlot(storage: map<nat, nat>, key: nat, value: nat): map<nat, nat> {
    if value == 0 then storage - {key} else storage[key := value]
  }

  function SetState(w: World, a: Address, key: nat, value: nat): World {
    w[a := Get(w, a).(storage := SetSlot(Get(w, a).storage, key, value))]
  }

  function SetStates(w: World, a: Address, slots: seq<(nat, nat)>): World {
    if slots == [] then w
    else
      var last := slots[|slots| - 1];
      SetState(SetStates(w, a, slots[..|slots| - 1]), a, last.0, last.1)
  }

  function Create(w: World, alloc: Alloc): World {
    SetStates(SetCode(AddBalance(w, alloc.address, alloc.balance), alloc.address, alloc.code), alloc.address, alloc.storage)
  }

  function CreateStep(committed: World, before: World, alloc: Alloc): World {
    if alloc.address in committed then before else Create(before, alloc)
  }

  /** The loop: existence is tested in the committed state, accounts are created in the write-ahead one. */
  function CreateAll(committed: World, w: World, allocs: seq<Alloc>): World {
    if allocs == [] then w
    else
      var alloc := allocs[|allocs| - 1];
      var before := CreateAll(committed, w, allocs[..|allocs| - 1]);
      CreateStep(committed, before, alloc)
  }

  /** Commit(true) starts by dropping the empty accounts. */
  function Finalise(w: World): (w': World)
    ensures Canonical(w')
  {
    map a | a in w && !w[a].Empty() :: w[a]
  }

  /** CreateAccounts up to what its commit persists. */
  function Enter(committed: World, w: World, allocs: seq<Alloc>): World {
    Finalise(CreateAll(committed, w, allocs))
  }

  // ----- what the loop computes, with no order in it -----

  function Overlay(base: map<nat, nat>, extra: map<nat, nat>): map<nat, nat> {
    map k | k in base.Keys + extra.Keys && (k in extra ==> extra[k] != 0) :: if k in extra then extra[k] else base[k]
  }

  function Built(account: Account, spec: Spec): Account {
    Account(account.nonce, account.balance + spec.balance, spec.code, Overlay(account.storage, spec.storage))
  }

  function Final(committed: World, w: World, accounts: map<Address, Spec>, a: Address): Account {
    if a in accounts && a !in committed then Built(Get(w, a), accounts[a]) else Get(w, a)
  }

  function GenesisWorld(committed: World, w: World, accounts: map<Address, Spec>): World {
    map a | a in w.Keys + accounts.Keys && !Final(committed, w, accounts, a).Empty() :: Final(committed, w, accounts, a)
  }

  /** `slots` lists `storage` in some order. */
  ghost predicate ListsStorage(slots: seq<(nat, nat)>, storage: map<nat, nat>) {
    && (forall i, j | 0 <= i < j < |slots| :: slots[i].0 != slots[j].0)
    && (forall i | 0 <= i < |slots| :: slots[i].0 in storage && storage[slots[i].0] == slots[i].1)
    && (forall k | k in storage :: exists i :: 0 <= i < |slots| && slots[i].0 == k)
  }

  ghost predicate IsEntry(alloc: Alloc, accounts: map<Address, Spec>) {
    && alloc.address in accounts
    && alloc.balance == accounts[alloc.address].balance
    && alloc.code == accounts[alloc.address].code
    && ListsStorage(alloc.storage, accounts[alloc.address].storage)
  }

  /** `allocs` lists `accounts` in some order, each storage in some order. */
  ghost predicate Lists(allocs: seq<Alloc>, accounts: map<Address, Spec>) {
    && (forall i, j | 0 <= i < j < |allocs| :: allocs[i].address != allocs[j].address)
    && (forall i | 0 <= i < |allocs| :: IsEntry(allocs[i], accounts))
    && (forall a | a in accounts :: exists i :: 0 <= i < |allocs| && allocs[i].address == a)
  }

  lemma SameAccounts(w: World, w': World)
    requires Canonical(w) && Canonical(w')
    requires forall a: Address :: Get(w, a) == Get(w', a)
    ensures w == w'
  {
    forall a: Address ensures a in w <==> a in w' {
      assert Get(w, a) == Get(w', a);
    }
    forall a | a in w ensures w[a] == w'[a] {
      assert Get(w, a) == Get(w', a);
    }
  }

  function Slots(storage: map<nat, nat>, slots: seq<(nat, nat)>): map<nat, nat> {
    if slots == [] then storage
    else SetSlot(Slots(storage, slots[..|slots| - 1]), slots[|slots| - 1].0, slots[|slots| - 1].1)
  }

  lemma {:induction false} SlotsAre(storage: map<nat, nat>, slots: seq<(nat, nat)>, k: nat)
    requires forall i, j | 0 <= i < j < |slots| :: slots[i].0 != slots[j].0
    ensures (forall i | 0 <= i < |slots| :: slots[i].0 != k) ==>
              (k in Slots(storage, slots) <==> k in storage) && (k in storage ==> Slots(storage, slots)[k] == storage[k])
    ensures forall i | 0 <= i < |slots| && slots[i].0 == k ::
              if slots[i].1 == 0 then k !in Slots(storage, slots)
              else k in Slots(storage, slots) && Slots(storage, slots)[k] == slots[i].1
  {
    if slots != [] {
      var n := |slots| - 1;
      SlotsAre(storage, slots[..n], k);
      forall i | 0 <= i < n ensures slots[..n][i] == slots[i] {
      }
    }
  }

  lemma SlotsOverlay(storage: map<nat, nat>, slots: seq<(nat, nat)>, extra: map<nat, nat>)
    requires ListsStorage(slots, extra)
    ensures Slots(storage, slots) == Overlay(storage, extra)
  {
    var s, o := Slots(storage, slots), Overlay(storage, extra);
    forall k: nat ensures (k in s <==> k in o) && (k in s && k in o ==> s[k] == o[k]) {
      SlotsAre(storage, slots, k);
      if k in extra {
        var i :| 0 <= i < |slots| && slots[i].0 == k;
      }
    }
  }

  lemma {:induction false} StatesAre(w: World, a: Address, slots: seq<(nat, nat)>)
    ensures forall b: Address | b != a :: Get(SetStates(w, a, slots), b) == Get(w, b)
    ensures Get(SetStates(w, a, slots), a) == Get(w, a).(storage := Slots(Get(w, a).storage, slots))
  {
    if slots != [] {
      StatesAre(w, a, slots[..|slots| - 1]);
    }
  }

  /** What is built for one entry. */
  lemma CreateIs(w: World, alloc: Alloc, spec: Spec)
    requires alloc.balance == spec.balance && alloc.code == spec.code && ListsStorage(alloc.storage, spec.storage)
    ensures forall b: Address | b != alloc.address :: Get(Create(w, alloc), b) == Get(w, b)
    ensures Get(Create(w, alloc), alloc.address) == Built(Get(w, alloc.address), spec)
  {
    var a := alloc.address;
    var coded := SetCode(AddBalance(w, a, alloc.balance), a, alloc.code);
    StatesAre(coded, a, alloc.storage);
    SlotsOverlay(Get(coded, a).storage, alloc.storage, spec.storage);
  }

  ghost predicate Met(allocs: seq<Alloc>, k: nat, a: Address)
    requires k <= |allocs|
  {
    exists i :: 0 <= i < k && allocs[i].address == a
  }

  /** An account as a canonical world shows it. */
  function Shown(account: Account): Account {
    if account.Empty() then NOBODY else account
  }

  lemma StepIs(committed: World, w: World, accounts: map<Address, Spec>, before: World, alloc: Alloc, a: Address)
    requires Get(before, alloc.address) == Get(w, alloc.address) && IsEntry(alloc, accounts)
    ensures
      Get(CreateStep(committed, before, alloc), a)
      == if a == alloc.address then Final(committed, w, accounts, a) else Get(before, a)
  {
    CreateIs(before, alloc, accounts[alloc.address]);
  }

  lemma MetStep(allocs: seq<Alloc>, accounts: map<Address, Spec>, k: nat, a: Address)
    requires Lists(allocs, accounts) && 1 <= k <= |allocs|
    ensures Met(allocs, k, a) <==> Met(allocs, k - 1, a) || allocs[k - 1].address == a
    ensures !Met(allocs, k - 1, allocs[k - 1].address)
  {
  }

  /** After a prefix of the iteration, an entry already met has its final account. */
  lemma {:induction false} CreateAllIs(committed: World, w: World, accounts: map<Address, Spec>, allocs: seq<Alloc>,
                                       k: nat, a: Address)
    requires Lists(allocs, accounts) && k <= |allocs|
    ensures
      Get(CreateAll(committed, w, allocs[..k]), a)
      == if Met(allocs, k, a) then Final(committed, w, accounts, a) else Get(w, a)
  {
    if k == 0 {
      assert allocs[..0] == [];
    } else {
      CreateAllIs(committed, w, accounts, allocs, k - 1, a);
      CreateAllIs(committed, w, accounts, allocs, k - 1, allocs[k - 1].address);
      MetStep(allocs, accounts, k, a);
      NextEntry(committed, w, accounts, allocs, k, a);
    }
  }

  lemma NextEntry(committed: World, w: World, accounts: map<Address, Spec>, allocs: seq<Alloc>, k: nat, a: Address)
    requires Lists(allocs, accounts) && 1 <= k <= |allocs|
    requires
      var b := allocs[k - 1].address;
      Get(CreateAll(committed, w, allocs[..k - 1]), b) == Get(w, b)
    ensures
      Get(CreateAll(committed, w, allocs[..k]), a)
      == if a == allocs[k - 1].address then Final(committed, w, accounts, a)
         else Get(CreateAll(committed, w, allocs[..k - 1]), a)
  {
    CreateAllStep(committed, w, allocs, k);
    StepIs(committed, w, accounts, CreateAll(committed, w, allocs[..k - 1]), allocs[k - 1], a);
  }

  lemma CreateAllStep(committed: World, w: World, allocs: seq<Alloc>, k: nat)
    requires 1 <= k <= |allocs|
    ensures CreateAll(committed, w, allocs[..k]) == CreateStep(committed, CreateAll(committed, w, allocs[..k - 1]), allocs[k - 1])
  {
    assert allocs[..k][..k - 1] == allocs[..k - 1];
  }

  /** Every iteration order of the account map and of every storage map gives the same world. */
  lemma GenesisIsOrderFree(committed: World, w: World, accounts: map<Address, Spec>, allocs: seq<Alloc>)
    requires Lists(allocs, accounts)
    ensures Enter(committed, w, allocs) == GenesisWorld(committed, w, accounts)
    ensures Canonical(GenesisWorld(committed, w, accounts))
  {
    var w', g := Enter(committed, w, allocs), GenesisWorld(committed, w, accounts);
    assert allocs[..|allocs|] == allocs;
    forall a: Address ensures Get(w', a) == Get(g, a) {
      CreateAllIs(committed, w, accounts, allocs, |allocs|, a);
      FinaliseShows(CreateAll(committed, w, allocs), a);
      GenesisWorldAt(committed, w, accounts, a);
      assert Met(allocs, |allocs|, a) <==> a in accounts;
    }
    SameAccounts(w', g);
  }

  lemma FinaliseShows(w: World, a: Address)
    ensures Get(Finalise(w), a) == Shown(Get(w, a))
  {
  }

  lemma GenesisWorldAt(committed: World, w: World, accounts: map<Address, Spec>, a: Address)
    ensures Get(GenesisWorld(committed, w, accounts), a) == Shown(Final(committed, w, accounts, a))
    ensures a !in accounts ==> Final(committed, w, accounts, a) == Get(w, a)
  {
  }

  /** Entering the same accounts again, after they were committed, changes nothing. */
  lemma GenesisIsIdempotent(committed: World, accounts: map<Address, Spec>, again: seq<Alloc>)
    requires Canonical(committed) && Lists(again, accounts)
    ensures
      var w := GenesisWorld(committed, committed, accounts);
      Enter(w, w, again) == w
  {
    var w := GenesisWorld(committed, committed, accounts);
    GenesisIsOrderFree(w, w, accounts, again);
    var w' := GenesisWorld(w, w, accounts);
    forall a: Address ensures Get(w', a) == Get(w, a) {
      GenesisWorldAt(w, w, accounts, a);
      if a in accounts && a !in w {
        assert a !in committed;
        assert Final(committed, committed, accounts, a).Empty();
        assert Final(w, w, accounts, a).Empty();
      }
    }
    SameAccounts(w', w);
  }

  // ----- any entries, however often -----

  lemma {:induction false} SetStatesNonces(w: World, a: Address, slots: seq<(nat, nat)>, b: Address)
    ensures Nonce(SetStates(w, a, slots), b) == Nonce(w, b)
  {
    if slots != [] {
      SetStatesNonces(w, a, slots[..|slots| - 1], b);
    }
  }

  lemma {:induction false} CreateAllNonces(committed: World, w: World, allocs: seq<Alloc>, b: Address)
    ensures Nonce(CreateAll(committed, w, allocs), b) == Nonce(w, b)
  {
    if allocs != [] {
      var alloc := allocs[|allocs| - 1];
      var before := CreateAll(committed, w, allocs[..|allocs| - 1]);
      CreateAllNonces(committed, w, allocs[..|allocs| - 1], b);
      SetStatesNonces(SetCode(AddBalance(before, alloc.address, alloc.balance), alloc.address, alloc.code),
                      alloc.address, alloc.storage, b);
    }
  }

  /** Whatever is entered, however often and in whatever order, no nonce changes and no empty account stays. */
  lemma EnterKeepsNonces(committed: World, w: World, allocs: seq<Alloc>)
    ensures Canonical(Enter(committed, w, allocs))
    ensures forall b: Address :: Nonce(Enter(committed, w, allocs), b) == Nonce(w, b)
  {
    forall b: Address ensures Nonce(Enter(committed, w, allocs), b) == Nonce(w, b) {
      CreateAllNonces(committed, w, allocs, b);
      FinaliseShows(CreateAll(committed, w, allocs), b);
    }
  }

  // ----- two entries for one address -----

  /**
   When two entries for one address, met in either order, leave the same account: they agree on the code
   and on the slots they share, or together they leave it with no nonce, balance or code to keep it.
   */
  ghost predicate Commute(account: Account, x: Spec, y: Spec) {
    || (account.nonce == 0 && account.balance + x.balance + y.balance == 0 && x.code == [] && y.code == [])
    || (x.code == y.code && forall k | k in x.storage && k in y.storage :: x.storage[k] == y.storage[k])
  }

  lemma OverlaysCommuteIff(base: map<nat, nat>, x: map<nat, nat>, y: map<nat, nat>)
    ensures Overlay(Overlay(base, x), y) == Overlay(Overlay(base, y), x) <==> forall k | k in x && k in y :: x[k] == y[k]
  {
    var xy, yx := Overlay(Overlay(base, x), y), Overlay(Overlay(base, y), x);
    if forall k | k in x && k in y :: x[k] == y[k] {
      assert xy.Keys == yx.Keys;
    } else {
      var k :| k in x && k in y && x[k] != y[k];
      assert k in xy <==> y[k] != 0;
      assert k in yx <==> x[k] != 0;
    }
  }

  lemma BuiltCommuteIff(account: Account, x: Spec, y: Spec)
    ensures Shown(Built(Built(account, x), y)) == Shown(Built(Built(account, y), x)) <==> Commute(account, x, y)
  {
    OverlaysCommuteIff(account.storage, x.storage, y.storage);
  }

  /** One entry for an address that is not committed. */
  lemma EnterOne(committed: World, w: World, alloc: Alloc, spec: Spec)
    requires alloc.address !in committed
    requires alloc.balance == spec.balance && alloc.code == spec.code && ListsStorage(alloc.storage, spec.storage)
    ensures
      var w' := CreateStep(committed, w, alloc);
      && (forall b: Address | b != alloc.address :: Get(w', b) == Get(w, b))
      && Get(w', alloc.address) == Built(Get(w, alloc.address), spec)
  {
    CreateIs(w, alloc, spec);
  }

  lemma CreateTwo(committed: World, w: World, x: Alloc, y: Alloc)
    ensures CreateAll(committed, w, [x, y]) == CreateStep(committed, CreateStep(committed, w, x), y)
  {
    assert [x, y][..1] == [x] && [x][..0] == [];
    assert CreateAll(committed, w, [x]) == CreateStep(committed, w, x);
  }

  /**
   Two spellings of one address are two entries. Whatever was entered before them, meeting them in one
   order or the other gives the same world exactly when they commute.
   */
  lemma RepeatedAddressCommutesIff(committed: World, w: World, x: Alloc, y: Alloc, sx: Spec, sy: Spec)
    requires x.address == y.address && x.address !in committed
    requires x.balance == sx.balance && x.code == sx.code && ListsStorage(x.storage, sx.storage)
    requires y.balance == sy.balance && y.code == sy.code && ListsStorage(y.storage, sy.storage)
    ensures Enter(committed, w, [x, y]) == Enter(committed, w, [y, x]) <==> Commute(Get(w, x.address), sx, sy)
  {
    var a := x.address;
    CreateTwo(committed, w, x, y);
    CreateTwo(committed, w, y, x);
    EnterOne(committed, w, x, sx);
    EnterOne(committed, CreateStep(committed, w, x), y, sy);
    EnterOne(committed, w, y, sy);
    EnterOne(committed, CreateStep(committed, w, y), x, sx);
    BuiltCommuteIff(Get(w, a), sx, sy);
    FinalisedAlikeIff(CreateAll(committed, w, [x, y]), CreateAll(committed, w, [y, x]), a);
  }

  lemma FinalisedAlikeIff(w: World, w': World, a: Address)
    requires forall b: Address | b != a :: Get(w, b) == Get(w', b)
    ensures Finalise(w) == Finalise(w') <==> Shown(Get(w, a)) == Shown(Get(w', a))
  {
    FinaliseShows(w, a);
    FinaliseShows(w', a);
    if Shown(Get(w, a)) == Shown(Get(w', a)) {
      forall b: Address ensures Get(Finalise(w), b) == Get(Finalise(w'), b) {
        FinaliseShows(w, b);
        FinaliseShows(w', b);
      }
      SameAccounts(Finalise(w), Finalise(w'));
    }
  }
}
