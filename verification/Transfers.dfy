/**
 Plain value transfers: the concrete ApplyMessage for a message to an address without code, in the
 order of section 6 of the Ethereum Yellow Paper (buy gas, pay intrinsic gas, bump the nonce,
 transfer, refund, pay the beneficiary). Creations and calls into code are refused untouched.
 */
module Transfers {
  import opened Wrappers
  import opened Types
  import opened Evm

  const INTRINSIC_GAS: nat := 21_000
  /** No driver sets Coinbase, so fees go to the zero address. */
  const COINBASE: Address := ZeroAddress

  predicate Plain(w: World, m: Msg) {
    m.to.Some? && m.data == [] && Get(w, m.to.value).code == []
  }

  predicate InTurn(w: World, m: Msg) {
    m.checkNonce ==> m.nonce == Nonce(w, m.from)
  }

  function Credit(w: World, a: Address, amount: nat): World {
    Set(w, a, Get(w, a).(balance := Balance(w, a) + amount))
  }

  function Debit(w: World, a: Address, amount: nat): World
    requires amount <= Balance(w, a)
  {
    Set(w, a, Get(w, a).(balance := Balance(w, a) - amount))
  }

  function BumpNonce(w: World, a: Address): World {
    Set(w, a, Get(w, a).(nonce := Nonce(w, a) + 1))
  }

  /** Move the value, give back the unused gas, pay the fee. */
  function Pay(w: World, from: Address, to: Address, value: nat, refund: nat, fee: nat): World
    requires value <= Balance(w, from)
  {
    Credit(Credit(Credit(Debit(w, from, value), to, value), from, refund), COINBASE, fee)
  }

  function Transfer(w: World, m: Msg, pool: nat): Outcome {
    var refund: nat := if m.gas < INTRINSIC_GAS then 0 else (m.gas - INTRINSIC_GAS) * m.gasPrice;
    Settle(w, m, pool, m.gas * m.gasPrice, refund, INTRINSIC_GAS * m.gasPrice)
  }

  function Settle(w: World, m: Msg, pool: nat, cost: nat, refund: nat, fee: nat): Outcome {
    if !Plain(w, m) then Rejected(w, pool, "not a plain transfer")
    else if !InTurn(w, m) then Rejected(w, pool, "nonce")
    else if Balance(w, m.from) < cost then Rejected(w, pool, "insufficient balance to pay for gas")
    else if pool < m.gas then Rejected(w, pool, "gas limit reached")
    else
      var bought := Debit(w, m.from, cost);
      if m.gas < INTRINSIC_GAS then Rejected(bought, pool - m.gas, "out of gas")
      else
        var bumped := BumpNonce(bought, m.from);
        if Balance(bumped, m.from) < m.value then Rejected(bumped, pool - m.gas, "insufficient balance for transfer")
        else
          Applied(Pay(bumped, m.from, m.to.value, m.value, refund, fee), pool - INTRINSIC_GAS, INTRINSIC_GAS, false, [])
  }

  /** The sender can pay for the message's gas, and its nonce is in turn: the pool comes next. */
  predicate Payable(w: World, m: Msg) {
    Plain(w, m) && InTurn(w, m) && m.gas * m.gasPrice <= Balance(w, m.from)
  }

  const TRANSFERS := Evm((w: World, m: Msg, pool: nat) => Transfer(w, m, pool), (w: World, m: Msg) => Payable(w, m))

  /** Setting one account's nonce no lower leaves every address's nonce no lower. */
  lemma SetKeepsNonces(w: World, a: Address, account: Account)
    requires Nonce(w, a) <= account.nonce
    ensures NonceNeverFalls(w, Set(w, a, account))
    ensures Nonce(Set(w, a, account), a) == account.nonce
    ensures Canonical(w) ==> Canonical(Set(w, a, account))
  {
  }

  /** The worlds differ only in ways that no nonce check can see. */
  ghost predicate SameNonces(w: World, w': World) {
    && (forall a: Address :: Nonce(w, a) == Nonce(w', a))
    && (Canonical(w) ==> Canonical(w'))
  }

  lemma CreditKeepsNonces(w: World, a: Address, amount: nat)
    ensures SameNonces(w, Credit(w, a, amount))
  {
  }

  lemma DebitKeepsNonces(w: World, a: Address, amount: nat)
    requires amount <= Balance(w, a)
    ensures SameNonces(w, Debit(w, a, amount))
  {
  }

  lemma SameNoncesTransitive(w0: World, w1: World, w2: World)
    requires SameNonces(w0, w1) && SameNonces(w1, w2)
    ensures SameNonces(w0, w2)
  {
  }

  lemma CreditAfter(w0: World, w: World, a: Address, amount: nat)
    requires SameNonces(w0, w)
    ensures SameNonces(w0, Credit(w, a, amount))
  {
    CreditKeepsNonces(w, a, amount);
    SameNoncesTransitive(w0, w, Credit(w, a, amount));
  }

  /** The payments after the nonce bump leave every nonce where it is. */
  lemma PayKeepsNonces(w: World, from: Address, to: Address, value: nat, refund: nat, fee: nat)
    requires value <= Balance(w, from)
    ensures SameNonces(w, Pay(w, from, to, value, refund, fee))
  {
    var debited := Debit(w, from, value);
    DebitKeepsNonces(w, from, value);
    CreditAfter(w, debited, to, value);
    CreditAfter(w, Credit(debited, to, value), from, refund);
    CreditAfter(w, Credit(Credit(debited, to, value), from, refund), COINBASE, fee);
  }

  lemma BuyAndBump(w: World, from: Address, cost: nat)
    requires cost <= Balance(w, from)
    ensures SameNonces(w, Debit(w, from, cost))
    ensures NonceNeverFalls(w, BumpNonce(Debit(w, from, cost), from))
    ensures Nonce(BumpNonce(Debit(w, from, cost), from), from) == Nonce(w, from) + 1
    ensures Canonical(w) ==> Canonical(BumpNonce(Debit(w, from, cost), from))
  {
    DebitKeepsNonces(w, from, cost);
    var bought := Debit(w, from, cost);
    SetKeepsNonces(bought, from, Get(bought, from).(nonce := Nonce(bought, from) + 1));
  }

  /** The worlds a transfer can end in: untouched, gas bought, nonce bumped, or everything paid. */
  lemma SettleWorlds(w: World, m: Msg, pool: nat, cost: nat, refund: nat, fee: nat)
    ensures
      var o := Settle(w, m, pool, cost, refund, fee);
      && NonceNeverFalls(w, o.world)
      && (Canonical(w) ==> Canonical(o.world))
      && (o.Applied? ==> Nonce(o.world, m.from) == Nonce(w, m.from) + 1)
  {
    if cost <= Balance(w, m.from) {
      BuyAndBump(w, m.from, cost);
      var bumped := BumpNonce(Debit(w, m.from, cost), m.from);
      if m.to.Some? && m.value <= Balance(bumped, m.from) {
        PayKeepsNonces(bumped, m.from, m.to.value, m.value, refund, fee);
      }
    }
  }

  lemma SettleGas(w: World, m: Msg, pool: nat, cost: nat, refund: nat, fee: nat)
    ensures
      var o := Settle(w, m, pool, cost, refund, fee);
      && NonceLaw(w, m, pool, o)
      && RejectLaw(m, pool, o)
      && (!(Plain(w, m) && InTurn(w, m) && cost <= Balance(w, m.from)) ==>
            var early := Settle(w, m, 0, cost, refund, fee);
            early.Rejected? && o == Rejected(w, pool, early.error))
      && (o.Applied? ==> m.gas <= pool && o.gasUsed <= m.gas && o.pool == pool - o.gasUsed)
      && (m.gas <= pool ==> o == AddPool(Settle(w, m, m.gas, cost, refund, fee), pool - m.gas))
  {
  }

  lemma TransferIsSettle(w: World, m: Msg, pool: nat) returns (cost: nat, refund: nat, fee: nat)
    ensures forall g: nat :: TRANSFERS.apply(w, m, g) == Settle(w, m, g, cost, refund, fee)
    ensures cost == m.gas * m.gasPrice && fee == INTRINSIC_GAS * m.gasPrice
    ensures m.gas >= INTRINSIC_GAS ==> refund == (m.gas - INTRINSIC_GAS) * m.gasPrice
  {
    refund := if m.gas < INTRINSIC_GAS then 0 else (m.gas - INTRINSIC_GAS) * m.gasPrice;
    cost, fee := m.gas * m.gasPrice, INTRINSIC_GAS * m.gasPrice;
  }

  lemma TransferLaws(w: World, m: Msg, pool: nat)
    ensures Law(TRANSFERS, w, m, pool)
  {
    var cost, refund, fee := TransferIsSettle(w, m, pool);
    assert TRANSFERS.apply(w, m, pool) == Settle(w, m, pool, cost, refund, fee);
    assert TRANSFERS.apply(w, m, m.gas) == Settle(w, m, m.gas, cost, refund, fee);
    assert TRANSFERS.apply(w, m, 0) == Settle(w, m, 0, cost, refund, fee);
    SettleWorlds(w, m, pool, cost, refund, fee);
    SettleGas(w, m, pool, cost, refund, fee);
  }

  /** The assumptions about ApplyMessage are met by plain transfers, so they are satisfiable. */
  lemma TransfersAreLawful()
    ensures Lawful(TRANSFERS)
  {
    forall w: World, m: Msg, pool: nat ensures Law(TRANSFERS, w, m, pool) {
      TransferLaws(w, m, pool);
    }
  }

  // ----- what a transfer leaves behind -----

  /** The guard a transfer must pass to have any effect at all: from here on gas has been bought. */
  predicate BuysGas(w: World, pool: nat, m: Msg) {
    Payable(w, m) && 0 < m.gas <= pool
  }

  lemma NoGasNoTrace(w: World, m: Msg, pool: nat)
    requires Canonical(w) && !BuysGas(w, pool, m)
    ensures TRANSFERS.apply(w, m, pool).Rejected?
    ensures TRANSFERS.apply(w, m, pool).world == w && TRANSFERS.apply(w, m, pool).pool == pool
  {
    if m.gas == 0 {
      assert m.gas * m.gasPrice == 0;
      assert Debit(w, m.from, 0) == w;
    }
  }

  lemma BoughtGasIsGone(w: World, m: Msg, pool: nat)
    requires BuysGas(w, pool, m)
    ensures TRANSFERS.apply(w, m, pool).pool < pool
    ensures TRANSFERS.apply(w, m, pool).Applied? ==> TRANSFERS.apply(w, m, pool).pool == pool - INTRINSIC_GAS
  {
  }

  // ----- what transfers conserve -----

  /** A quantity that empty accounts do not have, summed over a world. */
  ghost function Sum(w: World, f: Account -> nat): nat {
    if w == map[] then 0 else var a :| a in w; f(w[a]) + Sum(w - {a}, f)
  }

  lemma {:induction false} SumTake(w: World, f: Account -> nat, a: Address)
    requires a in w
    ensures Sum(w, f) == f(w[a]) + Sum(w - {a}, f)
    decreases |w|
  {
    var b :| b in w && Sum(w, f) == f(w[b]) + Sum(w - {b}, f);
    if a != b {
      SumTake(w - {b}, f, a);
      SumTake(w - {a}, f, b);
      assert w - {a} - {b} == w - {b} - {a};
    }
  }

  ghost predicate VanishesOnEmpty(f: Account -> nat) {
    forall account: Account :: account.Empty() ==> f(account) == 0
  }

  lemma SumSet(w: World, f: Account -> nat, a: Address, account: Account)
    requires VanishesOnEmpty(f)
    ensures Sum(Set(w, a, account), f) + f(Get(w, a)) == Sum(w, f) + f(account)
  {
    if a in w {
      SumTake(w, f, a);
    } else {
      assert w - {a} == w;
    }
    if !account.Empty() {
      SumTake(w[a := account], f, a);
      assert w[a := account] - {a} == w - {a};
    }
  }

  const BALANCE: Account -> nat := (account: Account) => account.balance
  const NONCE: Account -> nat := (account: Account) => account.nonce

  ghost function TotalBalance(w: World): nat {
    Sum(w, BALANCE)
  }

  ghost function TotalNonce(w: World): nat {
    Sum(w, NONCE)
  }

  lemma CreditTotals(w: World, a: Address, amount: nat)
    ensures TotalBalance(Credit(w, a, amount)) == TotalBalance(w) + amount
    ensures TotalNonce(Credit(w, a, amount)) == TotalNonce(w)
  {
    var account := Get(w, a).(balance := Balance(w, a) + amount);
    SumSet(w, BALANCE, a, account);
    SumSet(w, NONCE, a, account);
  }

  lemma DebitTotals(w: World, a: Address, amount: nat)
    requires amount <= Balance(w, a)
    ensures TotalBalance(Debit(w, a, amount)) + amount == TotalBalance(w)
    ensures TotalNonce(Debit(w, a, amount)) == TotalNonce(w)
  {
    var account := Get(w, a).(balance := Balance(w, a) - amount);
    SumSet(w, BALANCE, a, account);
    SumSet(w, NONCE, a, account);
  }

  lemma BumpTotals(w: World, a: Address)
    ensures TotalBalance(BumpNonce(w, a)) == TotalBalance(w)
    ensures TotalNonce(BumpNonce(w, a)) == TotalNonce(w) + 1
  {
    var account := Get(w, a).(nonce := Nonce(w, a) + 1);
    SumSet(w, BALANCE, a, account);
    SumSet(w, NONCE, a, account);
  }

  lemma PayTotals(w: World, from: Address, to: Address, value: nat, refund: nat, fee: nat)
    requires value <= Balance(w, from)
    ensures TotalBalance(Pay(w, from, to, value, refund, fee)) == TotalBalance(w) + refund + fee
    ensures TotalNonce(Pay(w, from, to, value, refund, fee)) == TotalNonce(w)
  {
    var debited := Debit(w, from, value);
    DebitTotals(w, from, value);
    CreditTotals(debited, to, value);
    CreditTotals(Credit(debited, to, value), from, refund);
    CreditTotals(Credit(Credit(debited, to, value), from, refund), COINBASE, fee);
  }

  lemma AppliedTotals(w: World, m: Msg, pool: nat, cost: nat, refund: nat, fee: nat)
    requires Settle(w, m, pool, cost, refund, fee).Applied?
    ensures
      var o := Settle(w, m, pool, cost, refund, fee);
      TotalBalance(o.world) + cost == TotalBalance(w) + refund + fee && TotalNonce(o.world) == TotalNonce(w) + 1
  {
    var bought := Debit(w, m.from, cost);
    var bumped := BumpNonce(bought, m.from);
    DebitTotals(w, m.from, cost);
    BumpTotals(bought, m.from);
    PayTotals(bumped, m.from, m.to.value, m.value, refund, fee);
  }

  lemma RejectedTotals(w: World, m: Msg, pool: nat, cost: nat, refund: nat, fee: nat)
    requires Settle(w, m, pool, cost, refund, fee).Rejected?
    ensures
      var o := Settle(w, m, pool, cost, refund, fee);
      if Plain(w, m) && InTurn(w, m) && cost <= Balance(w, m.from) && m.gas <= pool then
        && TotalBalance(o.world) + cost == TotalBalance(w)
        && TotalNonce(o.world) == TotalNonce(w) + if m.gas < INTRINSIC_GAS then 0 else 1
      else o.world == w
  {
    if cost <= Balance(w, m.from) {
      DebitTotals(w, m.from, cost);
      BumpTotals(Debit(w, m.from, cost), m.from);
    }
  }

  lemma TransferCosts(m: Msg)
    requires INTRINSIC_GAS <= m.gas
    ensures m.gas * m.gasPrice == (m.gas - INTRINSIC_GAS) * m.gasPrice + INTRINSIC_GAS * m.gasPrice
  {
  }

  /** A transfer that is paid moves money about and uses one nonce; one that fails late only takes. */
  lemma TransferTotals(w: World, m: Msg, pool: nat)
    ensures
      var o := TRANSFERS.apply(w, m, pool);
      if o.Applied? then TotalBalance(o.world) == TotalBalance(w) && TotalNonce(o.world) == TotalNonce(w) + 1
      else if Payable(w, m) && m.gas <= pool then
        && TotalBalance(o.world) + m.gas * m.gasPrice == TotalBalance(w)
        && TotalNonce(o.world) == TotalNonce(w) + if m.gas < INTRINSIC_GAS then 0 else 1
      else o.world == w
  {
    var cost, refund, fee := TransferIsSettle(w, m, pool);
    if TRANSFERS.apply(w, m, pool).Applied? {
      AppliedTotals(w, m, pool, cost, refund, fee);
      TransferCosts(m);
    } else {
      RejectedTotals(w, m, pool, cost, refund, fee);
    }
  }

  // ----- the smallest example -----

  /** One account that has sent `nonce` transactions. */
  function Lone(nonce: nat): World {
    map[Keyed(1) := Account(nonce, 5, [], map[])]
  }

  /** Its owner sends itself nothing, at no price. */
  function ToSelf(nonce: uint64, gas: uint64): (tx: Tx)
    ensures tx.from.Some?
  {
    Tx(Some(1), nonce, gas, 0, 0, Some(Keyed(1)), [], 0)
  }

  lemma ToSelfIs(n: nat, nonce: uint64, gas: uint64, pool: nat)
    requires INTRINSIC_GAS <= gas
    ensures
      TRANSFERS.apply(Lone(n), AsMessage(ToSelf(nonce, gas)), pool)
      == if nonce != n then Rejected(Lone(n), pool, "nonce")
         else if pool < gas then Rejected(Lone(n), pool, "gas limit reached")
         else Applied(Lone(n + 1), pool - INTRINSIC_GAS, INTRINSIC_GAS, false, [])
  {
    var m := AsMessage(ToSelf(nonce, gas));
    assert gas * m.gasPrice == 0 && (gas - INTRINSIC_GAS) * m.gasPrice == 0 && INTRINSIC_GAS * m.gasPrice == 0;
    assert Debit(Lone(n), Keyed(1), 0) == Lone(n);
    assert BumpNonce(Lone(n), Keyed(1)) == Lone(n + 1);
    PayNothing(n + 1);
    assert TRANSFERS.apply(Lone(n), m, pool) == Settle(Lone(n), m, pool, 0, 0, 0);
  }

  lemma PayNothing(n: nat)
    ensures Pay(Lone(n), Keyed(1), Keyed(1), 0, 0, 0) == Lone(n)
  {
    assert Debit(Lone(n), Keyed(1), 0) == Lone(n);
    assert Credit(Lone(n), Keyed(1), 0) == Lone(n);
    assert Credit(Lone(n), COINBASE, 0) == Lone(n);
  }
}
