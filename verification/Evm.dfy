/** What the model assumes of go-ethereum's core.ApplyMessage, and nothing more. */
module Evm {
  import opened Types

  /** `Rejected` is an error return: there is no receipt, but the world may have changed. */
  datatype Outcome =
    | Applied(world: World, pool: nat, gasUsed: nat, failed: bool, logs: seq<nat>)
    | Rejected(world: World, pool: nat, error: string)

  /** ApplyMessage under one signer and configuration; some messages are refused before it looks at the pool. */
  datatype Evm = Evm(apply: (World, Msg, nat) -> Outcome, usesPool: (World, Msg) -> bool)

  function AddPool(o: Outcome, gas: nat): Outcome {
    o.(pool := o.pool + gas)
  }

  /** A nonce mismatch is refused and changes nothing. */
  predicate NonceLaw(w: World, m: Msg, pool: nat, o: Outcome) {
    m.checkNonce && m.nonce != Nonce(w, m.from) ==> o.Rejected? && o.world == w && o.pool == pool
  }

  /** A message refused before the pool is looked at is refused alike with any pool, and changes nothing. */
  predicate EarlyLaw(evm: Evm, w: World, m: Msg, pool: nat) {
    && (m.checkNonce && m.nonce != Nonce(w, m.from) ==> !evm.usesPool(w, m))
    && (!evm.usesPool(w, m) ==>
          var early := evm.apply(w, m, 0);
          early.Rejected? && evm.apply(w, m, pool) == Rejected(w, pool, early.error))
  }

  /** Success uses up a nonce and takes exactly the gas used out of the pool. */
  predicate SuccessLaw(w: World, m: Msg, pool: nat, o: Outcome) {
    o.Applied? ==>
      && m.gas <= pool
      && o.gasUsed <= m.gas
      && o.pool == pool - o.gasUsed
      && Nonce(o.world, m.from) == Nonce(w, m.from) + 1
  }

  /** An error never raises the pool and lowers it by at most the message's gas. */
  predicate RejectLaw(m: Msg, pool: nat, o: Outcome) {
    o.Rejected? ==> pool - m.gas <= o.pool <= pool
  }

  /** No call lowers the nonce of an address that can sign. */
  ghost predicate NonceNeverFalls(w: World, w': World) {
    forall a: Address | a.Keyed? :: Nonce(w, a) <= Nonce(w', a)
  }

  /** Once the pool covers the message's gas, how much more it holds does not matter. */
  predicate PoolBlindLaw(evm: Evm, w: World, m: Msg, pool: nat) {
    m.gas <= pool ==> evm.apply(w, m, pool) == AddPool(evm.apply(w, m, m.gas), pool - m.gas)
  }

  ghost predicate Law(evm: Evm, w: World, m: Msg, pool: nat) {
    var o := evm.apply(w, m, pool);
    && NonceLaw(w, m, pool, o)
    && EarlyLaw(evm, w, m, pool)
    && SuccessLaw(w, m, pool, o)
    && RejectLaw(m, pool, o)
    && NonceNeverFalls(w, o.world)
    && PoolBlindLaw(evm, w, m, pool)
    && (Canonical(w) ==> Canonical(o.world))
  }

  ghost predicate Lawful(evm: Evm) {
    forall w: World, m: Msg, pool: nat :: Law(evm, w, m, pool)
  }
}
