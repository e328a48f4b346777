/** The conventional optional value. */
module Wrappers {
  datatype Option<+T> = None | Some(value: T)

  lemma Snoc<T>(xs: seq<T>)
    requires xs != []
    ensures xs == xs[..|xs| - 1] + [xs[|xs| - 1]]
  {
  }
}

/** Worlds, transactions, receipts and hashes: the values every component passes around. */
module Types {
  import opened Wrappers

  /** gasLimit: the gas pool a block (or a dry run) starts with. */
  const GAS_LIMIT: nat := 1_000_000_000_000_000_000
  const TWO_64: nat := 0x1_0000_0000_0000_0000

  type uint64 = x: int | 0 <= x < 0x1_0000_0000_0000_0000

  /** Addresses are derived by hashing: from a public key, or from a creator and its nonce. */
  datatype Address = ZeroAddress | Keyed(key: nat) | Created(creator: Address, creation: nat)

  datatype Account = Account(nonce: nat, balance: nat, code: seq<nat>, storage: map<nat, nat>) {
    /** The library's notion of an empty account; storage does not count. */
    predicate Empty() {
      nonce == 0 && balance == 0 && code == []
    }
  }

  const NOBODY := Account(0, 0, [], map[])

  /** A world holds no empty account: Commit(true) and IntermediateRoot(true) drop them. */
  type World = map<Address, Account>

  predicate Canonical(w: World) {
    forall a | a in w :: !w[a].Empty()
  }

  function Get(w: World, a: Address): Account {
    if a in w then w[a] else NOBODY
  }

  function Set(w: World, a: Address, account: Account): World {
    if account.Empty() then w - {a} else w[a := account]
  }

  function Nonce(w: World, a: Address): nat {
    Get(w, a).nonce
  }

  function Balance(w: World, a: Address): nat {
    Get(w, a).balance
  }

  /**
   `from` is the key the signature recovers to; None when the signature is invalid. `sig` tells apart the
   signatures that recover to one key: they are part of the bytes, and so of the hash.
   */
  datatype Tx = Tx(from: Option<nat>, nonce: uint64, gas: uint64, gasPrice: nat, value: nat,
                   to: Option<Address>, data: seq<nat>, sig: nat)

  /** `checkNonce` is set for transactions; read-only calls switch it off. */
  datatype Msg = Msg(from: Address, nonce: uint64, gas: uint64, gasPrice: nat, value: nat,
                     to: Option<Address>, data: seq<nat>, checkNonce: bool)

  function AsMessage(tx: Tx): (msg: Msg)
    requires tx.from.Some?
  {
    Msg(Keyed(tx.from.value), tx.nonce, tx.gas, tx.gasPrice, tx.value, tx.to, tx.data, true)
  }

  /** The bytes consensus delivers. Decoding reads from a stream, so trailing bytes are ignored. */
  datatype Raw = Garbage(bytes: seq<nat>) | Encoded(tx: Tx, trailing: seq<nat>)

  function Decode(raw: Raw): Option<Tx> {
    match raw
    case Garbage(_) => None
    case Encoded(tx, _) => Some(tx)
  }

  /** The transaction in `raw`, if it decodes and its signature is valid. */
  function Signed(raw: Raw): Option<Tx> {
    match Decode(raw)
    case None => None
    case Some(tx) => if tx.from.Some? then Some(tx) else None
  }

  /** Ideal hashes: a hash is the value hashed, so hashing is injective. Solo makes one up from a label. */
  datatype Hash = ZeroHash | OfLabel(name: int) | OfTx(tx: Tx) | OfBlock(block: nat) | OfAccount(account: Account) | OfRoot(world: World)

  /** `id` stands for the content a block hash is computed from, `hash` is the field the block carries. */
  datatype Block = Block(id: nat, hash: Hash, index: int, createdTime: int, transactions: seq<Raw>)

  datatype Log = Log(data: nat, txHash: Hash, blockHash: Hash, txIndex: int)

  datatype Receipt = Receipt(root: Hash, cumulativeGasUsed: nat, txHash: Hash, gasUsed: nat,
                             contractAddress: Option<Address>, logs: seq<Log>)
}
