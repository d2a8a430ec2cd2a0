/** Shared vocabulary of the ledger: optional values, errors, transactions,
    blocks, users, and the engine's fixed parameters. */
module Types {

  datatype Option<T> = None | Some(value: T)

  /** The failures the engine reports to its caller. */
  datatype Error =
    | DuplicateUser          // the username is already registered
    | InsufficientFunds      // the sender's balance is below the amount
    | BlockNotFound          // the block index is outside the chain
    | NonceSearchUnfinished  // no winning nonce within the search budget

  datatype Result<T> = Ok(value: T) | Err(error: Error)

  type Address = string

  /** A transfer. `from == None` is a system-minted mining reward. */
  datatype Tx = Tx(id: string, from: Option<Address>, to: Address, amount: int, timestamp: int)
  {
    /** Whether applying the transaction debits a sender. The engine tests
        the sender for truthiness, so an empty sender address debits no one,
        just like an absent one. */
    predicate HasSender() {
      from.Some? && from.value != ""
    }
  }

  datatype Block = Block(
    index: nat,
    timestamp: int,
    txs: seq<Tx>,
    previousHash: string,
    nonce: nat,
    hash: string)

  datatype User = User(username: string, address: Address, publicKey: string, createdAt: int)

  /** The block digest function (SHA-256 over index, timestamp, serialized
      transactions, previous hash and nonce), left uninterpreted. */
  type Hasher = (nat, int, seq<Tx>, string, nat) -> string

  /** Address derivation from a public key, left uninterpreted. */
  type Deriver = string -> Address

  const MiningReward: int := 100
  const Difficulty: nat := 4
  const StartingAllowance: int := 1000
}
