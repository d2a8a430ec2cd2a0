# Simple blockchain ledger — Dafny model

A model of `SimpleBlockchain`, the in-memory, single-node ledger behind the
simple-blockchain-js demo server. The node keeps four pieces of state: a chain of
blocks, the registered users, an address → balance map and the pool of pending
transactions. It supports these operations:

- **construction**: one genesis block;
- **user registration**: the derived address's balance is set to 1000, replacing any earlier balance;
- **transaction admission**: a point-in-time balance check, with nothing reserved;
- **mining**: a reward transaction is appended to the pool, a nonce is searched by
  proof of work, the block's transactions are applied to the balances in order,
  the block is appended and the pool is cleared;
- **reads**: balance, user, user list, chain summary, and block by index.

Each operation is a pure transition on a `State` value. Failures come back as
`Result` values. A failed transition hands back the state it was given.

| file | module | contents |
|---|---|---|
| `types.dfy` | `Types` | transactions, blocks, users, errors, the constants (reward 100, difficulty 4, allowance 1000) |
| `ledger.dfy` | `Ledger` | balance lookup, applying one or many transactions, per-address net flow, supply (`Total`) accounting |
| `pow.dfy` | `ProofOfWork` | the difficulty test, the reference nonce search `FirstNonce`, the mining loop `MineBlock` |
| `chain.dfy` | `Chain` | genesis block, linkage and sealing invariants, block lookup by index |
| `engine.dfy` | `Engine` | node state, `Init`, `CreateUser`, `CreateTransaction`, `Mine`, read accessors, invariant preservation |
| `scenarios.dfy` | `Scenarios` | multi-step behaviours: unreserved overdraw, negative amounts, the empty sender, the walkthrough |

Modelling choices:

- **Block digest.** SHA-256 over the block fields is a function-typed parameter
  `Hasher`. No property of it is assumed beyond its being a function.
- **Address derivation.** The truncated SHA-256 of the public key is also a
  parameter, `Deriver`. Two keys may derive the same address.
- **Clock and identifiers.** `Date.now()` and `crypto.randomUUID()` values are
  parameters of the transitions. Genesis takes two timestamps, because the source
  reads the clock twice there: once for the stored timestamp and once for the
  hashed one.
- **Nonce search.** The source's search is unbounded. Here it takes a `fuel`
  bound. `Err(NonceSearchUnfinished)` means no nonce in `1..fuel` works, which in
  the source means the loop is still running. The contracts are partial
  correctness. The found nonce is the least one that is at least 1 and meets the
  difficulty.
- **Sender test.** The engine checks whether a transaction has a sender by
  truthiness (`if (transaction.fromAddress)`). So an empty-string sender is not
  debited, just like the `null` sender of a reward. `Tx.HasSender` models exactly
  that.

The model follows the code as written:

- The code does not check that the amount is positive (server.js:79-83); zero and negative amounts are admitted.
- Balances are not kept non-negative. Admission does not reserve funds, and
  mining does not re-check them. `Scenarios.PendingNotReserved` and
  `Scenarios.OverdrawReachable` show a balance going negative.
- Registration overwrites the address's balance with 1000. It does not credit
  the address.
- The genesis digest is not claimed to recompute from the genesis block's stored
  fields.
- Appending a block checks nothing. Linkage holds only because mining builds the
  block from the current last block.

## Model

| member | source | states |
|---|---|---|
| `Ledger.Balance` | server.js:73-75 | a stored balance is returned as is; an address never written reads as 0 |
| `Ledger.ApplyTx` | server.js:123-129 | after one transaction, every address's balance is its old balance plus what the transaction credits it minus what it debits it; only a truthy sender is debited |
| `Ledger.ApplyTxs` | server.js:122-130 | after applying a sequence in order, every address holds its old balance plus total credits minus total debits over the sequence |
| `Ledger.SelfTransferUnchanged` | server.js:123-129 | a transfer whose sender is its recipient leaves every balance unchanged |
| `Ledger.ApplyTxsConcat` | server.js:122-130 | applying a block's transactions is applying them one after another, in block order |
| `Ledger.TotalApplyTxs` | server.js:122-130 | the sum of all balances grows by exactly the amounts of sender-less transactions; transfers with a sender conserve it |
| `ProofOfWork.MeetsIff` | server.js:139-141 | the prefix-equals-target test holds iff the digest has at least `difficulty` characters and its first `difficulty` characters are all '0' |
| `ProofOfWork.FirstNonce` | server.js:141-150 | the reference search returns the least nonce in its window whose digest meets the difficulty, or none when no nonce in the window does |
| `ProofOfWork.MineBlock` | server.js:138-153 | the mining loop returns a nonce of at least 1, the digest recomputed for that nonce, which meets the difficulty, with no smaller positive nonce meeting it; it agrees with `FirstNonce` from nonce 1 |
| `Chain.BlockAt` | server.js:250-255 | block lookup succeeds iff 0 <= index < chain length, returning that block, else reports not-found |
| `Chain.BlockAtIndex` | server.js:110-111 | on a linked chain the block found at an index records that index |
| `Chain.AppendPreservesLinked` | server.js:110-132 | appending a block whose index is the chain length and whose previous hash is the last block's digest keeps the chain linked, and keeps it sealed if the block is sealed |
| `Engine.Init` | server.js:13-35 | a fresh engine holds exactly one block: index 0, no transactions, previous hash "0", nonce 0, the first clock reading as its timestamp, and as its digest the hash of (0, the second clock reading, no transactions, "0", 0); there are no users, the pool is empty, every balance reads 0 and the block height is 0 |
| `Engine.FindUser` | server.js:161-163 | user lookup finds nothing iff no registered user has that name; otherwise it returns a registered user with that name |
| `Engine.AllUsersAgreesWithLookup` | server.js:156-163 | under distinct usernames, a user is in the listing iff looking up its name returns it |
| `Engine.CreateUser` | server.js:49-66 | registration fails with a duplicate-user error, state unchanged, iff the name is taken; otherwise the user is appended, lookup finds it, the derived address's balance becomes exactly 1000 whatever it was, other balances, blocks and pool are untouched |
| `Engine.CreateUserPreservesValid` | server.js:50-60 | registration keeps usernames distinct and the chain linked |
| `Engine.CreateTransaction` | server.js:78-95 | admission fails with insufficient funds, state unchanged, iff the sender's balance is below the amount; otherwise exactly the new transaction is appended to the pool and blocks, users and balances are untouched |
| `Engine.CreateTransactionPreservesValid` | server.js:78-95 | admission keeps the state invariant |
| `Engine.Mine` | server.js:98-136 | a mined block has index = old length, previous hash = old last digest, the pending transactions followed by one reward of 100 to the miner, a sealed digest with the least positive winning nonce; the chain grows by it, the pool is emptied, users unchanged and balances are the block applied in order; an unfinished search leaves the state unchanged |
| `Engine.MinePendingTransactions` | server.js:98-136 | the transition driven by the imperative mining loop equals the functional `Mine` |
| `Engine.MineBalances` | server.js:122-130 | after mining, every address gains pending credits minus pending debits plus the reward if it is the miner; supply grows by reward plus amounts minted by sender-less pending transactions |
| `Engine.MineSupplyExact` | server.js:100-130 | when every pending transaction has a sender, the sum of balances grows by exactly the mining reward |
| `Engine.MinePreservesValid` | server.js:110-132 | mining keeps the chain linked and sealed and usernames distinct, and raises the block height by one |
| `Scenarios.PendingNotReserved` | server.js:78-130 | two transfers each within the sender's balance are both admitted and both debited at mining, so a pair exceeding the balance leaves it negative |
| `Scenarios.OverdrawWitness` | server.js:49-130 | a freshly registered user with 1000 admits two transfers of 600 and holds -200 after any completed mining |
| `Scenarios.OverdrawReachable` | server.js:49-153 | with a digest function that always meets the difficulty, that mining completes at nonce 1 and the balance is -200 |
| `Scenarios.NegativeAmountPullsFunds` | server.js:78-130 | a negative amount is admitted from any address with non-negative balance and, once mined, moves funds from recipient to sender |
| `Scenarios.EmptySenderMints` | server.js:122-130 | a transfer from the empty address is admitted against its balance but never debited, so mining it grows supply by reward plus amount |
| `Scenarios.CreateUserSupply` | server.js:63 | registration changes supply by 1000 minus what the derived address held before |
| `Scenarios.MineEmptyPool` | server.js:98-136 | mining an empty pool yields a block holding exactly the reward, height grows by one, the miner gains 100 |
| `Scenarios.Walkthrough` | server.js:49-136 | alice and bob get 1000 each; 300 from alice to bob is admitted; mining by alice yields block 1 with two transactions, alice 800, bob 1300; then 10000 from alice is refused with the pool untouched, and re-registering alice is refused |

## Left out

- HTTP routes, JSON request/response mapping, CORS and port binding (server.js:1-9, 176-262): transport plumbing. Only the block-index range check is kept, as `Chain.BlockAt`.
- `cosmjs-client.js`: an asynchronous pass-through to a third-party wallet and RPC client over the network. It has no ledger logic.
- SHA-256 and its input encoding: in the source, `index + timestamp` is numeric addition and the transactions go through `JSON.stringify`. The digest is an uninterpreted `Hasher`, and address derivation is an uninterpreted `Deriver`. The 40-character length of derived addresses is therefore not modelled.
- `Date.now()` and `crypto.randomUUID()`: these become parameters. Uniqueness of ids is not assumed or proved.
- `parseFloat` amounts, including NaN and fractions: amounts are unbounded integers.
- `parseInt` block indices, including NaN: indices are integers.
- Non-string or missing addresses and usernames from the JSON body: addresses and usernames are strings.
- Engine.Mine: the nonce search is bounded by `fuel`. Divergence of the source loop is not modelled. When the search does not finish, the model leaves the state unchanged. The source instead would have already pushed the reward into the pool and never returns.
- ProofOfWork.MineBlock: its contract is partial correctness only. It promises nothing about termination of the source's unbounded loop, only what holds when a nonce is found within `fuel` rounds.
- Reads mutating nothing and being idempotent hold because every accessor is a pure function, so no separate lemma states it.
- `getLatestBlock` and `getChainInfo` are `Chain.Latest` and `Engine.Info`. Their values are stated through `Engine.Init`, `Engine.Mine` and `Engine.MinePreservesValid`, not through contracts of their own.
