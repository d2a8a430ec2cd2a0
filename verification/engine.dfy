/** The ledger engine: the whole node state and its transitions (user
    registration, transaction admission, mining) and read accessors. */
module Engine {
  import opened Types
  import opened Ledger
  import opened ProofOfWork
  import opened Chain

  /** Node state. Users are kept in registration order, which is the order
      the user listing returns them in. */
  datatype State = State(blocks: seq<Block>, users: seq<User>, balances: Balances, pending: seq<Tx>)

  /** A transition: the next state and what the caller gets back. */
  datatype Step<T> = Step(state: State, result: Result<T>)

  /** What registration hands back to the caller. */
  datatype UserRef = UserRef(username: string, address: Address)

  datatype ChainInfo = ChainInfo(blockHeight: int, totalUsers: nat, pendingCount: nat, latestBlock: Block)

  predicate DistinctNames(users: seq<User>) {
    forall i, j :: 0 <= i < j < |users| ==> users[i].username != users[j].username
  }

  /** The state invariant: a linked chain from its genesis block, and
      usernames used at most once. Balances are NOT required to be
      non-negative: the engine can drive them below zero. */
  predicate Valid(s: State) {
    Linked(s.blocks) && DistinctNames(s.users)
  }

  // ---------------------------------------------------------------------
  // Construction

  /** A fresh engine holding only the genesis block. */
  function Init(hash: Hasher, genesisTimestamp: int, hashTimestamp: int): (s: State)
    ensures Valid(s) && AllSealed(hash, Difficulty, s.blocks)
    ensures |s.blocks| == 1 && IsGenesis(s.blocks[0])
    ensures s.blocks[0].timestamp == genesisTimestamp
    ensures s.blocks[0].hash == hash(0, hashTimestamp, [], "0", 0)
    ensures s.users == [] && s.pending == []
    ensures forall a :: GetBalance(s, a) == 0
    ensures Info(s).blockHeight == 0 && Info(s).pendingCount == 0 && Info(s).totalUsers == 0
  {
    State([GenesisBlock(hash, genesisTimestamp, hashTimestamp)], [], map[], [])
  }

  // ---------------------------------------------------------------------
  // Reads

  function GetBalance(s: State, a: Address): int {
    Balance(s.balances, a)
  }

  /** First registered user with the given name, if any. */
  function FindUser(users: seq<User>, name: string): (r: Option<User>)
    ensures r.None? <==> forall i :: 0 <= i < |users| ==> users[i].username != name
    ensures r.Some? ==> r.value.username == name && r.value in users
  {
    if users == [] then None
    else if users[0].username == name then Some(users[0])
    else FindUser(users[1..], name)
  }

  function GetUser(s: State, name: string): Option<User> {
    FindUser(s.users, name)
  }

  function AllUsers(s: State): seq<User> {
    s.users
  }

  /** The listing and the lookup agree: a user is listed exactly when
      looking up its name returns it. */
  lemma AllUsersAgreesWithLookup(s: State, u: User)
    requires Valid(s)
    ensures u in AllUsers(s) <==> GetUser(s, u.username) == Some(u)
  {
  }

  function Info(s: State): ChainInfo
    requires |s.blocks| > 0
  {
    ChainInfo(|s.blocks| - 1, |s.users|, |s.pending|, Latest(s.blocks))
  }

  function GetBlock(s: State, index: int): Result<Block> {
    BlockAt(s.blocks, index)
  }

  // ---------------------------------------------------------------------
  // User registration

  /** Registers `username` under the address derived from `publicKey` and
      sets that address's balance to the starting allowance, replacing any
      balance the address already had. */
  function CreateUser(s: State, derive: Deriver, username: string, publicKey: string, createdAt: int)
    : (r: Step<UserRef>)
    ensures r.result.Err? <==> GetUser(s, username).Some?
    ensures r.result.Err? ==> r.result.error == DuplicateUser && r.state == s
    ensures r.result.Ok? ==>
      var addr := derive(publicKey);
      && r.result.value == UserRef(username, addr)
      && r.state.users == s.users + [User(username, addr, publicKey, createdAt)]
      && GetUser(r.state, username) == Some(User(username, addr, publicKey, createdAt))
      && GetBalance(r.state, addr) == StartingAllowance
      && (forall a :: a != addr ==> GetBalance(r.state, a) == GetBalance(s, a))
      && r.state.blocks == s.blocks
      && r.state.pending == s.pending
  {
    if GetUser(s, username).Some? then
      Step(s, Err(DuplicateUser))
    else
      var addr := derive(publicKey);
      var u := User(username, addr, publicKey, createdAt);
      var s' := s.(users := s.users + [u], balances := s.balances[addr := StartingAllowance]);
      assert FindUser(s'.users, username) == Some(u) by {
        assert s'.users[|s.users|] == u;
        var r := FindUser(s'.users, username);
        assert r.value in s.users || r.value == u;
      }
      Step(s', Ok(UserRef(username, addr)))
  }

  lemma CreateUserPreservesValid(s: State, derive: Deriver, username: string, publicKey: string, createdAt: int)
    requires Valid(s)
    ensures Valid(CreateUser(s, derive, username, publicKey, createdAt).state)
  {
  }

  // ---------------------------------------------------------------------
  // Transaction admission

  /** Admits a transfer when the sender's current balance covers `amount`.
      Neither the amount's sign nor the sender's other pending transfers are
      looked at, and nothing is reserved: balances change only at mining. */
  function CreateTransaction(s: State, id: string, from: Address, to: Address, amount: int, timestamp: int)
    : (r: Step<Tx>)
    ensures r.result.Err? <==> GetBalance(s, from) < amount
    ensures r.result.Err? ==> r.result.error == InsufficientFunds && r.state == s
    ensures r.result.Ok? ==>
      && r.result.value == Tx(id, Some(from), to, amount, timestamp)
      && r.state.pending == s.pending + [r.result.value]
      && r.state.blocks == s.blocks
      && r.state.users == s.users
      && r.state.balances == s.balances
  {
    if GetBalance(s, from) < amount then
      Step(s, Err(InsufficientFunds))
    else
      var tx := Tx(id, Some(from), to, amount, timestamp);
      Step(s.(pending := s.pending + [tx]), Ok(tx))
  }

  lemma CreateTransactionPreservesValid(s: State, id: string, from: Address, to: Address, amount: int, timestamp: int)
    requires Valid(s)
    ensures Valid(CreateTransaction(s, id, from, to, amount, timestamp).state)
  {
  }

  // ---------------------------------------------------------------------
  // Mining

  function RewardTx(id: string, miner: Address, timestamp: int): Tx {
    Tx(id, None, miner, MiningReward, timestamp)
  }

  /** The block to be mined: the pending transactions followed by the reward,
      linked to the current last block. */
  function Candidate(s: State, miner: Address, rewardId: string, rewardTimestamp: int, blockTimestamp: int): Header
    requires |s.blocks| > 0
  {
    Header(|s.blocks|, blockTimestamp, s.pending + [RewardTx(rewardId, miner, rewardTimestamp)], Latest(s.blocks).hash)
  }

  /** Mines the pending transactions plus a reward for `miner` into one new
      block, applies the block's transactions to the balances in order, and
      empties the pool. `fuel` bounds the nonce search, which the source does
      not bound; Err(NonceSearchUnfinished) stands for a search still running. */
  function Mine(s: State, hash: Hasher, miner: Address, rewardId: string, rewardTimestamp: int,
                blockTimestamp: int, fuel: nat): (r: Step<Block>)
    requires |s.blocks| > 0
    ensures r.result.Err? ==> r.result.error == NonceSearchUnfinished && r.state == s
    ensures r.result.Err? ==>
      forall k :: 1 <= k <= fuel ==>
        !Meets(Digest(hash, Candidate(s, miner, rewardId, rewardTimestamp, blockTimestamp), k), Difficulty)
    ensures r.result.Ok? ==>
      var b := r.result.value;
      && b.index == |s.blocks|
      && b.previousHash == Latest(s.blocks).hash
      && b.timestamp == blockTimestamp
      && b.txs == s.pending + [RewardTx(rewardId, miner, rewardTimestamp)]
      && SealedBy(hash, Difficulty, b)
      && (forall k :: 1 <= k < b.nonce ==> !Meets(Digest(hash, HeaderOf(b), k), Difficulty))
      && r.state.blocks == s.blocks + [b]
      && r.state.users == s.users
      && r.state.pending == []
      && r.state.balances == ApplyTxs(s.balances, b.txs)
  {
    var h := Candidate(s, miner, rewardId, rewardTimestamp, blockTimestamp);
    match FirstNonce(hash, h, Difficulty, 1, fuel)
    case None =>
      Step(s, Err(NonceSearchUnfinished))
    case Some(n) =>
      var b := Block(h.index, h.timestamp, h.txs, h.previousHash, n, Digest(hash, h, n));
      Step(State(s.blocks + [b], s.users, ApplyTxs(s.balances, b.txs), []), Ok(b))
  }

  /** The same transition driven by the imperative nonce search. */
  method MinePendingTransactions(s: State, hash: Hasher, miner: Address, rewardId: string,
                                 rewardTimestamp: int, blockTimestamp: int, fuel: nat)
    returns (r: Step<Block>)
    requires |s.blocks| > 0
    ensures r == Mine(s, hash, miner, rewardId, rewardTimestamp, blockTimestamp, fuel)
  {
    var h := Candidate(s, miner, rewardId, rewardTimestamp, blockTimestamp);
    var seal := MineBlock(hash, h, Difficulty, fuel);
    if seal.None? {
      return Step(s, Err(NonceSearchUnfinished));
    }
    var b := Block(h.index, h.timestamp, h.txs, h.previousHash, seal.value.nonce, seal.value.digest);
    var balances := ApplyTxs(s.balances, b.txs);
    r := Step(State(s.blocks + [b], s.users, balances, []), Ok(b));
  }

  /** After mining, each address holds its old balance plus the pending
      transfers' net flow into it, plus the reward if it is the miner's; the
      supply grows by the reward plus whatever sender-less pending
      transactions minted. */
  lemma MineBalances(s: State, hash: Hasher, miner: Address, rewardId: string, rewardTimestamp: int,
                     blockTimestamp: int, fuel: nat)
    requires |s.blocks| > 0
    requires Mine(s, hash, miner, rewardId, rewardTimestamp, blockTimestamp, fuel).result.Ok?
    ensures var s' := Mine(s, hash, miner, rewardId, rewardTimestamp, blockTimestamp, fuel).state;
      && (forall a :: GetBalance(s', a) == GetBalance(s, a) + Credits(s.pending, a) - Debits(s.pending, a)
                                         + (if a == miner then MiningReward else 0))
      && Total(s'.balances) == Total(s.balances) + Minted(s.pending) + MiningReward
  {
    var reward := RewardTx(rewardId, miner, rewardTimestamp);
    forall a {
      CreditsAppend(s.pending, reward, a);
    }
    CreditsAppend(s.pending, reward, miner);
    TotalApplyTxs(s.balances, s.pending + [reward]);
  }

  /** Every transaction still pending debits a sender. */
  predicate AllHaveSenders(txs: seq<Tx>) {
    forall i :: 0 <= i < |txs| ==> txs[i].HasSender()
  }

  lemma {:induction false} NothingMinted(txs: seq<Tx>)
    requires AllHaveSenders(txs)
    ensures Minted(txs) == 0
    decreases |txs|
  {
    if txs != [] {
      NothingMinted(txs[1..]);
    }
  }

  /** When every pending transfer names a sender, mining grows the supply by
      exactly the reward. */
  lemma MineSupplyExact(s: State, hash: Hasher, miner: Address, rewardId: string, rewardTimestamp: int,
                        blockTimestamp: int, fuel: nat)
    requires |s.blocks| > 0 && AllHaveSenders(s.pending)
    requires Mine(s, hash, miner, rewardId, rewardTimestamp, blockTimestamp, fuel).result.Ok?
    ensures Total(Mine(s, hash, miner, rewardId, rewardTimestamp, blockTimestamp, fuel).state.balances)
         == Total(s.balances) + MiningReward
  {
    MineBalances(s, hash, miner, rewardId, rewardTimestamp, blockTimestamp, fuel);
    NothingMinted(s.pending);
  }

  /** Mining keeps the chain linked and, for the same digest function, keeps
      every non-genesis block sealed; the height grows by one. */
  lemma MinePreservesValid(s: State, hash: Hasher, miner: Address, rewardId: string, rewardTimestamp: int,
                           blockTimestamp: int, fuel: nat)
    requires Valid(s)
    ensures var r := Mine(s, hash, miner, rewardId, rewardTimestamp, blockTimestamp, fuel);
      && Valid(r.state)
      && (AllSealed(hash, Difficulty, s.blocks) ==> AllSealed(hash, Difficulty, r.state.blocks))
      && (r.result.Ok? ==> Info(r.state).blockHeight == Info(s).blockHeight + 1)
  {
  }
}
