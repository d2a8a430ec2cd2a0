/** Whole-engine behaviours that span several operations: a walkthrough
    of registration, a transfer and mining, and the consequences of
    admitting transfers against a point-in-time balance with no sign check. */
module Scenarios {
  import opened Types
  import opened Ledger
  import opened ProofOfWork
  import opened Chain
  import opened Engine

  /** Two transfers that each fit the sender's balance are both admitted,
      because the pool reserves nothing; once mined, both are debited, so a
      pair that jointly exceeds the balance drives it below zero. */
  lemma {:induction false} PendingNotReserved(s: State, hash: Hasher, from: Address, to: Address,
                                              id1: string, a1: int, ts1: int, id2: string, a2: int, ts2: int,
                                              miner: Address, rewardId: string, rewardTimestamp: int,
                                              blockTimestamp: int, fuel: nat)
    requires |s.blocks| > 0 && s.pending == []
    requires from != "" && from != to && miner != from
    requires a1 <= GetBalance(s, from) && a2 <= GetBalance(s, from)
    ensures var r1 := CreateTransaction(s, id1, from, to, a1, ts1);
      var r2 := CreateTransaction(r1.state, id2, from, to, a2, ts2);
      var m := Mine(r2.state, hash, miner, rewardId, rewardTimestamp, blockTimestamp, fuel);
      && r1.result.Ok? && r2.result.Ok?
      && |r2.state.pending| == 2
      && (m.result.Ok? ==> GetBalance(m.state, from) == GetBalance(s, from) - a1 - a2)
      && (m.result.Ok? && a1 + a2 > GetBalance(s, from) ==> GetBalance(m.state, from) < 0)
  {
    var r1 := CreateTransaction(s, id1, from, to, a1, ts1);
    var r2 := CreateTransaction(r1.state, id2, from, to, a2, ts2);
    var m := Mine(r2.state, hash, miner, rewardId, rewardTimestamp, blockTimestamp, fuel);
    var p := r2.state.pending;
    assert p == [] + [r1.result.value] + [r2.result.value];
    CreditsAppend([], r1.result.value, from);
    CreditsAppend([] + [r1.result.value], r2.result.value, from);
    assert Credits(p, from) == 0 && Debits(p, from) == a1 + a2;
    if m.result.Ok? {
      MineBalances(r2.state, hash, miner, rewardId, rewardTimestamp, blockTimestamp, fuel);
    }
  }

  /** The overdraw actually happens: from a fresh engine, a registered user
      with 1000 admits two transfers of 600 and ends at -200 after mining,
      whenever the nonce search finishes. */
  lemma OverdrawWitness(hash: Hasher, derive: Deriver, fuel: nat)
    requires derive("pk-alice") != "" && derive("pk-alice") != "bob"
    ensures var alice := derive("pk-alice");
      var s1 := CreateUser(Init(hash, 0, 0), derive, "alice", "pk-alice", 1).state;
      var s2 := CreateTransaction(s1, "t1", alice, "bob", 600, 2).state;
      var s3 := CreateTransaction(s2, "t2", alice, "bob", 600, 3).state;
      var m := Mine(s3, hash, "bob", "r", 4, 5, fuel);
      && GetBalance(s1, alice) == 1000
      && |s3.pending| == 2
      && (m.result.Ok? ==> GetBalance(m.state, alice) == -200)
  {
    var alice := derive("pk-alice");
    var s1 := CreateUser(Init(hash, 0, 0), derive, "alice", "pk-alice", 1).state;
    PendingNotReserved(s1, hash, alice, "bob", "t1", 600, 2, "t2", 600, 3, "bob", "r", 4, 5, fuel);
  }

  /** The same overdraw with a digest function whose every output meets the
      difficulty, so the search ends at nonce 1 and the block is mined. */
  lemma OverdrawReachable()
    ensures var hash: Hasher := (i, t, txs, p, n) => "0000";
      var derive: Deriver := k => "a1";
      var s1 := CreateUser(Init(hash, 0, 0), derive, "alice", "pk-alice", 1).state;
      var s2 := CreateTransaction(s1, "t1", "a1", "bob", 600, 2).state;
      var s3 := CreateTransaction(s2, "t2", "a1", "bob", 600, 3).state;
      var m := Mine(s3, hash, "bob", "r", 4, 5, 1);
      && m.result.Ok?
      && m.result.value.nonce == 1
      && GetBalance(m.state, "a1") == -200
  {
  }

  /** Admission never checks the sign of the amount: a negative transfer is
      admitted from any address with a non-negative balance, including one
      that was never credited, and mining it moves funds from the recipient
      to the sender. */
  lemma {:induction false} NegativeAmountPullsFunds(s: State, hash: Hasher, from: Address, to: Address,
                                                    id: string, amount: int, ts: int,
                                                    miner: Address, rewardId: string, rewardTimestamp: int,
                                                    blockTimestamp: int, fuel: nat)
    requires |s.blocks| > 0 && s.pending == []
    requires from != "" && from != to && miner != from && miner != to
    requires amount < 0 && GetBalance(s, from) >= 0
    ensures var r := CreateTransaction(s, id, from, to, amount, ts);
      var m := Mine(r.state, hash, miner, rewardId, rewardTimestamp, blockTimestamp, fuel);
      && r.result.Ok?
      && (m.result.Ok? ==>
            && GetBalance(m.state, from) == GetBalance(s, from) - amount
            && GetBalance(m.state, to) == GetBalance(s, to) + amount)
  {
    var r := CreateTransaction(s, id, from, to, amount, ts);
    var m := Mine(r.state, hash, miner, rewardId, rewardTimestamp, blockTimestamp, fuel);
    assert r.state.pending == [] + [r.result.value];
    CreditsAppend([], r.result.value, from);
    CreditsAppend([], r.result.value, to);
    if m.result.Ok? {
      MineBalances(r.state, hash, miner, rewardId, rewardTimestamp, blockTimestamp, fuel);
    }
  }

  /** The sender test is truthiness, so a transfer from the empty address is
      admitted against that address's balance but never debited: mining it
      grows the supply by the reward plus the transferred amount. */
  lemma {:induction false} EmptySenderMints(s: State, hash: Hasher, to: Address, id: string, amount: int, ts: int,
                                            miner: Address, rewardId: string, rewardTimestamp: int,
                                            blockTimestamp: int, fuel: nat)
    requires |s.blocks| > 0 && s.pending == []
    requires amount <= GetBalance(s, "")
    ensures var r := CreateTransaction(s, id, "", to, amount, ts);
      var m := Mine(r.state, hash, miner, rewardId, rewardTimestamp, blockTimestamp, fuel);
      && r.result.Ok?
      && (m.result.Ok? ==> Total(m.state.balances) == Total(s.balances) + MiningReward + amount)
  {
    var r := CreateTransaction(s, id, "", to, amount, ts);
    var m := Mine(r.state, hash, miner, rewardId, rewardTimestamp, blockTimestamp, fuel);
    assert r.state.pending == [r.result.value];
    assert Minted(r.state.pending) == amount;
    if m.result.Ok? {
      MineBalances(r.state, hash, miner, rewardId, rewardTimestamp, blockTimestamp, fuel);
    }
  }

  /** Registration overwrites rather than credits, so it changes the supply
      by the allowance minus whatever the derived address held before:
      re-registering a funded key under a new name destroys its funds. */
  lemma CreateUserSupply(s: State, derive: Deriver, username: string, publicKey: string, createdAt: int)
    requires CreateUser(s, derive, username, publicKey, createdAt).result.Ok?
    ensures Total(CreateUser(s, derive, username, publicKey, createdAt).state.balances)
         == Total(s.balances) - GetBalance(s, derive(publicKey)) + StartingAllowance
  {
    TotalUpdate(s.balances, derive(publicKey), StartingAllowance);
  }

  /** Mining with an empty pool yields a block holding exactly the reward,
      and the chain grows by one block. */
  lemma MineEmptyPool(s: State, hash: Hasher, miner: Address, rewardId: string, rewardTimestamp: int,
                      blockTimestamp: int, fuel: nat)
    requires Valid(s) && s.pending == []
    requires Mine(s, hash, miner, rewardId, rewardTimestamp, blockTimestamp, fuel).result.Ok?
    ensures var m := Mine(s, hash, miner, rewardId, rewardTimestamp, blockTimestamp, fuel);
      && m.result.value.txs == [Tx(rewardId, None, miner, MiningReward, rewardTimestamp)]
      && Info(m.state).blockHeight == Info(s).blockHeight + 1
      && GetBalance(m.state, miner) == GetBalance(s, miner) + MiningReward
  {
    MineBalances(s, hash, miner, rewardId, rewardTimestamp, blockTimestamp, fuel);
  }

  /** The walkthrough: alice and bob register with 1000 each; a transfer of
      300 from alice to bob is admitted; mining with alice as miner yields
      block 1 holding the transfer and the reward, leaving alice with 800 and
      bob with 1300; a transfer of 10000 from alice is then refused without
      touching the pool; registering "alice" again is refused. */
  lemma {:induction false} Walkthrough(hash: Hasher, derive: Deriver, fuel: nat)
    requires derive("pk-a") != derive("pk-b") && derive("pk-a") != ""
    ensures var alice := derive("pk-a");
      var bob := derive("pk-b");
      var s1 := CreateUser(Init(hash, 0, 0), derive, "alice", "pk-a", 1);
      var s2 := CreateUser(s1.state, derive, "bob", "pk-b", 2);
      var t := CreateTransaction(s2.state, "t1", alice, bob, 300, 3);
      var m := Mine(t.state, hash, alice, "r1", 4, 5, fuel);
      && s1.result.Ok? && s2.result.Ok?
      && GetBalance(s2.state, alice) == 1000 && GetBalance(s2.state, bob) == 1000
      && t.result.Ok? && |t.state.pending| == 1
      && CreateUser(s2.state, derive, "alice", "pk-c", 6).result == Err(DuplicateUser)
      && (m.result.Ok? ==>
            && m.result.value.index == 1
            && |m.result.value.txs| == 2
            && GetBalance(m.state, alice) == 800
            && GetBalance(m.state, bob) == 1300
            && CreateTransaction(m.state, "t2", alice, bob, 10000, 7).result == Err(InsufficientFunds)
            && CreateTransaction(m.state, "t2", alice, bob, 10000, 7).state.pending == [])
  {
    var alice := derive("pk-a");
    var bob := derive("pk-b");
    var s1 := CreateUser(Init(hash, 0, 0), derive, "alice", "pk-a", 1);
    var s2 := CreateUser(s1.state, derive, "bob", "pk-b", 2);
    var t := CreateTransaction(s2.state, "t1", alice, bob, 300, 3);
    var m := Mine(t.state, hash, alice, "r1", 4, 5, fuel);
    assert s1.state.users[0].username == "alice";
    assert t.state.pending == [] + [t.result.value];
    CreditsAppend([], t.result.value, alice);
    CreditsAppend([], t.result.value, bob);
    if m.result.Ok? {
      MineBalances(t.state, hash, alice, "r1", 4, 5, fuel);
    }
  }
}
