/** The address ledger: a map from address to a signed balance, and the
    sequential application of a block's transactions to it. */
module Ledger {
  import opened Types

  type Balances = map<Address, int>

  /** Balance lookup; an address never written reads as 0. */
  function Balance(m: Balances, a: Address): (b: int)
    ensures a in m ==> b == m[a]
    ensures a !in m ==> b == 0
  {
    if a in m then m[a] else 0
  }

  /** What one transaction adds to the balance of `a`. */
  function Credited(tx: Tx, a: Address): int {
    if tx.to == a then tx.amount else 0
  }

  /** What one transaction takes from the balance of `a`. */
  function Debited(tx: Tx, a: Address): int {
    if tx.HasSender() && tx.from.value == a then tx.amount else 0
  }

  /** Total credited to `a` by a sequence of transactions. */
  function Credits(txs: seq<Tx>, a: Address): int {
    if txs == [] then 0 else Credited(txs[0], a) + Credits(txs[1..], a)
  }

  /** Total debited from `a` by a sequence of transactions. */
  function Debits(txs: seq<Tx>, a: Address): int {
    if txs == [] then 0 else Debited(txs[0], a) + Debits(txs[1..], a)
  }

  /** Amount created out of nothing: transactions that debit no sender. */
  function Minted(txs: seq<Tx>): int {
    if txs == [] then 0
    else (if txs[0].HasSender() then 0 else txs[0].amount) + Minted(txs[1..])
  }

  /** Applies one transaction: first debit the sender (if any), then credit
      the recipient, each reading the balance current at that moment. */
  function ApplyTx(m: Balances, tx: Tx): (m': Balances)
    ensures forall a :: Balance(m', a) == Balance(m, a) + Credited(tx, a) - Debited(tx, a)
  {
    var m1 := if tx.HasSender() then m[tx.from.value := Balance(m, tx.from.value) - tx.amount] else m;
    m1[tx.to := Balance(m1, tx.to) + tx.amount]
  }

  /** Applies the transactions in order. Every address ends at its starting
      balance plus everything credited to it minus everything debited from it. */
  function ApplyTxs(m: Balances, txs: seq<Tx>): (m': Balances)
    ensures forall a :: Balance(m', a) == Balance(m, a) + Credits(txs, a) - Debits(txs, a)
    decreases |txs|
  {
    if txs == [] then m else ApplyTxs(ApplyTx(m, txs[0]), txs[1..])
  }

  /** A self-transfer leaves its address's balance where it was. */
  lemma SelfTransferUnchanged(m: Balances, tx: Tx)
    requires tx.HasSender() && tx.from.value == tx.to
    ensures Balance(ApplyTx(m, tx), tx.to) == Balance(m, tx.to)
    ensures forall a :: Balance(ApplyTx(m, tx), a) == Balance(m, a)
  {
  }

  /** Applying a concatenation is applying its parts one after the other. */
  lemma {:induction false} ApplyTxsConcat(m: Balances, xs: seq<Tx>, ys: seq<Tx>)
    ensures ApplyTxs(m, xs + ys) == ApplyTxs(ApplyTxs(m, xs), ys)
    decreases |xs|
  {
    if xs == [] {
      assert xs + ys == ys;
    } else {
      assert (xs + ys)[0] == xs[0];
      assert (xs + ys)[1..] == xs[1..] + ys;
      ApplyTxsConcat(ApplyTx(m, xs[0]), xs[1..], ys);
    }
  }

  lemma {:induction false} CreditsAppend(txs: seq<Tx>, tx: Tx, a: Address)
    ensures Credits(txs + [tx], a) == Credits(txs, a) + Credited(tx, a)
    ensures Debits(txs + [tx], a) == Debits(txs, a) + Debited(tx, a)
    ensures Minted(txs + [tx]) == Minted(txs) + (if tx.HasSender() then 0 else tx.amount)
    decreases |txs|
  {
    if txs == [] {
      assert txs + [tx] == [tx];
    } else {
      assert (txs + [tx])[1..] == txs[1..] + [tx];
      CreditsAppend(txs[1..], tx, a);
    }
  }

  // ---------------------------------------------------------------------
  // Supply: the sum of all balances.

  ghost function Pick(m: Balances): (a: Address)
    requires m != map[]
    ensures a in m
  {
    var a :| a in m; a
  }

  /** The sum of all stored balances. */
  ghost function Total(m: Balances): int
    decreases m.Keys
  {
    if m == map[] then 0 else var a := Pick(m); m[a] + Total(m - {a})
  }

  lemma {:induction false} TotalRemove(m: Balances, a: Address)
    requires a in m
    ensures Total(m) == m[a] + Total(m - {a})
    decreases m.Keys
  {
    var k := Pick(m);
    if k != a {
      TotalRemove(m - {k}, a);
      TotalRemove(m - {a}, k);
      assert m - {k} - {a} == m - {a} - {k};
    }
  }

  /** Overwriting one balance changes the supply by the difference. */
  lemma TotalUpdate(m: Balances, a: Address, v: int)
    ensures Total(m[a := v]) == Total(m) - Balance(m, a) + v
  {
    TotalRemove(m[a := v], a);
    if a in m {
      TotalRemove(m, a);
      assert m[a := v] - {a} == m - {a};
    } else {
      assert m[a := v] - {a} == m;
    }
  }

  /** A transfer with a sender moves value; one without a sender mints it. */
  lemma TotalApplyTx(m: Balances, tx: Tx)
    ensures Total(ApplyTx(m, tx)) == Total(m) + (if tx.HasSender() then 0 else tx.amount)
  {
    var m1 := if tx.HasSender() then m[tx.from.value := Balance(m, tx.from.value) - tx.amount] else m;
    if tx.HasSender() {
      TotalUpdate(m, tx.from.value, Balance(m, tx.from.value) - tx.amount);
    }
    TotalUpdate(m1, tx.to, Balance(m1, tx.to) + tx.amount);
  }

  /** Applying a block's transactions grows the supply by exactly the minted amount. */
  lemma {:induction false} TotalApplyTxs(m: Balances, txs: seq<Tx>)
    ensures Total(ApplyTxs(m, txs)) == Total(m) + Minted(txs)
    decreases |txs|
  {
    if txs != [] {
      TotalApplyTx(m, txs[0]);
      TotalApplyTxs(ApplyTx(m, txs[0]), txs[1..]);
    }
  }
}
