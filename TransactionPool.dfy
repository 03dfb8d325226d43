/**
 * The pending-transaction pool: an insertion-ordered list, appended at the end,
 * from which a removal takes out the first value-equal occurrence.
 */
module Pool {
  import opened Transactions

  /** `List.remove(Object)`: the list without its first element equal to `tx`. */
  function RemoveFirst(s: seq<Transaction>, tx: Transaction): (r: seq<Transaction>)
    ensures tx !in s ==> r == s
    ensures |r| == if tx in s then |s| - 1 else |s|
  {
    if s == [] then []
    else if s[0] == tx then s[1..]
    else [s[0]] + RemoveFirst(s[1..], tx)
  }

  /** Removing each of `txs`, one at a time and in order. */
  function RemoveEach(s: seq<Transaction>, txs: seq<Transaction>): seq<Transaction>
    decreases |txs|
  {
    if txs == [] then s else RemoveEach(RemoveFirst(s, txs[0]), txs[1..])
  }

  /** Removal takes out one copy of `tx`, if there is one, and nothing else. */
  lemma {:induction false} RemoveFirstMultiset(s: seq<Transaction>, tx: Transaction)
    ensures multiset(RemoveFirst(s, tx)) == multiset(s) - multiset{tx}
  {
    if s != [] {
      assert s == [s[0]] + s[1..];
      if s[0] != tx {
        RemoveFirstMultiset(s[1..], tx);
      }
    }
  }

  lemma MultisetDifferenceTwice(a: multiset<Transaction>, b: multiset<Transaction>, c: multiset<Transaction>)
    ensures (a - b) - c == a - (b + c)
  {
    forall t ensures ((a - b) - c)[t] == (a - (b + c))[t] { }
  }

  /** Removing a batch takes out one copy of each of its transactions that is pending. */
  lemma {:induction false} RemoveEachMultiset(s: seq<Transaction>, txs: seq<Transaction>)
    ensures multiset(RemoveEach(s, txs)) == multiset(s) - multiset(txs)
    decreases |txs|
  {
    if txs != [] {
      var tx, rest := txs[0], txs[1..];
      var afterFirst := RemoveFirst(s, tx);
      RemoveFirstMultiset(s, tx);
      RemoveEachMultiset(afterFirst, rest);
      assert txs == [tx] + rest;
      calc {
        multiset(RemoveEach(s, txs));
        multiset(RemoveEach(afterFirst, rest));
        multiset(afterFirst) - multiset(rest);
        (multiset(s) - multiset{tx}) - multiset(rest);
        { MultisetDifferenceTwice(multiset(s), multiset{tx}, multiset(rest)); }
        multiset(s) - (multiset{tx} + multiset(rest));
        multiset(s) - multiset(txs);
      }
    }
  }

  /** Exactly the first occurrence goes; everything before and after it keeps its order. */
  lemma {:induction false} RemoveFirstDeletesFirstOccurrence(s: seq<Transaction>, tx: Transaction, i: nat)
    requires i < |s| && s[i] == tx && tx !in s[..i]
    ensures RemoveFirst(s, tx) == s[..i] + s[i + 1..]
  {
    if i > 0 {
      assert s[0] != tx by { assert s[0] == s[..i][0]; }
      assert tx !in s[1..][..i - 1] by { assert s[1..][..i - 1] == s[..i][1..]; }
      RemoveFirstDeletesFirstOccurrence(s[1..], tx, i - 1);
      assert s[..i] == [s[0]] + s[1..][..i - 1];
      assert s[i + 1..] == s[1..][i..];
    }
  }

  /** Adding a transaction that was not pending and removing it again restores the pool. */
  lemma {:induction false} AddThenRemoveRestores(s: seq<Transaction>, tx: Transaction)
    requires tx !in s
    ensures RemoveFirst(s + [tx], tx) == s
  {
    assert (s + [tx])[..|s|] == s;
    RemoveFirstDeletesFirstOccurrence(s + [tx], tx, |s|);
    assert (s + [tx])[|s| + 1..] == [];
  }

  /** Removing one more transaction at the end of the batch. */
  lemma {:induction false} RemoveEachSnoc(s: seq<Transaction>, txs: seq<Transaction>, tx: Transaction)
    ensures RemoveEach(s, txs + [tx]) == RemoveFirst(RemoveEach(s, txs), tx)
    decreases |txs|
  {
    if txs == [] {
      assert ([] + [tx])[1..] == [];
    } else {
      assert (txs + [tx])[0] == txs[0];
      assert (txs + [tx])[1..] == txs[1..] + [tx];
      RemoveEachSnoc(RemoveFirst(s, txs[0]), txs[1..], tx);
    }
  }

  /** Removing every pending transaction, in pool order, empties the pool. */
  lemma {:induction false} RemoveEachOwnContents(s: seq<Transaction>)
    ensures RemoveEach(s, s) == []
    decreases |s|
  {
    if s != [] {
      RemoveEachOwnContents(s[1..]);
    }
  }

  class TransactionPool {
    var pendingTransactions: seq<Transaction>

    constructor ()
      ensures pendingTransactions == []
    {
      pendingTransactions := [];
    }

    /** Appends `tx`; duplicates are kept and nothing is validated. */
    method AddTransaction(tx: Transaction)
      modifies this
      ensures pendingTransactions == old(pendingTransactions) + [tx]
    {
      pendingTransactions := pendingTransactions + [tx];
    }

    /** The pending transactions in insertion order. */
    method GetPendingTransactions() returns (txs: seq<Transaction>)
      ensures txs == pendingTransactions
    {
      txs := pendingTransactions;
    }

    /** Removes the first pending transaction equal to `tx`; a no-op when there is none. */
    method RemoveTransaction(tx: Transaction)
      modifies this
      ensures pendingTransactions == RemoveFirst(old(pendingTransactions), tx)
    {
      pendingTransactions := RemoveFirst(pendingTransactions, tx);
    }
  }
}
