/**
 * A block of the ledger: its six fields, the digest over five of them, and the
 * setters that mining uses.
 */
module Blocks {
  import opened Text
  import opened Transactions

  /** The digest function: SHA-256 rendered as hex in the system, left uninterpreted here. */
  type Hasher = string -> string

  /** One hashed field before rendering: a decimal number, text taken as is, or a transaction list. */
  datatype Field = Decimal(value: int) | Verbatim(text: string) | Listing(transactions: seq<Transaction>)

  function RenderField(f: Field): string
  {
    match f
    case Decimal(v) => IntToString(v)
    case Verbatim(t) => t
    case Listing(txs) => RenderList(txs)
  }

  /** The rendered fields, concatenated in order with no separators. */
  function RenderFields(fields: seq<Field>): string
  {
    if fields == [] then "" else RenderFields(fields[..|fields| - 1]) + RenderField(fields[|fields| - 1])
  }

  /**
   * The five hashed fields in hashing order: index, timestamp (its decimal
   * millisecond count), previous digest, transaction list, nonce.
   */
  function HashedFields(index: int, timestamp: int, previousHash: string, transactions: seq<Transaction>, nonce: int): seq<Field>
  {
    [Decimal(index), Decimal(timestamp), Verbatim(previousHash), Listing(transactions), Decimal(nonce)]
  }

  /** The text that is hashed. */
  function Serialize(index: int, timestamp: int, previousHash: string, transactions: seq<Transaction>, nonce: int): string
  {
    RenderFields(HashedFields(index, timestamp, previousHash, transactions, nonce))
  }

  /** The digest of a block whose five hashed fields have the given values. */
  function ContentHash(H: Hasher, index: int, timestamp: int, previousHash: string, transactions: seq<Transaction>, nonce: int): string
  {
    H(Serialize(index, timestamp, previousHash, transactions, nonce))
  }

  class Block {
    var index: int
    var timestamp: int
    var previousHash: string
    var currentHash: string
    var transactions: seq<Transaction>
    var nonce: int

    /** Stores the given fields, takes `now` as the timestamp and stamps the block with its own digest. */
    constructor (index: int, previousHash: string, transactions: seq<Transaction>, nonce: int, now: int, H: Hasher)
      ensures this.index == index && this.previousHash == previousHash
      ensures this.transactions == transactions && this.nonce == nonce
      ensures timestamp == now
      ensures currentHash == ContentHash(H, index, now, previousHash, transactions, nonce)
      ensures ValidateBlock(H)
    {
      this.index := index;
      this.timestamp := now;
      this.previousHash := previousHash;
      this.transactions := transactions;
      this.nonce := nonce;
      this.currentHash := ContentHash(H, index, now, previousHash, transactions, nonce);
    }

    /** The digest of the current field values; `currentHash` is not an input. */
    function CalculateHash(H: Hasher): string
      reads this
    {
      ContentHash(H, index, timestamp, previousHash, transactions, nonce)
    }

    /** The stored digest agrees with a fresh recomputation. */
    predicate ValidateBlock(H: Hasher)
      reads this
    {
      currentHash == CalculateHash(H)
    }

    method SetNonce(n: int)
      modifies this
      ensures nonce == n
      ensures index == old(index) && timestamp == old(timestamp) && previousHash == old(previousHash)
      ensures transactions == old(transactions) && currentHash == old(currentHash)
    {
      nonce := n;
    }

    method SetCurrentHash(h: string)
      modifies this
      ensures currentHash == h
      ensures index == old(index) && timestamp == old(timestamp) && previousHash == old(previousHash)
      ensures transactions == old(transactions) && nonce == old(nonce)
    {
      currentHash := h;
    }

    method SetPreviousHash(p: string)
      modifies this
      ensures previousHash == p
      ensures index == old(index) && timestamp == old(timestamp) && currentHash == old(currentHash)
      ensures transactions == old(transactions) && nonce == old(nonce)
    {
      previousHash := p;
    }
  }

  /**
   * The digest is a function of the five hashed fields alone: two blocks that
   * agree on them have the same digest, whatever their stored `currentHash`.
   */
  lemma HashDeterminedByContent(a: Block, b: Block, H: Hasher)
    requires a.index == b.index && a.timestamp == b.timestamp && a.previousHash == b.previousHash
    requires a.transactions == b.transactions && a.nonce == b.nonce
    ensures a.CalculateHash(H) == b.CalculateHash(H)
  {
  }

  /** Storing the recomputed digest (the mining path) makes a block self-consistent. */
  twostate lemma StoringDigestValidates(b: Block, H: Hasher)
    requires b.index == old(b.index) && b.timestamp == old(b.timestamp) && b.previousHash == old(b.previousHash)
    requires b.transactions == old(b.transactions) && b.nonce == old(b.nonce)
    requires b.currentHash == old(b.CalculateHash(H))
    ensures b.ValidateBlock(H)
  {
  }

  /** Serializations that differ only in a one-digit nonce are different texts. */
  lemma {:induction false} SerializeNonceDigitsDiffer(index: int, timestamp: int, previousHash: string, transactions: seq<Transaction>, n: nat, m: nat)
    requires n < 10 && m < 10 && n != m
    ensures Serialize(index, timestamp, previousHash, transactions, n) != Serialize(index, timestamp, previousHash, transactions, m)
  {
    var withN := HashedFields(index, timestamp, previousHash, transactions, n);
    var withM := HashedFields(index, timestamp, previousHash, transactions, m);
    var prefix := RenderFields(withN[..4]);
    assert withN[..4] == withM[..4];
    assert IntToString(n) == [Digit(n)] && IntToString(m) == [Digit(m)];
    assert Serialize(index, timestamp, previousHash, transactions, n) == prefix + [Digit(n)];
    assert Serialize(index, timestamp, previousHash, transactions, m) == prefix + [Digit(m)];
    assert (prefix + [Digit(n)])[|prefix|] == Digit(n);
    assert (prefix + [Digit(m)])[|prefix|] == Digit(m);
  }

  /** The hashed text is the five fields rendered and concatenated in hashing order. */
  lemma {:induction false} SerializeInFieldOrder(index: int, timestamp: int, previousHash: string, transactions: seq<Transaction>, nonce: int)
    ensures Serialize(index, timestamp, previousHash, transactions, nonce)
         == IntToString(index) + IntToString(timestamp) + previousHash + RenderList(transactions) + IntToString(nonce)
  {
    var a, b, c, d, e := Decimal(index), Decimal(timestamp), Verbatim(previousHash), Listing(transactions), Decimal(nonce);
    var s1, s2, s3, s4 := IntToString(index), IntToString(timestamp), previousHash, RenderList(transactions);
    assert RenderFields([a]) == s1 by {
      assert [a][..0] == [];
    }
    assert RenderFields([a, b]) == s1 + s2 by {
      assert [a, b][..1] == [a];
    }
    assert RenderFields([a, b, c]) == s1 + s2 + s3 by {
      assert [a, b, c][..2] == [a, b];
    }
    assert RenderFields([a, b, c, d]) == s1 + s2 + s3 + s4 by {
      assert [a, b, c, d][..3] == [a, b, c];
    }
    assert HashedFields(index, timestamp, previousHash, transactions, nonce)[..4] == [a, b, c, d];
  }

  /**
   * A block's digest is `H` of its index, timestamp, previous digest,
   * transaction list and nonce, rendered and concatenated in that order; the
   * stored `currentHash` does not enter it.
   */
  lemma CalculateHashInFieldOrder(b: Block, H: Hasher)
    ensures b.CalculateHash(H)
         == H(IntToString(b.index) + IntToString(b.timestamp) + b.previousHash + RenderList(b.transactions) + IntToString(b.nonce))
  {
    SerializeInFieldOrder(b.index, b.timestamp, b.previousHash, b.transactions, b.nonce);
  }

  /** A block validates exactly when its stored digest is `H` of its freshly rendered fields. */
  lemma ValidateBlockMeansFreshDigest(b: Block, H: Hasher)
    ensures b.ValidateBlock(H)
        <==> b.currentHash == H(IntToString(b.index) + IntToString(b.timestamp) + b.previousHash + RenderList(b.transactions) + IntToString(b.nonce))
  {
    CalculateHashInFieldOrder(b, H);
  }
}
