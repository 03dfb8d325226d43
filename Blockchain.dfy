/**
 * The ledger engine: a hash-linked chain of blocks that starts at a fixed
 * genesis block, the pool it drains, the proof-of-work acceptance rule, the
 * mining loop, the chain rescan and the difficulty controller.
 */
module Ledger {
  import opened Wrappers
  import opened Text
  import opened Transactions
  import opened Blocks
  import opened Pool

  /** The difficulty a fresh engine starts with. */
  const InitialDifficulty: nat := 10

  /** How many blocks back the difficulty controller looks. */
  const AdjustmentInterval: nat := 10

  datatype LedgerError = InvalidBlock

  /**
   * The controller's "mining too fast" test, `(double) 10 / elapsed > 1`:
   * true for 0 < elapsed < 10, and for elapsed == 0, where the quotient is
   * positive infinity; false for a negative or a longer elapsed time.
   */
  predicate MiningTooFast(elapsed: int)
  {
    0 <= elapsed < AdjustmentInterval
  }

  /**
   * For every nonzero elapsed time the integer test agrees with the quotient
   * test `10 / elapsed > 1` on reals. (For zero, Java's quotient is positive
   * infinity, which is greater than 1, and `MiningTooFast(0)` holds.)
   */
  lemma MiningTooFastMatchesQuotient(elapsed: int)
    requires elapsed != 0
    ensures MiningTooFast(elapsed) <==> (AdjustmentInterval as real) / (elapsed as real) > 1.0
  {
    var q := (AdjustmentInterval as real) / (elapsed as real);
    if 0 < elapsed < AdjustmentInterval {
      assert q * (elapsed as real) == AdjustmentInterval as real;
      assert q > 1.0;
    } else if elapsed >= AdjustmentInterval {
      assert q * (elapsed as real) == AdjustmentInterval as real;
      assert q <= 1.0;
    } else {
      assert q * (elapsed as real) == AdjustmentInterval as real;
      assert q < 0.0;
    }
  }

  /**
   * The bang-bang rule: one step up when mining was too fast, otherwise one
   * step down, never below 1.
   */
  function Retarget(difficulty: nat, elapsed: int): (r: nat)
    ensures r >= 1
    ensures MiningTooFast(elapsed) ==> r == difficulty + 1
    ensures !MiningTooFast(elapsed) && difficulty >= 2 ==> r == difficulty - 1
    ensures !MiningTooFast(elapsed) && difficulty < 2 ==> r == 1
    ensures difficulty >= 1 ==> (r > difficulty <==> MiningTooFast(elapsed))
  {
    if MiningTooFast(elapsed) then difficulty + 1
    else if difficulty - 1 > 1 then difficulty - 1
    else 1
  }

  /** The fixed first block: index 0, previous digest "0", no transactions, nonce 0. */
  method CreateGenesisBlock(H: Hasher, now: int) returns (genesis: Block)
    ensures fresh(genesis)
    ensures genesis.index == 0 && genesis.previousHash == "0"
    ensures genesis.transactions == [] && genesis.nonce == 0 && genesis.timestamp == now
    ensures genesis.ValidateBlock(H)
  {
    genesis := new Block(0, "0", [], 0, now, H);
  }

  /**
   * The mining loop as the system has it: the counter `nonce` is advanced but
   * never written to the block, so every round recomputes the same digest. The
   * loop runs for at most `fuel` rounds here; it stops early only if the digest
   * qualifies, which happens in round 0 or never.
   */
  method SearchNonceAsWritten(block: Block, H: Hasher, requiredPrefix: string, fuel: nat)
    returns (found: bool, nonce: nat, calculatedHash: string)
    ensures found <==> StartsWith(block.CalculateHash(H), requiredPrefix)
    ensures found ==> nonce == 0 && calculatedHash == block.CalculateHash(H)
    ensures !found ==> nonce == fuel
  {
    calculatedHash := block.CalculateHash(H);
    nonce := 0;
    while !StartsWith(calculatedHash, requiredPrefix) && nonce < fuel
      invariant nonce <= fuel
      invariant calculatedHash == block.CalculateHash(H)
      invariant nonce > 0 ==> !StartsWith(calculatedHash, requiredPrefix)
    {
      nonce := nonce + 1;
      calculatedHash := block.CalculateHash(H);
    }
    found := StartsWith(calculatedHash, requiredPrefix);
  }

  /** No nonce below `n` gives the block content a digest with the required prefix. */
  ghost predicate NoQualifyingNonceBelow(H: Hasher, index: int, timestamp: int, previousHash: string,
                                         transactions: seq<Transaction>, requiredPrefix: string, n: int)
    decreases n
  {
    n <= 0 ||
    (&& NoQualifyingNonceBelow(H, index, timestamp, previousHash, transactions, requiredPrefix, n - 1)
     && !StartsWith(ContentHash(H, index, timestamp, previousHash, transactions, n - 1), requiredPrefix))
  }

  /** `NoQualifyingNonceBelow`, nonce by nonce. */
  lemma {:induction false} NoQualifyingNonceBelowIff(H: Hasher, index: int, timestamp: int, previousHash: string,
                                                     transactions: seq<Transaction>, requiredPrefix: string, n: int)
    ensures NoQualifyingNonceBelow(H, index, timestamp, previousHash, transactions, requiredPrefix, n) <==>
      forall k :: 0 <= k < n ==>
        !StartsWith(ContentHash(H, index, timestamp, previousHash, transactions, k), requiredPrefix)
    decreases n
  {
    if n > 0 {
      NoQualifyingNonceBelowIff(H, index, timestamp, previousHash, transactions, requiredPrefix, n - 1);
    }
  }

  /**
   * The mining loop with the nonce written to the block before each
   * recomputation: it tries 0, 1, 2, ... up to `fuel` and keeps the first
   * nonce whose digest qualifies.
   */
  method SearchNonce(block: Block, H: Hasher, requiredPrefix: string, fuel: nat) returns (found: bool)
    modifies block
    ensures block.index == old(block.index) && block.timestamp == old(block.timestamp)
    ensures block.previousHash == old(block.previousHash) && block.transactions == old(block.transactions)
    ensures block.currentHash == old(block.currentHash)
    ensures 0 <= block.nonce <= fuel
    ensures found <==> StartsWith(block.CalculateHash(H), requiredPrefix)
    ensures NoQualifyingNonceBelow(H, block.index, block.timestamp, block.previousHash, block.transactions,
                                   requiredPrefix, block.nonce)
    ensures !found ==> block.nonce == fuel
  {
    ghost var index, timestamp, previousHash, transactions :=
      block.index, block.timestamp, block.previousHash, block.transactions;
    var nonce := 0;
    block.SetNonce(nonce);
    var calculatedHash := block.CalculateHash(H);
    while !StartsWith(calculatedHash, requiredPrefix) && nonce < fuel
      invariant 0 <= nonce <= fuel
      invariant block.index == index && block.timestamp == timestamp
      invariant block.previousHash == previousHash && block.transactions == transactions
      invariant block.currentHash == old(block.currentHash)
      invariant block.nonce == nonce
      invariant calculatedHash == ContentHash(H, index, timestamp, previousHash, transactions, nonce)
      invariant NoQualifyingNonceBelow(H, index, timestamp, previousHash, transactions, requiredPrefix, nonce)
    {
      nonce := nonce + 1;
      block.SetNonce(nonce);
      calculatedHash := block.CalculateHash(H);
    }
    found := StartsWith(calculatedHash, requiredPrefix);
  }

  /**
   * A digest function under which a block content misses the proof of work
   * at nonce 0 and meets difficulty `d` at nonce 1.
   */
  function NonceOneHash(index: int, timestamp: int, previousHash: string, transactions: seq<Transaction>, d: nat): Hasher
  {
    s => if s == Serialize(index, timestamp, previousHash, transactions, 1) then Zeros(d) else "1"
  }

  /**
   * For every block content and every positive difficulty there is a digest
   * function under which nonce 1 qualifies but nonce 0 does not: the search
   * as written then never finds a nonce, while the corrected search finds 1.
   */
  lemma {:induction false} StaleSearchMissesQualifyingNonce(index: int, timestamp: int, previousHash: string, transactions: seq<Transaction>, d: nat)
    requires d >= 1
    ensures !MeetsDifficulty(ContentHash(NonceOneHash(index, timestamp, previousHash, transactions, d), index, timestamp, previousHash, transactions, 0), d)
    ensures MeetsDifficulty(ContentHash(NonceOneHash(index, timestamp, previousHash, transactions, d), index, timestamp, previousHash, transactions, 1), d)
  {
    var H := NonceOneHash(index, timestamp, previousHash, transactions, d);
    SerializeNonceDigitsDiffer(index, timestamp, previousHash, transactions, 0, 1);
    assert ContentHash(H, index, timestamp, previousHash, transactions, 0) == "1";
    MeetsDifficultyIff("1", d);
    assert "1"[0] != '0';
    assert ContentHash(H, index, timestamp, previousHash, transactions, 1) == Zeros(d);
    MeetsDifficultyIff(Zeros(d), d);
  }

  class Blockchain {
    var chain: seq<Block>
    var difficulty: nat
    const pool: TransactionPool
    const H: Hasher

    /**
     * The engine's invariant: the chain is non-empty and starts at the genesis
     * block, every block's index is its position, every block links to the
     * digest of the one before it, every appended block's digest starts with
     * at least one '0', and the difficulty is at least 1.
     */
    ghost predicate Valid()
      reads this, chain
    {
      && |chain| >= 1
      && difficulty >= 1
      && chain[0].previousHash == "0" && chain[0].transactions == [] && chain[0].nonce == 0
      && (forall i :: 0 <= i < |chain| ==> chain[i].index == i)
      && (forall i :: 1 <= i < |chain| ==> chain[i].previousHash == chain[i - 1].currentHash)
      && (forall i :: 1 <= i < |chain| ==> MeetsDifficulty(chain[i].currentHash, 1))
    }

    /** A fresh engine holds exactly the genesis block and starts at difficulty 10. */
    constructor (hash: Hasher, transactionPool: TransactionPool, now: int)
      ensures Valid()
      ensures H == hash && pool == transactionPool
      ensures |chain| == 1 && fresh(chain[0])
      ensures chain[0].index == 0 && chain[0].previousHash == "0"
      ensures chain[0].transactions == [] && chain[0].nonce == 0 && chain[0].timestamp == now
      ensures chain[0].ValidateBlock(hash)
      ensures difficulty == InitialDifficulty
    {
      var genesis := CreateGenesisBlock(hash, now);
      H := hash;
      pool := transactionPool;
      difficulty := InitialDifficulty;
      chain := [genesis];
    }

    /**
     * The acceptance rule: the block's index follows the tail's, it links to
     * the tail's digest, and its stored digest meets the current difficulty.
     */
    predicate IsValidBlock(b: Block)
      reads this, chain, b
      requires chain != []
      ensures Valid() ==>
        (IsValidBlock(b) <==> b.index == |chain| && b.previousHash == chain[|chain| - 1].currentHash
                               && MeetsDifficulty(b.currentHash, difficulty))
      ensures Valid() && IsValidBlock(b) ==> b !in chain
    {
      var previousBlock := chain[|chain| - 1];
      && b.index == previousBlock.index + 1
      && b.previousHash == previousBlock.currentHash
      && StartsWith(b.currentHash, Zeros(difficulty))
    }

    /**
     * Appends an acceptable block and removes each of its transactions once
     * from the pool; rejects any other block with nothing changed.
     */
    method AddBlock(b: Block) returns (r: Result<Block, LedgerError>)
      requires Valid()
      modifies this, pool
      ensures Valid()
      ensures r.Success? <==> old(IsValidBlock(b))
      ensures r.Success? ==> r.value == b && chain == old(chain) + [b]
      ensures r.Success? ==> pool.pendingTransactions == RemoveEach(old(pool.pendingTransactions), b.transactions)
      ensures r.Failure? ==> r.error == InvalidBlock && chain == old(chain)
      ensures r.Failure? ==> pool.pendingTransactions == old(pool.pendingTransactions)
      ensures difficulty == old(difficulty)
    {
      if !IsValidBlock(b) {
        return Failure(InvalidBlock);
      }
      MeetsDifficultyMonotone(b.currentHash, difficulty, 1);
      chain := chain + [b];
      var txs := b.transactions;
      for i := 0 to |txs|
        invariant chain == old(chain) + [b] && difficulty == old(difficulty)
        invariant pool.pendingTransactions == RemoveEach(old(pool.pendingTransactions), txs[..i])
      {
        assert txs[..i + 1] == txs[..i] + [txs[i]];
        RemoveEachSnoc(old(pool.pendingTransactions), txs[..i], txs[i]);
        pool.RemoveTransaction(txs[i]);
      }
      assert txs[..|txs|] == txs;
      return Success(b);
    }

    /** The elapsed milliseconds between the newest block and the one `AdjustmentInterval` places before it. */
    function ElapsedOverInterval(): int
      reads this, chain
      requires |chain| >= AdjustmentInterval + 1
    {
      chain[|chain| - 1].timestamp - chain[|chain| - 1 - AdjustmentInterval].timestamp
    }

    /**
     * Retargets the difficulty from the time the last `AdjustmentInterval`
     * blocks took, on every call once the chain has that many blocks after
     * the genesis block.
     */
    method AdjustDifficulty()
      requires Valid()
      modifies this`difficulty
      ensures Valid()
      ensures |chain| < AdjustmentInterval + 1 ==> difficulty == old(difficulty)
      ensures |chain| >= AdjustmentInterval + 1 ==> difficulty == Retarget(old(difficulty), ElapsedOverInterval())
    {
      if |chain| < AdjustmentInterval + 1 {
        return;
      }
      var oldBlock := chain[|chain| - AdjustmentInterval - 1];
      var newBlock := chain[|chain| - 1];
      var timeTaken := newBlock.timestamp - oldBlock.timestamp;
      if MiningTooFast(timeTaken) {
        difficulty := difficulty + 1;
      } else {
        difficulty := if difficulty - 1 > 1 then difficulty - 1 else 1;
      }
    }

    /**
     * Mines one block over the pool's pending transactions with the loop as
     * the system has it, timestamped `now`, within `fuel` rounds. A block is
     * produced exactly when its nonce-0 digest already meets the difficulty;
     * it is then appended, the pool is drained and the difficulty retargeted.
     */
    method MineBlock(now: int, fuel: nat) returns (r: Option<Block>)
      requires Valid()
      modifies this, pool
      ensures Valid()
      ensures r.Some? <==>
        MeetsDifficulty(ContentHash(H, old(|chain|), now, old(chain[|chain| - 1].currentHash),
                                    old(pool.pendingTransactions), 0), old(difficulty))
      ensures r.Some? ==> fresh(r.value) && chain == old(chain) + [r.value]
      ensures r.Some? ==> r.value.index == old(|chain|) && r.value.timestamp == now
      ensures r.Some? ==> r.value.previousHash == old(chain[|chain| - 1].currentHash)
      ensures r.Some? ==> r.value.transactions == old(pool.pendingTransactions) && r.value.nonce == 0
      ensures r.Some? ==> r.value.ValidateBlock(H)
      ensures r.Some? ==> pool.pendingTransactions == []
      ensures r.Some? && |chain| < AdjustmentInterval + 1 ==> difficulty == old(difficulty)
      ensures r.Some? && |chain| >= AdjustmentInterval + 1 ==> difficulty == Retarget(old(difficulty), ElapsedOverInterval())
      ensures r.None? ==> chain == old(chain) && difficulty == old(difficulty)
      ensures r.None? ==> pool.pendingTransactions == old(pool.pendingTransactions)
    {
      var tail := chain[|chain| - 1];
      var pending := pool.GetPendingTransactions();
      var block := new Block(|chain|, tail.currentHash, pending, 0, now, H);
      assert block !in chain;
      block.SetPreviousHash(tail.currentHash);
      var requiredPrefix := Zeros(difficulty);
      var found, nonce, calculatedHash := SearchNonceAsWritten(block, H, requiredPrefix, fuel);
      if !found {
        return None;
      }
      block.SetNonce(nonce);
      block.SetCurrentHash(calculatedHash);
      AppendMinedBlock(block);
      return Some(block);
    }

    /**
     * Mining with the corrected loop: the first nonce up to `fuel` whose
     * digest meets the difficulty is stored in the block, which is then
     * appended, the pool drained and the difficulty retargeted.
     */
    method MineBlockCorrected(now: int, fuel: nat) returns (r: Option<Block>)
      requires Valid()
      modifies this, pool
      ensures Valid()
      ensures r.Some? ==> fresh(r.value) && chain == old(chain) + [r.value]
      ensures r.Some? ==> r.value.index == old(|chain|) && r.value.timestamp == now
      ensures r.Some? ==> r.value.previousHash == old(chain[|chain| - 1].currentHash)
      ensures r.Some? ==> r.value.transactions == old(pool.pendingTransactions) && 0 <= r.value.nonce <= fuel
      ensures r.Some? ==> r.value.ValidateBlock(H) && MeetsDifficulty(r.value.currentHash, old(difficulty))
      ensures r.Some? ==> NoQualifyingNonceBelow(H, old(|chain|), now, old(chain[|chain| - 1].currentHash),
                                                 old(pool.pendingTransactions), Zeros(old(difficulty)), r.value.nonce)
      ensures r.Some? ==> pool.pendingTransactions == []
      ensures r.Some? && |chain| < AdjustmentInterval + 1 ==> difficulty == old(difficulty)
      ensures r.Some? && |chain| >= AdjustmentInterval + 1 ==> difficulty == Retarget(old(difficulty), ElapsedOverInterval())
      ensures r.None? ==> NoQualifyingNonceBelow(H, old(|chain|), now, old(chain[|chain| - 1].currentHash),
                                                 old(pool.pendingTransactions), Zeros(old(difficulty)), fuel + 1)
      ensures r.None? ==> chain == old(chain) && difficulty == old(difficulty)
      ensures r.None? ==> pool.pendingTransactions == old(pool.pendingTransactions)
    {
      var tail := chain[|chain| - 1];
      var pending := pool.GetPendingTransactions();
      var block := new Block(|chain|, tail.currentHash, pending, 0, now, H);
      assert block !in chain;
      ghost var index, tailHash := |chain|, tail.currentHash;
      var requiredPrefix := Zeros(difficulty);
      var found := SearchNonce(block, H, requiredPrefix, fuel);
      assert block.index == index && block.previousHash == tailHash && block.transactions == pending;
      if !found {
        return None;
      }
      var calculatedHash := block.CalculateHash(H);
      block.SetCurrentHash(calculatedHash);
      assert block.ValidateBlock(H);
      AppendMinedBlock(block);
      return Some(block);
    }

    /**
     * The common end of both mining loops: a block over the chain tail and the
     * whole pool whose digest meets the difficulty is accepted, the pool is
     * drained, and the difficulty is retargeted.
     */
    method AppendMinedBlock(block: Block)
      requires Valid()
      requires block.index == |chain| && block.previousHash == chain[|chain| - 1].currentHash
      requires MeetsDifficulty(block.currentHash, difficulty)
      requires block.transactions == pool.pendingTransactions
      modifies this, pool
      ensures Valid()
      ensures chain == old(chain) + [block]
      ensures pool.pendingTransactions == []
      ensures |chain| < AdjustmentInterval + 1 ==> difficulty == old(difficulty)
      ensures |chain| >= AdjustmentInterval + 1 ==> difficulty == Retarget(old(difficulty), ElapsedOverInterval())
    {
      var added := AddBlock(block);
      if added.Failure? {
        assert false;
      }
      RemoveEachOwnContents(block.transactions);
      AdjustDifficulty();
    }

    /**
     * Every adjacent pair after the genesis block: the later block's stored
     * digest matches its recomputation and its previous digest is the earlier
     * block's stored digest.
     */
    ghost predicate LinksAndDigestsHold()
      reads this, chain
    {
      forall i :: 1 <= i < |chain| ==> PairHolds(i)
    }

    /** The rescan's check of block `i` against block `i - 1`. */
    ghost predicate PairHolds(i: int)
      requires 1 <= i < |chain|
      reads this, chain
    {
      chain[i].ValidateBlock(H) && chain[i].previousHash == chain[i - 1].currentHash
    }

    /**
     * The rescan: true exactly when every adjacent pair passes. It checks
     * neither the genesis block, nor indices, nor proof of work.
     */
    method ValidateChain() returns (ok: bool)
      ensures ok <==> LinksAndDigestsHold()
    {
      var i := 1;
      while i < |chain|
        invariant 1 <= i && (i <= |chain| || i == 1)
        invariant forall j :: 1 <= j < i ==> PairHolds(j)
      {
        var currentBlock := chain[i];
        var previousBlock := chain[i - 1];
        if currentBlock.currentHash != currentBlock.CalculateHash(H) {
          assert !PairHolds(i);
          return false;
        }
        if currentBlock.previousHash != previousBlock.currentHash {
          assert !PairHolds(i);
          return false;
        }
        i := i + 1;
      }
      return true;
    }

    /**
     * On a chain built through the engine, the rescan reduces to the blocks'
     * own digest checks: the links are already guaranteed.
     */
    lemma RescanNeedsOnlyDigests()
      requires Valid()
      ensures LinksAndDigestsHold() <==> forall i :: 1 <= i < |chain| ==> chain[i].ValidateBlock(H)
    {
      forall i | 1 <= i < |chain|
        ensures PairHolds(i) <==> chain[i].ValidateBlock(H)
      {
        assert chain[i].previousHash == chain[i - 1].currentHash;
      }
    }

    method AddTransaction(tx: Transaction)
      modifies pool
      ensures pool.pendingTransactions == old(pool.pendingTransactions) + [tx]
    {
      pool.AddTransaction(tx);
    }

    method GetAllBlocks() returns (blocks: seq<Block>)
      ensures blocks == chain
    {
      blocks := chain;
    }
  }
}
