# Ledger engine model

A Dafny model of the core of a single-node ledger engine written in Java. The engine keeps
a hash-linked chain of blocks that starts at a fixed genesis block. It also keeps a
single-writer pool of pending transactions and the rules that join the two:
- the acceptance rule: index, link and proof-of-work prefix;
- the mining loop;
- the chain rescan;
- the difficulty controller.

Layout, one module per component:

- `Wrappers.dfy`: `Option` and `Result`.
- `Text.dfy`: decimal rendering, `startsWith`, `"0".repeat(n)`, and the proof-of-work
  predicate `MeetsDifficulty` with its lemmas.
- `Transactions.dfy`: the transaction record and its textual rendering.
- `Block.dfy`: the serialisation of the five hashed fields and the class `Block`, with its
  constructor, `CalculateHash`, `ValidateBlock` and the setters used by mining.
- `TransactionPool.dfy`: the class `TransactionPool` over an insertion-ordered
  `seq<Transaction>`, and the functions `RemoveFirst` (the `List.remove(Object)` rule) and
  `RemoveEach`, with their lemmas.
- `Blockchain.dfy`: the class `Blockchain`. Its invariant `Valid()` says:
  - the chain is non-empty and starts at the genesis block;
  - index equals position;
  - each block links to the digest of the block before it;
  - each appended digest starts with a '0';
  - difficulty is at least 1.

  The module also holds the acceptance rule, mining (as written and corrected), the
  rescan and the difficulty controller.

What is a parameter rather than part of the model:
- The digest function (SHA-256 as hex) is the parameter `H: string -> string`. Nothing
  about it is assumed.
- The clock is the parameter `now` in milliseconds, for the block constructor and for
  mining.
- The injected pool is a constructor parameter of the engine.

Three behaviours of the code are modelled as written:
- Difficulty is retargeted after every mined block once the chain has 11 blocks.
- The mining loop never writes its nonce into the block. `Blockchain.MineBlock` models this
  as written, and "## Findings" records the corrected loop.
- The hashed text is Java's string concatenation of the index, the timestamp's `toString`,
  the previous digest, the transaction list's `toString` and the nonce, with no separators.

## Model

| member | source | states |
|---|---|---|
| Ledger.Blockchain.constructor | src/main/java/com/amarghad/ledger/service/WithPoolBlockchain.java:23-35 | a fresh engine holds exactly one block: index 0, previous digest "0", no transactions, nonce 0, timestamp `now`, self-consistent digest. Difficulty is 10 and the invariant holds |
| Ledger.CreateGenesisBlock | src/main/java/com/amarghad/ledger/service/WithPoolBlockchain.java:32-35 | the genesis block is a new block with index 0, previous digest "0", an empty list and nonce 0, and its digest matches its fields |
| Ledger.Blockchain.IsValidBlock | src/main/java/com/amarghad/ledger/service/WithPoolBlockchain.java:48-65 | on a valid engine, a block is acceptable iff its index is the chain length, it links to the tail's digest and its digest meets the current difficulty. An acceptable block is never already in the chain |
| Ledger.Blockchain.AddBlock | src/main/java/com/amarghad/ledger/service/WithPoolBlockchain.java:38-46 | on success: returns the block, the chain becomes old chain + [block], and the pool is the old pool with each of the block's transactions removed once, in order. A rejected block yields `InvalidBlock` with chain and pool unchanged. The invariant (index = position, linkage, genesis, difficulty at least 1) is preserved |
| Ledger.Blockchain.MineBlock | src/main/java/com/amarghad/ledger/service/WithPoolBlockchain.java:67-95 | the as-written mining: a block is produced iff the nonce-0 digest over (chain length, `now`, tail digest, pending transactions) meets the difficulty. The produced block is appended, has nonce 0 and a self-consistent digest, the pool is emptied and the difficulty is retargeted. Otherwise nothing changes |
| Ledger.SearchNonceAsWritten | src/main/java/com/amarghad/ledger/service/WithPoolBlockchain.java:79-86 | the loop exits iff the block's initial digest has the prefix. It then exits in round 0 with nonce 0 and that digest. Otherwise it uses up every round it is given |
| Ledger.Blockchain.AppendMinedBlock | src/main/java/com/amarghad/ledger/service/WithPoolBlockchain.java:91-93 | a mined block over the tail and the whole pool is always accepted, the pool is left empty, and the difficulty is retargeted from the new chain |
| Ledger.SearchNonce | src/main/java/com/amarghad/ledger/service/WithPoolBlockchain.java:79-88 | the corrected loop: the nonce found is the least one whose digest has the prefix (no smaller nonce qualifies). Without a nonce up to the budget, none qualifies. The other fields are untouched |
| Ledger.Blockchain.MineBlockCorrected | src/main/java/com/amarghad/ledger/service/WithPoolBlockchain.java:67-95 | mining with the corrected loop: the appended block carries the least qualifying nonce and a digest that meets the difficulty and matches its fields. If it returns none, no nonce up to the budget qualifies and nothing changes |
| Ledger.NoQualifyingNonceBelowIff | src/main/java/com/amarghad/ledger/service/WithPoolBlockchain.java:81-86 | "no nonce below n qualifies" means that for every k < n, the digest with nonce k lacks the prefix |
| Ledger.StaleSearchMissesQualifyingNonce | src/main/java/com/amarghad/ledger/service/WithPoolBlockchain.java:79-86 | for every block content and every difficulty of at least 1, some digest function makes nonce 0 fail and nonce 1 succeed |
| Ledger.Blockchain.ValidateChain | src/main/java/com/amarghad/ledger/service/WithPoolBlockchain.java:98-115 | read-only; true iff every block after the genesis block has a digest matching its fields and links to its predecessor's digest. Genesis, indices and proof of work are not checked |
| Ledger.Blockchain.RescanNeedsOnlyDigests | src/main/java/com/amarghad/ledger/service/WithPoolBlockchain.java:98-115 | on a chain built through the engine, the rescan passes iff every non-genesis block is self-consistent |
| Ledger.Blockchain.AdjustDifficulty | src/main/java/com/amarghad/ledger/service/WithPoolBlockchain.java:120-141 | with fewer than 11 blocks the difficulty is unchanged. Otherwise it is retargeted from the time between the newest block and the block 10 places before it. Chain and invariant are kept |
| Ledger.Retarget | src/main/java/com/amarghad/ledger/service/WithPoolBlockchain.java:128-140 | the result is at least 1. It is one more when 0 <= elapsed < 10 (the double test 10/elapsed > 1). Otherwise it is one less, floored at 1. From a difficulty of at least 1 it rises exactly when mining was too fast |
| Ledger.Blockchain.AddTransaction | src/main/java/com/amarghad/ledger/service/WithPoolBlockchain.java:143-146 | delegates to the pool: pending becomes old pending + [tx] |
| Ledger.Blockchain.GetAllBlocks | src/main/java/com/amarghad/ledger/service/WithPoolBlockchain.java:148-151 | returns the chain in order |
| Text.MeetsDifficultyIff | src/main/java/com/amarghad/ledger/service/WithPoolBlockchain.java:62-63 | a digest starts with `"0".repeat(d)` iff it has at least d characters and the first d are all '0' |
| Text.MeetsDifficultyMonotone | src/main/java/com/amarghad/ledger/service/WithPoolBlockchain.java:62-63 | a digest that meets a difficulty meets every smaller one, so every appended digest starts with '0' |
| Blocks.Block.constructor | src/main/java/com/amarghad/ledger/entities/Block.java:21-29 | index, previous digest, transactions and nonce are stored as given, the timestamp is `now`, and the stored digest equals a fresh recomputation, so `ValidateBlock` holds |
| Blocks.HashDeterminedByContent | src/main/java/com/amarghad/ledger/entities/Block.java:31-34 | the digest depends only on (index, timestamp, previous digest, transactions, nonce). Blocks equal on those fields hash equally, whatever their stored digest |
| Blocks.StoringDigestValidates | src/main/java/com/amarghad/ledger/entities/Block.java:36-39 | storing the recomputed digest while the other fields stay the same makes `ValidateBlock` true |
| Blocks.SerializeNonceDigitsDiffer | src/main/java/com/amarghad/ledger/entities/Block.java:32 | two serialisations that differ only in a one-digit nonce are different texts: the nonce is the last hashed field |
| Blocks.Block.SetNonce | src/main/java/com/amarghad/ledger/entities/Block.java:12-19 | the setter changes the nonce and no other field |
| Blocks.Block.SetCurrentHash | src/main/java/com/amarghad/ledger/entities/Block.java:12-19 | the setter changes the stored digest and no other field |
| Blocks.Block.SetPreviousHash | src/main/java/com/amarghad/ledger/entities/Block.java:12-19 | the setter changes the previous digest and no other field |
| Blocks.SerializeInFieldOrder | src/main/java/com/amarghad/ledger/entities/Block.java:32 | the hashed text is the decimal index, the timestamp, the previous digest, the transaction list's rendering and the decimal nonce, concatenated in that order with no separators |
| Blocks.CalculateHashInFieldOrder | src/main/java/com/amarghad/ledger/entities/Block.java:31-34 | a block's digest is `H` of its index, timestamp, previous digest, transaction list and nonce, rendered and concatenated in that order. `currentHash` is not read |
| Blocks.ValidateBlockMeansFreshDigest | src/main/java/com/amarghad/ledger/entities/Block.java:36-39 | a block validates iff its stored digest equals `H` of its freshly rendered fields |
| Transactions.RenderShape | src/main/java/com/amarghad/ledger/entities/Transaction.java:6-14 | Lombok's `toString` of a transaction starts with `Transaction(sender=`, the sender and `, recipient=`, and ends with `)` |
| Transactions.RenderListEmpty | src/main/java/com/amarghad/ledger/entities/Block.java:32 | the `toString` of an empty transaction list is `[]` |
| Transactions.RenderListSingle | src/main/java/com/amarghad/ledger/entities/Block.java:32 | the `toString` of a one-item list is `[`, the item's `toString` and `]` |
| Transactions.RenderItemsSnoc | src/main/java/com/amarghad/ledger/entities/Block.java:32 | appending a transaction to a non-empty list appends `, ` and its `toString` to the items' text |
| Ledger.MiningTooFastMatchesQuotient | src/main/java/com/amarghad/ledger/service/WithPoolBlockchain.java:131-134 | for every nonzero elapsed time, `0 <= elapsed < 10` holds iff the real quotient `10 / elapsed` exceeds 1 |
| Pool.TransactionPool.constructor | src/main/java/com/amarghad/ledger/service/CollectionBasedTransactionPool.java:13 | a new pool has no pending transactions |
| Pool.TransactionPool.AddTransaction | src/main/java/com/amarghad/ledger/service/CollectionBasedTransactionPool.java:15-18 | pending becomes old pending + [tx]. Duplicates are kept and nothing is validated |
| Pool.TransactionPool.GetPendingTransactions | src/main/java/com/amarghad/ledger/service/CollectionBasedTransactionPool.java:20-23 | returns the pending sequence in insertion order and changes nothing |
| Pool.TransactionPool.RemoveTransaction | src/main/java/com/amarghad/ledger/service/CollectionBasedTransactionPool.java:25-28 | pending becomes `RemoveFirst(old pending, tx)` |
| Pool.RemoveFirst | src/main/java/com/amarghad/ledger/service/CollectionBasedTransactionPool.java:25-28 | removing an absent transaction changes nothing. The length drops by one iff the transaction is present, and otherwise stays the same |
| Pool.RemoveFirstDeletesFirstOccurrence | src/main/java/com/amarghad/ledger/service/CollectionBasedTransactionPool.java:25-28 | exactly the first occurrence is removed, and the elements before and after it keep their order |
| Pool.RemoveFirstMultiset | src/main/java/com/amarghad/ledger/service/CollectionBasedTransactionPool.java:25-28 | as a multiset, removal takes out one copy of tx if there is one, and nothing else |
| Pool.AddThenRemoveRestores | src/main/java/com/amarghad/ledger/service/CollectionBasedTransactionPool.java:15-28 | on a pool without tx, adding tx and then removing it restores the original sequence |
| Pool.RemoveEachSnoc | src/main/java/com/amarghad/ledger/service/WithPoolBlockchain.java:42 | removing a batch one transaction at a time, in order: the batch extended by tx gives the result of the shorter batch with tx then removed once |
| Pool.RemoveEachMultiset | src/main/java/com/amarghad/ledger/service/WithPoolBlockchain.java:42 | draining a block's transactions removes one pending copy of each, as a multiset difference |
| Pool.RemoveEachOwnContents | src/main/java/com/amarghad/ledger/service/WithPoolBlockchain.java:42 | removing every pending transaction, in pool order, leaves the pool empty |

## Left out

- Hashing: SHA-256 and `HashUtil` are not part of this model. The digest is an arbitrary
  function `H`, so no statement about how likely leading zeros are is made.
- Text formats: `Instant.toString()` is replaced by the decimal millisecond count. A
  transaction's amount is an integer rendered with a `.0` suffix, not a Java `double`. Whether
  these concatenations are injective is not studied.
- Clock and console: `Instant.now()` becomes the parameter `now`, and the
  `System.out.println` of the timestamp is dropped.
- Aliasing: the block built by mining receives the pool's live list, and `getPendingTransactions` and `getAllBlocks` return the live lists.
  The model takes snapshots as sequence values instead. In Java, with a non-empty pool, the
  drain after the block is appended removes the first pending transaction from that shared
  list. That also takes it out of the appended block. `forEach` then throws
  `ConcurrentModificationException` before the difficulty is retargeted. Later
  `addTransaction` calls also change that block's list. None of this is modelled: the model
  empties the pool and leaves the block as mined.
- Ledger.Blockchain.MineBlock: the unbounded `while` loop runs for at most `fuel` rounds.
  `None` means no exit within that budget, which for the loop as written holds for every
  budget.
- Ledger.Blockchain.MineBlockCorrected: the same budget applies to the corrected search.
- Ledger.Blockchain.AdjustDifficulty: does not model 32-bit wrap-around of `difficulty += 1`.
  Wrap-around needs about two billion increments.
- Blocks.Block.constructor: the index and nonce are unbounded integers, not 32-bit `int`.
- The double division `10 / timeTaken` is replaced by the integer condition
  `0 <= timeTaken < 10`. `MiningTooFastMatchesQuotient` proves it equal to the real quotient
  test for every nonzero time. For zero, Java's quotient is positive infinity and the
  condition holds as well. Rounding of `long` to `double` is not modelled.
- `DESIRED_MINING_TIME` is declared in the source and never used, so the model has no
  counterpart.
- Spring wiring (`@Autowired`, `@Service`): the pool is passed to the engine's constructor.
- Lookup by index (`getBlockByIndex`) lives in the web controller, which is not part of this
  model. So are the other HTTP endpoints and all wallet and key code.
- Transaction signatures and amounts are never checked, in the source or in the model.
  Nothing keeps a pending transaction out of the blocks already appended.

## Findings

| source | as written | input that shows it | evidently intended | confidence | as-written member | corrected member |
|---|---|---|---|---|---|---|
| src/main/java/com/amarghad/ledger/service/WithPoolBlockchain.java:79-86 | the loop increments a local `nonce` but never stores it in the block before `calculateHash()`, so the digest it tests never changes. The loop exits only if the nonce-0 digest already qualifies | any block content with a digest function under which nonce 0 misses the prefix and nonce 1 meets it (`NonceOneHash`): the loop never exits, yet nonce 1 qualifies | store each tried nonce in the block before rehashing, and keep the first nonce whose digest qualifies | not executed; high | Ledger.SearchNonceAsWritten (exhibited by Ledger.StaleSearchMissesQualifyingNonce) | Ledger.SearchNonce (used by Ledger.Blockchain.MineBlockCorrected) |
