# Ledger engine of BlockChain-learn, in Dafny

This project models the `BlockChain` class of `blockchain.py`. The class is an in-memory ledger. It owns
an append-only list of blocks (`self.chain`) and a pool of pending transactions
(`self.current_transactions`). It creates the genesis block on construction. `new_block`
drains the pool into a new block and `new_transactions` appends to the pool. The class also
has the block hash, the `last_block` property, and the linear proof-of-work search with its
`valid_proof` test.

Files:

- `ledger_types.dfy` (module `LedgerTypes`) holds the transaction and block records. It also
  holds the `previous_hash` argument, which is `None`, an integer or a string, together with
  Python's truthiness of that value.
- `decimal.dfy` (module `Decimal`) holds Python's `str` of an `int`, a parser for it, and the
  round trip between them. It renders integers of every size; the interpreter's digit limit
  on that conversion is not modelled (see "## Left out").
- `hashing.dfy` (module `Hashing`) holds `hash` and `valid_proof`. SHA-256 `hexdigest()` and
  `json.dumps(..., sort_keys=True)` are the constants `Sha256Hex` and `CanonicalJson`. Both are
  arrow-typed constants with no definition, so they stand for arbitrary fixed functions.
  The only thing known is `Sha256Hex`'s output format: 64 lower-case hex characters;
  `CanonicalJson` is not constrained at all. Every result holds for any choice of them.
- `ledger_spec.dfy` (module `LedgerSpec`) holds the ledger state as a value and each
  operation as a function on it. It also has lemmas about single calls and about whole
  sequences of calls (`Run`).
- `blockchain.dfy` (module `Engine`) holds the class `BlockChain`. Its fields are updated in
  place, and its methods are proved against `LedgerSpec`. It also has two small client
  methods.

Inputs the source reads from its surroundings are parameters here. The clock reading
`time.time()` is the `timestamp: real` argument of the constructor and of `NewBlock`.

## Model

| member | source | states |
|---|---|---|
| `Engine.BlockChain.constructor` | blockchain.py:21-26 | after construction the chain is exactly one block (index 1, proof 100, previous hash the integer 1, no transactions) and the pool is empty; the ledger is valid |
| `Engine.BlockChain.NewBlock` | blockchain.py:28-48 | appends exactly one block, numbered old length + 1, holding the pool from before the call; earlier blocks unchanged; pool empty afterwards; returns the new last block; may be called on an empty chain only with a truthy previous hash |
| `Engine.BlockChain.NewTransactions` | blockchain.py:50-67 | appends one record with the given fields at the end of the pool, leaves the chain unchanged, and returns last block index + 1, which on a valid ledger is chain length + 1 |
| `Engine.BlockChain.LastBlock` | blockchain.py:80-83 | defined only on a non-empty chain; it is the last element, and on a valid ledger its index is the chain length |
| `Engine.BlockChain.ProofOfWork` | blockchain.py:85-97 | given that some non-negative proof is valid, returns one that satisfies `valid_proof` and no smaller non-negative integer does: the least witness |
| `Engine.SubmitAfterGenesis` | blockchain.py:58-67 | on a fresh ledger the first submission returns 2, the pool holds just that record and the genesis block is unchanged |
| `Engine.CommittedBlockKeepsItsTransactions` | blockchain.py:38-47 | a transaction submitted after a block was created lands only in the new pool; the committed block keeps the list it took |
| `LedgerSpec.NextBlock` | blockchain.py:35-41 | the block `new_block` builds has index chain length + 1 and the pool as its transactions; its `previous_hash` is the argument when that is truthy, and is truthy in every case |
| `LedgerSpec.AddBlock` | blockchain.py:35-48 | exactly one block is appended after the unchanged old chain, the pool becomes empty, and the committed transactions grow by exactly the old pool |
| `LedgerSpec.Genesis` | blockchain.py:21-26 | the state after `__init__` is the single block `Block(1, t, [], 100, 1)` and an empty pool |
| `LedgerSpec.AddTransaction` | blockchain.py:58-64 | the chain is unchanged, and committed plus pending transactions grow by exactly the new record, at the end |
| `LedgerSpec.PredictedIndex` | blockchain.py:67 | `last_block['index'] + 1` is the chain length + 1 on a valid ledger |
| `LedgerSpec.GenesisShape` | blockchain.py:21-26 | the genesis state is valid and linked, has one block `Block(1, t, [], 100, 1)` and an empty pool |
| `LedgerSpec.AddBlockAppends` | blockchain.py:35-48 | block creation keeps the index invariant, keeps the old blocks as a prefix, and numbers the new block with the new length; the block holds the old pool, the pool becomes empty, and `previous_hash` is the argument if truthy, else the hash of the old last block |
| `LedgerSpec.AddBlockLinked` | blockchain.py:40 | on a linked chain, the chain after `new_block` is linked if and only if the argument is falsy or equals the old tip's hash |
| `LedgerSpec.AddTransactionSpec` | blockchain.py:58-67 | submission keeps the ledger valid, leaves the chain unchanged, appends the record at the end of the pool, and predicts index chain length + 1 |
| `LedgerSpec.Step` | blockchain.py:28-67 | each mutating call keeps the ledger valid (non-empty, index equals position) |
| `LedgerSpec.Run` | blockchain.py:28-67 | any sequence of calls from a valid ledger ends in a valid ledger |
| `LedgerSpec.RunConcat` | blockchain.py:28-67 | running two call sequences one after the other equals running their concatenation |
| `LedgerSpec.RunConserves` | blockchain.py:38-47 | over any call sequence, committed transactions plus the pool equal what was there before plus every submitted record, in submission order: each submitted transaction is in exactly one block or still pending |
| `LedgerSpec.RunAppendOnly` | blockchain.py:36-47 | over any call sequence the old chain is kept as a prefix and the chain grows by one block per block creation |
| `LedgerSpec.RunKeepsLinked` | blockchain.py:40 | if no block creation supplies a truthy previous hash, a linked chain stays linked |
| `LedgerSpec.RunSubmits` | blockchain.py:58-64 | a run of submissions appends exactly those records to the pool, in order, and leaves the chain unchanged |
| `LedgerSpec.PredictionHolds` | blockchain.py:36-67 | with no block created in between, the index `new_transactions` returns is the index of the next block created, and that block holds the transaction after the earlier pending ones and before the later ones |
| `LedgerTypes.Truthy` | blockchain.py:40 | a `previous_hash` argument is falsy exactly when it is `None`, `0` or `""` |
| `Hashing.BlockHash` | blockchain.py:69-78 | `Sha256Hex(CanonicalJson(b))`: 64 lower-case hex characters, so it is truthy when passed back as `previous_hash` |
| `Hashing.Guess` | blockchain.py:107 | the guess string starts with `str(last_proof)` and the rest parses back to `proof` |
| `Hashing.ValidProof` | blockchain.py:99-109 | holds exactly when the first four characters of `Sha256Hex(str(last_proof) + str(proof))` are `1`, `5`, `1`, `6` |
| `Hashing.GuessIsAmbiguous` | blockchain.py:107-109 | the guess string has no separator, so the pairs (1, 23) and (12, 3) hash the same string and are valid or invalid together |
| `Hashing.GuessInjectiveInProof` | blockchain.py:107 | for a fixed last proof, distinct proofs give distinct guess strings |
| `Decimal.ToDecimal` | blockchain.py:107 | `str(n)` is non-empty, starts with `-` exactly when n is negative, and the rest is a run of digits that starts with `0` only for zero |
| `Decimal.DigitsShape` | blockchain.py:107 | `str` of a natural number is a non-empty run of digits with no leading zero (it starts with `0` only for zero) |
| `Decimal.DigitsRoundTrip` | blockchain.py:107 | the digits of n read back as n |
| `Decimal.DecimalRoundTrip` | blockchain.py:107 | parsing `str(n)` gives n back, for every integer including negatives |
| `Decimal.DecimalInjective` | blockchain.py:107 | distinct integers render to distinct strings |

## Left out

- The Flask application, its three routes and the `__main__` server (blockchain.py:112-146). The `mine` and `new_transaction` routes are stubs that return fixed text, and `full_chain` only serialises the chain.
- The node identifier built from `uuid4` (blockchain.py:115). It is randomness with no bearing on the ledger.
- `time.time()` (blockchain.py:37). It is a clock read, so it is the `timestamp` parameter, a `real` rather than a float.
- The inside of `hash` (blockchain.py:77-78), that is, JSON serialisation with sorted keys followed by SHA-256. Both are library code. `CanonicalJson` and `Sha256Hex` are left arbitrary. Consequently, "changing a field changes the hash" is not modelled, and the model proves nothing about collisions.
- The SHA-256 digest inside `valid_proof` (blockchain.py:108), for the same reason. No concrete valid proof can be exhibited, such as one for last proof 100.
- Decimal.ToDecimal: renders every integer. Recent CPython releases (3.11 and later, and the 3.7.14, 3.8.14, 3.9.14 and 3.10.7 security releases) raise `ValueError` when converting an int of more than 4300 digits to decimal text, which both the f-string at blockchain.py:107 and `json.dumps` at blockchain.py:77 do. The model does not have that limit or that error path: `Hashing.ValidProof` is defined for such proofs, so `ProofOfWork` returns a least witness where the source raises on its first test, and `Hashing.BlockHash` is total where `new_block(None, p)` would raise at blockchain.py:40 on a last block holding such a proof or amount.
- Engine.BlockChain.ProofOfWork: requires that some valid proof exists. Without one, the source loops forever; that non-terminating case is not modelled.
- Value types: `previous_hash` is limited to `None`, an `int` or a `str`; `sender` and `recipient` are strings; `amount`, `proof` and `last_proof` are `int`s. The source accepts any value that `json.dumps` or the f-string handles in these positions.
- Aliasing of the pool list: Dafny sequences are values, so no block can share a list with the pool. The source shares one: at blockchain.py:38 the new block's `transactions` is the pool list object itself, and only the rebinding at line 44 keeps later submissions out of it. `CommittedBlockKeepsItsTransactions` states the resulting behaviour, not its cause.
- Mutation of committed blocks: `new_block` (blockchain.py:48) and `last_block` (blockchain.py:83) return the very dictionary stored in `self.chain`, and the committed transaction list is a live list. A Python caller holding either reference can change a committed block, and with it what `hash(self.chain[-1])` computes at line 40. Blocks are values here, so the model does not capture such mutation, and `RunAppendOnly` and `CommittedBlockKeepsItsTransactions` hold without that caveat.
- Concurrency: the source is single-threaded and has no locking.
