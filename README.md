# Proof-of-work ledger: a Dafny model of the `Blockchain` engine

This project models the ledger engine of a small proof-of-work blockchain node
(`blockchain.py`, class `Blockchain`). It also models the two request handlers that set
the rules for using that engine: the `/mine` sequence and the funds guard of
`/transactions/new`. A node keeps four pieces of state:

- an append-only **chain** of blocks `{index, timestamp, transactions, proof, previous_hash}`;
- a **pending pool** of `{sender, recipient, amount}` transactions;
- a **balance table** from address to integer;
- a **set of peers**.

`new_transaction` appends to the pool. It settles balances at once: a non-coinbase sender
is debited and the recipient is credited. A sender of `"0"` marks a coinbase (mining
reward) transaction, which only credits. `new_block` seals the whole pool into a block at
index `len(chain) + 1`, links that block to the hash of the tip and empties the pool.
`proof_of_work` scans `0, 1, 2, …` for the first proof whose SHA-256 digest of
`f'{last_proof}{proof}'` starts with `"0000"`. `/mine` finds that proof, pays the miner a
1000-unit coinbase and seals the block.

Files:

- `types.dfy` (module `Types`): transactions, blocks, errors, and the constants: the coinbase
  sender `"0"`, the reward 1000, the genesis proof 100 and the genesis previous hash `"1"`.
- `puzzle.dfy` (module `Puzzle`): Python's `str(int)`, the text `valid_proof` hashes, the
  `[:4] == "0000"` test, and minimality of a proof.
- `balances.dfy` (module `Balances`): the balance updates of one transaction, the total supply,
  solvency, and the route's funds guard (as written and corrected).
- `chain.dfy` (module `Chain`): what it means for a chain to have 1-based indices, hash
  linkage and chained proofs, and which appends keep each of them.
- `ledger.dfy` (module `Ledger`): the class `Blockchain`, whose fields the methods update in
  place, and the route logic as plain methods on it.

SHA-256, `json.dumps(sort_keys=True)` and `urlparse(...).netloc` are foreign library calls.
They are `const` function fields of the class, fixed at construction and otherwise
uninterpreted. The model relies only on their being deterministic. The wall clock is a
`timestamp` parameter. Loading is the constructor's `loadedChain` / `loadedBalances`
arguments. Saving and broadcasting are treated as no-ops; "## Left out" says what that misses.

The model follows the code as written, including these points:

- the core `new_transaction` checks no funds; only the route does;
- `/block/new` validates nothing;
- `new_transaction` returns `last_block['index'] + 1`, which equals `len(chain) + 1` on a
  chain whose indices are 1-based;
- a `KeyError` from an unknown sender leaves the transaction in the pool.

## Model

| member | source | states |
|---|---|---|
| `Ledger.Blockchain.constructor` | blockchain.py:10-21 | starts from the loaded chain and balances with an empty pool and no peers; if the loaded chain is empty the chain becomes exactly one block `(index 1, no transactions, proof 100, previous_hash "1")`, which is sound; the chain is never empty afterwards |
| `Ledger.Blockchain.RegisterNode` | blockchain.py:23-25 | the peer set gains exactly the parsed network location; adding a known peer leaves the set unchanged; chain, pool and balances unchanged |
| `Ledger.Blockchain.NewBlock` | blockchain.py:27-39 | appends exactly one block, at index old `len(chain) + 1`, holding the old pool in order; the pool becomes empty; balances and peers are unchanged; a falsy `previous_hash` (None or "") means the tip's hash; 1-based indices are preserved; with the fallback, linkage holds after exactly when it held before; with the fallback and a valid proof, a sound chain stays sound |
| `Ledger.Blockchain.NewTransaction` | blockchain.py:41-52 | appends exactly `{sender, recipient, amount}` to the pool; chain and peers unchanged; a non-coinbase sender with no entry gives `KeyError` with balances unchanged but the pool already extended; otherwise balances become `Settle(old, tx)` and the result is the tip's index + 1, which is `len(chain) + 1` (the next block's index) on a 1-based chain; total supply rises by the amount for a coinbase and is unchanged otherwise; a covered, non-negative transaction keeps every balance non-negative |
| `Ledger.Blockchain.LastBlock` | blockchain.py:93-95 | the tip is a block of the chain, and on a chain with 1-based indices its index is the chain's length |
| `Ledger.Blockchain.ProofOfWork` | blockchain.py:97-101 | the result is the smallest non-negative proof that `valid_proof` accepts against `lastProof` |
| `Puzzle.ValidProofIff` | blockchain.py:103-107 | `valid_proof(last, proof)` is `ValidDigest(sha256(Guess(last, proof)))`: it holds exactly when the SHA-256 digest of the decimal text of `last` followed by that of `proof` has at least four characters, all `'0'` |
| `Chain.BlockHashDeterministic` | blockchain.py:88-91 | the hash of a block is the SHA-256 of its canonical sorted-keys JSON text, both uninterpreted and deterministic: blocks with the same canonical text have the same hash |
| `Puzzle.ValidDigestIff` | blockchain.py:107 | `digest[:4] == "0000"` holds exactly when the digest has at least four characters and the first four are all `'0'` |
| `Puzzle.MinimalProofUnique` | blockchain.py:97-101 | two minimal proofs for the same last proof are equal, so the search result is deterministic |
| `Puzzle.DigitsShape` | blockchain.py:105 | a check of the model's `Decimal` helper (its rendering of `str(n)`): the text of a natural is non-empty, all digits, with no leading zero |
| `Puzzle.DigitsRoundTrip` | blockchain.py:105 | a check of the model's `Decimal` helper: the text of a natural reads back as that natural |
| `Puzzle.DigitsInjective` | blockchain.py:105 | a check of the model's `Decimal` helper: distinct naturals have distinct digit texts |
| `Puzzle.DecimalSign` | blockchain.py:105 | a check of the model's `Decimal` helper: the text of a negative number is `"-"` followed by its digits; that of a non-negative one starts with a digit |
| `Puzzle.DecimalInjective` | blockchain.py:105 | a check of the model's `Decimal` helper: distinct integers have distinct texts |
| `Puzzle.GuessDeterminesProof` | blockchain.py:105 | a check of the model's `Decimal` helper, not a promise of the source: for a fixed last proof, distinct candidate proofs give distinct texts |
| `Puzzle.GuessAmbiguousAcrossLastProofs` | blockchain.py:105 | the hashed text has no separator: last proof 1 with proof 23 gives the same text as last proof 12 with proof 3 |
| `Puzzle.Take` | blockchain.py:107 | Python's `s[:n]` has length `min(n, len(s))` and is a prefix of `s` |
| `Balances.Settle` | blockchain.py:47-49 | every address's balance changes by exactly `Delta`: + amount to the recipient, − amount to a non-coinbase sender (both when they are the same address); the keys become the old keys plus the recipient, so an unseen recipient starts from 0 |
| `Balances.TotalPick` | blockchain.py:47-49 | the total of all balances may be summed starting from any address |
| `Balances.TotalUpdate` | blockchain.py:47-49 | setting one balance shifts the total by that balance's change, whether or not the address was present |
| `Balances.SettleConserves` | blockchain.py:47-49 | a coinbase raises the total supply by its amount; any other transaction, including a self-transfer, leaves the total unchanged |
| `Balances.SettleKeepsSolvent` | blockchain.py:47-49 | a transaction of a non-negative amount whose sender covers it keeps every balance non-negative |
| `Balances.NegativeAmountOverdraws` | blockchain.py:148-151 | with Alice and Bob at 0, a transfer of −5 passes the route's guard and leaves Bob at −5 |
| `Balances.UnknownSenderPassesGuard` | blockchain.py:148-151 | a 0-amount transfer from an address with no entry passes the route's guard although the core cannot settle it (`KeyError`) |
| `Balances.CheckedGuardKeepsSolvent` | blockchain.py:148-151 | anything the corrected guard admits settles without `KeyError` and keeps every balance non-negative |
| `Chain.IndexedSnoc` | blockchain.py:29 | appending keeps indices 1-based exactly when the new block's index is the new length |
| `Chain.LinkedSnoc` | blockchain.py:33 | appending to a non-empty chain keeps it linked exactly when the new block names the tip's hash |
| `Chain.ProofsChainedSnoc` | blockchain.py:122-125 | appending keeps proofs chained exactly when the new proof is valid against the tip's |
| `Chain.SoundSnoc` | blockchain.py:27-39 | a sound chain stays sound under exactly the appends that extend the tip: next index, the tip's hash and a valid proof |
| `Chain.UncheckedAppendBreaksLinkage` | blockchain.py:164 | appending a block that does not name the tip's hash makes a linked chain unlinked |
| `Ledger.Mine` | blockchain.py:113-133 | appends one block at the next index, linked to the old tip's hash, carrying the minimal valid proof for the old tip's proof; its transactions are the old pool followed by the 1000-unit coinbase to the miner; the pool is emptied, the miner credited, total supply +1000, solvency and soundness preserved, peers unchanged |
| `Ledger.SubmitTransaction` | blockchain.py:135-154 | no logged-in sender, or `balances.get(sender, 0) < amount`, is rejected with nothing changed; otherwise the transaction enters the pool and either settles (result: next block index) or raises `KeyError` for an unknown sender, with balances unchanged; for a non-negative amount no balance goes negative |
| `Ledger.SubmitTransactionChecked` | blockchain.py:148-151 | with the corrected guard, a rejected request changes nothing; an admitted one enters the pool, settles and returns the next block index; no balance ever goes negative |
| `Ledger.AppendPeerBlock` | blockchain.py:156-168 | appends the peer's block unchecked; pool, balances and peers unchanged |
| `Ledger.ReceiveBlock` | blockchain.py:156-168 | appends the block exactly when it extends the tip (next index, the tip's hash, a valid proof); otherwise `ChainMismatch` and the chain is unchanged; a sound chain stays sound |

## Findings

| source | as written | input that shows it | evidently intended | confidence | as-written member | corrected member |
|---|---|---|---|---|---|---|
| blockchain.py:148-151 | the guard rejects only `balances.get(sender, 0) < amount`, so a negative amount passes; `new_transaction` then credits the sender and debits the recipient | Alice and Bob at 0, Alice sends −5 to Bob: Bob ends at −5 | reject negative amounts so that no balance goes below zero | high, not executed | `Balances.NegativeAmountOverdraws` | `Ledger.SubmitTransactionChecked` |
| blockchain.py:41-48 | the guard reads `balances.get(sender, 0)` but the core indexes `balances[sender]`, after it has already appended to the pool | a sender with no entry sends 0: the guard passes, the pool gains the transaction, then `KeyError` | reject senders without a balance entry before any mutation | medium, not executed | `Balances.UnknownSenderPassesGuard` | `Balances.CheckedGuardKeepsSolvent` |
| blockchain.py:163-164 | the peer block is appended without any check, although the comment on the line before asks for validation | a block whose `previous_hash` is not the tip's hash breaks the linkage | append only a block with the next index, the tip's hash and a valid proof | high, not executed | `Chain.UncheckedAppendBreaksLinkage` | `Ledger.ReceiveBlock` |

## Left out

- `save_data` / `load_data` (blockchain.py:74-86): file I/O and JSON. Loading is the
  constructor's arguments. Saving has no effect on the modelled state. Persistence round trips
  and write failures are not modelled.
- `broadcast_transaction` / `broadcast_block` (blockchain.py:54-72): blocking HTTP posts whose
  failures are swallowed, treated as no-ops. The model does not capture a broadcast that comes back
  to this node, for example a node registered as its own peer or two peers registered with each other.
  Such a broadcast re-enters `/transactions/new` or `/block/new` and changes local state while the
  broadcast waits. `/transactions/new` debits its own logged-in user again and broadcasts again, until
  the funds guard rejects, and never stops for an amount of 0. `/block/new` appends the block a
  second time, which breaks the linkage.
- `hashlib.sha256`, `json.dumps(sort_keys=True)` and `urlparse(...).netloc`: uninterpreted
  function fields. Real digests, the JSON text and URL parsing are not modelled.
- `time()`: a parameter.
- Flask request handling: the "Missing values" checks, `int(values['amount'])` conversion
  errors, JSON responses, and the `/chain`, `/wallet/new`, `/balance/<address>`, `/nodes/register`
  and static-file routes. The routes that are modelled take their arguments already typed.
- Ledger.SubmitTransaction: the recipient is assumed to be a string. The source passes
  `values['recipient']` through unconverted. A JSON array or object there makes
  `balances.get(recipient, 0)` raise `TypeError` after the pool append and the sender's debit have
  already happened. The sender then loses the amount, nobody is credited, and the total supply
  falls, which `Balances.SettleConserves` does not cover. A number, `null` or `true` becomes a
  non-string key that is later saved as a string.
- Ledger.AppendPeerBlock: the peer block, like every block of the loaded chain, is assumed to be a
  well-typed record with exactly the five block fields. The source appends the raw request object,
  checking only that the five keys are present: extra keys are kept and enter the block's hash, and
  field types are never checked. After a peer block whose `index` is not an integer, every
  `new_transaction` extends the pool and changes the balances and then fails on
  `last_block['index'] + 1`, and `/mine` pays the reward but never seals the block. The typed
  `Block` cannot represent these histories.
- The `/login` route and the global `users['current_user']`: the sender is an explicit optional
  argument, where None or "" means nobody is logged in.
- wallet.py (key generation from `os.urandom`, SHA-256 wrappers) and smart_contract.py (which
  runs `exec` on arbitrary text) are not part of this model.
- Ledger.Blockchain.ProofOfWork: requires that some non-negative proof is accepted. The source
  loops forever when none exists, and the model does not capture that non-termination.
- Ledger.Mine: requires a valid proof to exist for the tip, for the same reason.
- Ledger.Blockchain.NewBlock: requires a tip when `previous_hash` is falsy. The source raises
  `IndexError` there before any mutation, and no caller reaches that case.
- Concurrency: Flask may serve requests on several threads with no lock. The model treats each
  operation as atomic.
