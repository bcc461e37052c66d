# A verified model of a single-node proof-of-work ledger

This project models the core of `blockchain.py`, a small Python simulation of a
proof-of-work blockchain. The model has three parts.

- **Blocks and their hash** (`block.dfy`, `decimal.dfy`). A `Block` holds seven
  fields: version, index, timestamp, data, previous hash, proof and difficulty.
  Its hash is the SHA-256 hex digest of the seven fields rendered with `str()`
  and joined without separators, in that order.
- **Proof of work and difficulty** (`proof_of_work.dfy`, `difficulty.dfy`).
  - `valid_proof` compares a Python slice of the digest of
    `last_block.hash ++ str(proof)` with `'0' * difficulty`.
  - `proof_of_work` scans the candidates 0, `proof_change`, 2·`proof_change`, …
    and returns the first valid one.
  - `calculate_difficulty` moves the difficulty one step up, one step down or
    not at all, by comparing the last block interval with the target block time.
- **The `Blockchain` aggregate** (`ledger.dfy`, `validity.dfy`).
  - It is a class with an append-only `chain` and a pending-transaction buffer.
  - Its constructor mints the genesis block.
  - It offers `new_block`, `new_transaction` and `last_block`.
  - The pairwise `check_validity` is modelled twice: once as written and once
    as intended.
  - `MiningRound` follows one round of the driver loop in `example.py`.

Modelling choices:

- **SHA-256 and `str(data)`.** These are the two fields of a `Codec` value that
  every hashing function takes as a parameter. A `Codec` can be any pair of
  total functions, as long as the hash returns 64 lowercase hex characters
  (`Digest`). The UTF-8 encoding is folded into the hash: the concatenation of
  the encodings equals the encoding of the concatenation.
- **`str()` of an integer.** This is modelled exactly, for integers below
  CPython's 4300-digit `str()` limit, which no field reaches: an optional minus
  sign, then decimal digits. It is proved injective.
- **`previous_hash`.** This is either `Sentinel`, the integer `0` of the
  genesis block, which renders as `"0"`, or `Linked(digest)`.
- **Version.** A block's version is modelled by its `str()` rendering, a `string`. If `settings.VERSION` is not a string, two different values can render alike (`1` and `"1"`), and the version case of `BlockModel.TamperedFieldChangesPreimage` speaks of the rendering, not the value.
- **Configuration.** `settings.VERSION` and `settings.BLOCK_INIT_DIFFICULTY`
  are constructor parameters, kept as `const` fields. `settings.BLOCK_TIME` is
  a parameter of `CalculateDifficulty`.
- **Timestamps.** `time.time()` is replaced by a caller-supplied integer `now`.
- **Difficulty.** This is an unbounded `int`. `valid_proof` keeps Python's
  slice semantics for every difficulty:
  - 0 accepts every proof;
  - 1..64 needs that many leading `'0'` characters;
  - above 64 accepts nothing;
  - -63..-1 accepts nothing;
  - -64 and below accepts every proof.
- **Errors.** Python exceptions the code can raise become a `Result` with a
  `PyError`. `calculate_difficulty` on a chain shorter than two blocks gives
  `IndexError`, from `chain[-1]` or `chain[-2]`. `check_validity` as written gives `TypeError`.
- **Block data.** Blocks are values. `new_block` stores the buffer's value and
  rebinds the buffer to a fresh empty sequence, so a later transaction cannot
  reach a minted block's data. In the source this holds because line 66 rebinds
  the list rather than clearing it in place.
- **Where the code departs from its evident intent, the model follows the code:**
  - `new_block` does not check that timestamps increase.
  - `check_validity` cannot return `True` as written (see Findings).

## Model

| member | source | states |
|---|---|---|
| `Decimal.IntToString` | blockchain.py:22-27 | `str()` of an integer: at least one character, and a leading `-` exactly for negative numbers, and decimal digits everywhere else |
| `Decimal.IntToStringInjective` | blockchain.py:22-27 | `str()` of an integer field loses nothing: equal renderings mean equal integers |
| `Decimal.NatToStringInjective` | blockchain.py:22-27 | the decimal digits of a natural number determine it (the induction behind the integer case) |
| `BlockModel.PreimageInFieldOrder` | blockchain.py:20-28 | the hashed string is version, index, timestamp, data, previous hash, proof and difficulty, rendered and concatenated in that order |
| `BlockModel.Hash` | blockchain.py:18-28 | the block hash is the codec's SHA-256 of the preimage, always 64 lowercase hex characters (type `Digest`); it is recomputed from the fields, never stored |
| `BlockModel.ConcatDeterminesField` | blockchain.py:21-27 | two field lists that agree everywhere but at one position and that concatenate to the same string also agree at that position |
| `BlockModel.TamperedFieldChangesPreimage` | blockchain.py:19-28 | changing exactly one field of a block changes the string that is hashed (for data and previous hash: when its rendering changes) |
| `BlockModel.FieldBoundaryCollision` | blockchain.py:21-27 | with no separators, index 1 with timestamp 23 and index 12 with timestamp 3 give two distinct blocks the same hash, whatever the hash function |
| `Mining.ValidProof` | blockchain.py:105-109 | the Python slice `sha256(last_block.hash + str(proof))[:difficulty]` equals `'0' * difficulty`; its meaning for every difficulty is `Mining.ValidProofCases` |
| `Mining.ValidProofCases` | blockchain.py:105-109 | `valid_proof` holds exactly when the digest starts with `difficulty` zeros for 0 ≤ d ≤ 64; never for d > 64 or -64 < d < 0; always for d ≤ -64 |
| `Mining.ZeroDifficultyAcceptsAll` | blockchain.py:107-109 | at difficulty 0 every proof passes `valid_proof` |
| `Mining.UnreachableDifficultyRejectsAll` | blockchain.py:107-109 | at a difficulty above 64, or between -64 and 0, no proof passes `valid_proof` |
| `Mining.CandidateIsMultiple` | blockchain.py:100-102 | after k increments the scanned candidate is k · `proof_change` |
| `Mining.ProofOfWork` | blockchain.py:91-103 | the result is the first valid candidate of the scan: it is valid, it is k · `proof_change` for some k, and no earlier step is valid. With `proof_change > 0` it is the least valid non-negative multiple of the step. None means none of the `fuel` candidates tried is valid. With `fuel > 0`, difficulty 0 gives 0. A difficulty above 64 or in -63..-1 never gives a result |
| `Mining.FirstValidStepIsLeastMultiple` | blockchain.py:100-103 | for `proof_change > 0` the first valid candidate is a non-negative multiple of the step, and no smaller non-negative multiple is valid |
| `Mining.FirstValidStepUnique` | blockchain.py:100-103 | the scan has at most one first valid step, so the search is deterministic |
| `Difficulty.CalculateDifficulty` | blockchain.py:131-143 | a chain shorter than two blocks raises IndexError. Otherwise the result is the current difficulty plus the sign of (target − last interval): +1 when faster, −1 when slower, unchanged when equal |
| `Difficulty.DifficultyAntitoneInInterval` | blockchain.py:136-143 | a longer last interval never gives a higher next difficulty |
| `Difficulty.SlowBlockAtZeroDifficultyStallsMining` | blockchain.py:139-140 | no floor: a slow block at difficulty 0 gives −1, and no proof at all is valid at −1 |
| `Validity.CheckValidityAsWritten` | blockchain.py:112-128 | returns False on an index gap or a broken hash link. Otherwise it raises TypeError because `valid_proof` is called with two arguments. It never returns True |
| `Validity.CheckValidity` | blockchain.py:112-128 | the intended pairwise check: consecutive index, previous hash equal to the predecessor's hash, `valid_proof(block.proof, prev_block, block.difficulty)`, and a later timestamp |
| `Validity.AsWrittenAgreesWhereItReturns` | blockchain.py:112-120 | wherever the code as written returns a value, that value is False, as the intended check's is. On every pair the intended check accepts, the code as written raises |
| `Validity.GenesisSuccessorRaises` | blockchain.py:119-120 | a correctly linked, validly proved, later successor of the genesis block passes the intended check, while the code as written raises TypeError on it |
| `Validity.BrokenLinkRejected` | blockchain.py:113-117 | an index gap or a previous-hash mismatch is rejected before any proof, timestamp or hash check |
| `Validity.TamperedPredecessorRejected` | blockchain.py:116-117 | a block linked to its predecessor is rejected against a copy of the predecessor with one field changed, given only that SHA-256 does not collide on those two preimages; that the preimages differ is proved by `BlockModel.TamperedFieldChangesPreimage` |
| `Validity.OwnPayloadNotChecked` | blockchain.py:112-128 | the pairwise check does not look at a block's own version or data: changing them keeps a passing block passing; only the successor's link notices |
| `Ledger.WellLinkedAppend` | blockchain.py:112-128 | appending a block that passes the pairwise check against the last block keeps every adjacent pair of the chain valid |
| `Ledger.Blockchain.constructor` | blockchain.py:46-50 | the chain is exactly the genesis block (index 1, previous hash 0, proof 0, initial difficulty, empty data) and the buffer is empty |
| `Ledger.Blockchain.LastBlock` | blockchain.py:87-89 | the last block of the chain; its index equals the chain length |
| `Ledger.Blockchain.NewBlock` | blockchain.py:52-68 | appends exactly one block and returns it. The block has index old length + 1, the given proof, previous hash and difficulty, and the buffer as it was at call time. The buffer is then empty. Earlier blocks and the index invariant are kept |
| `Ledger.Blockchain.NewTransaction` | blockchain.py:70-85 | appends exactly one `{sender, recipient, amount}` record to the buffer. The chain is unchanged. Returns the last index + 1, which equals length + 1 |
| `Ledger.MiningRound` | example.py:16-22 | no block is minted only when none of the `fuel` candidates is valid, and then the chain is unchanged and the transaction stays buffered. After a mined round, the new block follows the old last block by index and hash and holds the old buffer plus the new transaction. Its proof is the least valid non-negative proof at the round's difficulty, below `fuel`, and the buffer is empty. With a later timestamp it passes the pairwise check and keeps a well-linked chain well linked. The next difficulty is well defined |

## Findings

| source | as written | input that shows it | evidently intended | confidence | as-written member | corrected member |
|---|---|---|---|---|---|---|
| blockchain.py:119 | `Blockchain.valid_proof(block.proof, prev_block.proof)` passes two arguments to a three-parameter function, so every pair that passes the index and link checks raises TypeError. `check_validity` can never return True, and line 125 (`block.calculate_hash()`, a method that does not exist) is never reached | the genesis block and a block with index 2 whose `previous_hash` is the genesis hash (`Validity.GenesisSuccessorRaises`) | `valid_proof(block.proof, prev_block, block.difficulty)`, then the timestamp check. The hash comparison of line 125 always holds, because the hash is recomputed on demand. Even as intended, the check does not read a block's own version or data (`Validity.OwnPayloadNotChecked`): only the next block's link detects such an edit | high (not executed) | `Validity.CheckValidityAsWritten` | `Validity.CheckValidity` (accepts mined blocks: `Validity.GenesisSuccessorRaises`, `Ledger.MiningRound`, `Ledger.WellLinkedAppend`) |

## Left out

- `Mining.ProofOfWork`: the source loop never gives up. The model tries at most `fuel` candidates and returns None after that, because every loop here must be proved to terminate. When it returns a proof, it is the one the source returns.
- `Ledger.MiningRound`: when none of the `fuel` candidates is valid, no block is minted. The source would still be searching at that point.
- SHA-256 and the text of `str(data)`: these are foreign library functions. They are the uninterpreted parameters of `Codec`. No property assumes collision resistance, except `Validity.TamperedPredecessorRejected`, which names as a precondition that the hash does not collide on the two preimages it compares.
- `Block.dumb_block_data` (JSON dump) and `Block.__str__`: output formatting only.
- `calculate_reward`: it uses floating-point division with a real exponent, which has no exact counterpart here. The reward is also never put into a block.
- `time.time()`: wall-clock input. Timestamps are integers passed in by the caller, and rendering a float timestamp with `str()` is not modelled.
- Amounts are integers. Python accepts any number, including floats.
- `last_block` on an empty chain would raise `IndexError` (`chain[-1]`, blockchain.py:89). This cannot happen: every `Blockchain` keeps at least the genesis block, and `LastBlock` requires that invariant.
- `proof_of_work` is an instance method that uses `self` only to reach the static `valid_proof`, so it is modelled as a module-level method.
- The `settings` module and the driver loop of `example.py` (printing, the interrupt handler, the average mining time) are not part of this model. Their constants are parameters.
- Concurrency: the source is single-threaded and so is the model.
