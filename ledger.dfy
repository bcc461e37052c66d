/** The `Blockchain` aggregate (blockchain.py:45-89) and one mining round of its driver (example.py:16-22). */
module Ledger {
  import opened Wrappers
  import opened BlockModel
  import opened Mining
  import opened Difficulty
  import opened Validity

  /** Every adjacent pair of the chain passes the (intended) validity check. */
  ghost predicate WellLinked(codec: Codec, chain: seq<Block>) {
    forall i :: 0 < i < |chain| ==> CheckValidity(codec, chain[i], chain[i - 1])
  }

  /** Appending a block that is valid against the last block keeps a chain well linked. */
  lemma WellLinkedAppend(codec: Codec, chain: seq<Block>, b: Block)
    requires |chain| >= 1 && WellLinked(codec, chain)
    requires CheckValidity(codec, b, chain[|chain| - 1])
    ensures WellLinked(codec, chain + [b])
  {
  }

  class Blockchain {
    /** `settings.VERSION`, stamped on every block. */
    const version: string
    /** `settings.BLOCK_INIT_DIFFICULTY`, the genesis block's difficulty. */
    const initDifficulty: int
    var chain: seq<Block>
    var currentTransactions: seq<Transaction>

    /**
     * The chain is never empty, starts with the genesis block, carries the
     * configured version on every block, and block i (from 0) has index i + 1.
     */
    ghost predicate Valid()
      reads this
    {
      && |chain| >= 1
      && chain[0] == Genesis(version, chain[0].timestamp, initDifficulty)
      && forall i :: 0 <= i < |chain| ==> chain[i].index == i + 1 && chain[i].version == version
    }

    /** `Blockchain()`: an empty buffer and a chain holding only the genesis block, minted at `now`. */
    constructor (version: string, initDifficulty: int, now: int)
      ensures Valid()
      ensures this.version == version && this.initDifficulty == initDifficulty
      ensures chain == [Genesis(version, now, initDifficulty)]
      ensures currentTransactions == []
    {
      this.version := version;
      this.initDifficulty := initDifficulty;
      chain := [Block(version, 1, now, [], Sentinel, 0, initDifficulty)];
      currentTransactions := [];
    }

    /** `last_block`: the most recent block, whose index is the chain length. */
    function LastBlock(): (b: Block)
      reads this
      requires Valid()
      ensures b == chain[|chain| - 1] && b.index == |chain|
    {
      chain[|chain| - 1]
    }

    /**
     * `new_block(proof, previous_hash, difficulty)` at time `now`: freeze the
     * pending transactions into the next block, start a fresh empty buffer,
     * append the block and return it. Nothing is validated.
     */
    method NewBlock(proof: int, previousHash: PrevHash, difficulty: int, now: int) returns (b: Block)
      requires Valid()
      modifies this
      ensures Valid()
      ensures b == Block(version, |old(chain)| + 1, now, old(currentTransactions), previousHash, proof, difficulty)
      ensures chain == old(chain) + [b]
      ensures currentTransactions == []
    {
      b := Block(version, |chain| + 1, now, currentTransactions, previousHash, proof, difficulty);
      currentTransactions := [];
      chain := chain + [b];
    }

    /**
     * `new_transaction(sender, recipient, amount)`: append one record to the
     * pending buffer and return the index the next block will have.
     */
    method NewTransaction(sender: string, recipient: string, amount: int) returns (nextIndex: int)
      requires Valid()
      modifies this
      ensures Valid()
      ensures chain == old(chain)
      ensures currentTransactions == old(currentTransactions) + [Transaction(sender, recipient, amount)]
      ensures nextIndex == LastBlock().index + 1 == |chain| + 1
    {
      currentTransactions := currentTransactions + [Transaction(sender, recipient, amount)];
      nextIndex := LastBlock().index + 1;
    }
  }

  /**
   * One round of the driver loop: add a transaction, search for a proof on the
   * last block at the current difficulty (step 1, at most `fuel` candidates),
   * mint the block linked to the last block's hash, and compute the next
   * difficulty. No block is minted exactly when none of the `fuel`
   * candidates tried is valid; otherwise the proof is the least valid one.
   */
  method MiningRound(bc: Blockchain, codec: Codec, sender: string, recipient: string, amount: int,
                     difficulty: int, blockTime: int, now: int, fuel: nat)
    returns (minted: Option<Block>, nextDifficulty: int)
    requires bc.Valid()
    modifies bc
    ensures bc.Valid()
    ensures minted.None? ==>
      && bc.chain == old(bc.chain)
      && bc.currentTransactions == old(bc.currentTransactions) + [Transaction(sender, recipient, amount)]
      && nextDifficulty == difficulty
    ensures minted.None? ==>
      forall k :: 0 <= k < fuel ==> !ValidStep(codec, old(bc.LastBlock()), difficulty, 1, k)
    ensures minted.Some? ==>
      var last, b := old(bc.LastBlock()), minted.value;
      && bc.chain == old(bc.chain) + [b]
      && b.index == last.index + 1
      && b.previousHash == Linked(Hash(codec, last))
      && b.data == old(bc.currentTransactions) + [Transaction(sender, recipient, amount)]
      && b.difficulty == difficulty && b.timestamp == now
      && ValidProof(codec, last, b.proof, difficulty)
      && IsLeastValidMultiple(codec, last, difficulty, 1, b.proof)
      && b.proof < fuel
      && bc.currentTransactions == []
      && (now > last.timestamp ==> CheckValidity(codec, b, last))
      && Success(nextDifficulty) == CalculateDifficulty(bc.chain, difficulty, blockTime)
    ensures minted.Some? && now > old(bc.LastBlock()).timestamp && old(WellLinked(codec, bc.chain)) ==>
      WellLinked(codec, bc.chain)
  {
    var _ := bc.NewTransaction(sender, recipient, amount);
    var last := bc.LastBlock();
    var proof := ProofOfWork(codec, last, difficulty, 1, fuel);
    if proof.None? {
      return None, difficulty;
    }
    ghost var k :| 0 <= k < fuel && proof.value == Candidate(1, k) &&
      IsFirstValidStep(codec, last, difficulty, 1, k);
    CandidateIsMultiple(1, k);
    assert proof.value < fuel;
    var b := bc.NewBlock(proof.value, Linked(Hash(codec, last)), difficulty, now);
    if now > last.timestamp && WellLinked(codec, old(bc.chain)) {
      WellLinkedAppend(codec, old(bc.chain), b);
    }
    var next := CalculateDifficulty(bc.chain, difficulty, blockTime);
    return Some(b), next.value;
  }
}
