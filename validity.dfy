/** `check_validity` (blockchain.py:111-128): the pairwise check of a block against its predecessor. */
module Validity {
  import opened Wrappers
  import opened BlockModel
  import opened Mining

  /**
   * `check_validity` as written. The index check and the hash-link check run
   * first; if both pass, line 119 calls `valid_proof` with two of its three
   * required arguments and Python raises TypeError, so the later checks are
   * never reached.
   */
  function CheckValidityAsWritten(codec: Codec, block: Block, prevBlock: Block): (r: Result<bool>)
    ensures r != Success(true)
    ensures r.Failure? ==> r.error == TypeError
    ensures r.Failure? <==>
      prevBlock.index + 1 == block.index && block.previousHash == Linked(Hash(codec, prevBlock))
  {
    if prevBlock.index + 1 != block.index then Success(false)
    else if Linked(Hash(codec, prevBlock)) != block.previousHash then Success(false)
    else Failure(TypeError)
  }

  /**
   * `check_validity` as intended: consecutive index, hash link, the block's own
   * proof checked against its predecessor at the block's own difficulty, and a
   * strictly later timestamp. (The final comparison of `block.hash` with a
   * recomputed hash always holds, since the hash is recomputed on demand.)
   */
  predicate CheckValidity(codec: Codec, block: Block, prevBlock: Block) {
    && prevBlock.index + 1 == block.index
    && block.previousHash == Linked(Hash(codec, prevBlock))
    && ValidProof(codec, prevBlock, block.proof, block.difficulty)
    && block.timestamp > prevBlock.timestamp
  }

  /**
   * Wherever the code as written returns, it agrees with the intended check;
   * it raises exactly on the pairs whose index and link checks pass.
   */
  lemma AsWrittenAgreesWhereItReturns(codec: Codec, block: Block, prevBlock: Block)
    ensures CheckValidityAsWritten(codec, block, prevBlock).Success? ==>
      !CheckValidityAsWritten(codec, block, prevBlock).value && !CheckValidity(codec, block, prevBlock)
    ensures CheckValidity(codec, block, prevBlock) ==>
      CheckValidityAsWritten(codec, block, prevBlock) == Failure(TypeError)
  {
  }

  /**
   * A correctly mined successor of the genesis block is accepted by the
   * intended check, while the code as written raises on it.
   */
  lemma GenesisSuccessorRaises(codec: Codec, version: string, t0: int, d0: int,
                               t1: int, data: seq<Transaction>, proof: int, difficulty: int)
    requires t1 > t0
    requires ValidProof(codec, Genesis(version, t0, d0), proof, difficulty)
    ensures var g := Genesis(version, t0, d0);
      var b := Block(version, 2, t1, data, Linked(Hash(codec, g)), proof, difficulty);
      CheckValidity(codec, b, g) && CheckValidityAsWritten(codec, b, g) == Failure(TypeError)
  {
  }

  /** An index discontinuity or a broken hash link is rejected, whatever the proof and timestamps. */
  lemma BrokenLinkRejected(codec: Codec, block: Block, prevBlock: Block)
    requires prevBlock.index + 1 != block.index || block.previousHash != Linked(Hash(codec, prevBlock))
    ensures !CheckValidity(codec, block, prevBlock)
    ensures CheckValidityAsWritten(codec, block, prevBlock) == Success(false)
  {
  }

  /**
   * The pairwise check reads only the index, previous hash, proof, difficulty
   * and timestamp of the block it checks: edits to the block's own version or
   * data pass unnoticed. Such an edit is caught only by the link of the block
   * after it (see `TamperedPredecessorRejected`).
   */
  lemma OwnPayloadNotChecked(codec: Codec, block: Block, prevBlock: Block, edited: Block)
    requires CheckValidity(codec, block, prevBlock)
    requires edited == block.(version := edited.version, data := edited.data)
    ensures CheckValidity(codec, edited, prevBlock)
  {
  }

  /**
   * Tampering with one field of the predecessor breaks the link of the block
   * after it. The one property of SHA-256 assumed is that it does not map the
   * two (provably different) preimages to the same digest.
   */
  lemma TamperedPredecessorRejected(codec: Codec, block: Block, prevBlock: Block, forged: Block)
    requires block.previousHash == Linked(Hash(codec, prevBlock))
    requires SingleFieldTamper(codec, prevBlock, forged)
    requires codec.sha256(Preimage(codec, forged)) == codec.sha256(Preimage(codec, prevBlock)) ==>
      Preimage(codec, forged) == Preimage(codec, prevBlock)
    ensures !CheckValidity(codec, block, forged)
  {
    TamperedFieldChangesPreimage(codec, prevBlock, forged);
  }
}
