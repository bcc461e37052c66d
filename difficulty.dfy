/** `calculate_difficulty` (blockchain.py:130-143): a one-sample controller on the last block interval. */
module Difficulty {
  import opened Wrappers
  import opened BlockModel
  import opened Mining

  /** `chain[-1].timestamp - chain[-2].timestamp` */
  function LastInterval(chain: seq<Block>): int
    requires |chain| >= 2
  {
    chain[|chain| - 1].timestamp - chain[|chain| - 2].timestamp
  }

  function Sign(x: int): (s: int)
    ensures s == 1 <==> x > 0
    ensures s == -1 <==> x < 0
    ensures s == 0 <==> x == 0
  {
    if x > 0 then 1 else if x < 0 then -1 else 0
  }

  /**
   * The next difficulty: one more when the last interval is shorter than the
   * target `blockTime`, one less when it is longer, unchanged when it is equal.
   * A chain of fewer than two blocks makes `chain[-1]` (empty chain) or
   * `chain[-2]` (one block) raise IndexError.
   */
  function CalculateDifficulty(chain: seq<Block>, currentDifficulty: int, blockTime: int): (r: Result<int>)
    ensures r.Failure? <==> |chain| < 2
    ensures r.Failure? ==> r.error == IndexError
    ensures r.Success? ==> r.value == currentDifficulty + Sign(blockTime - LastInterval(chain))
  {
    if |chain| < 2 then Failure(IndexError)
    else if LastInterval(chain) < blockTime then Success(currentDifficulty + 1)
    else if LastInterval(chain) > blockTime then Success(currentDifficulty - 1)
    else Success(currentDifficulty)
  }

  /** A longer last interval never yields a higher next difficulty. */
  lemma DifficultyAntitoneInInterval(c1: seq<Block>, c2: seq<Block>, currentDifficulty: int, blockTime: int)
    requires |c1| >= 2 && |c2| >= 2
    requires LastInterval(c1) <= LastInterval(c2)
    ensures CalculateDifficulty(c1, currentDifficulty, blockTime).value >=
            CalculateDifficulty(c2, currentDifficulty, blockTime).value
  {
  }

  /**
   * No floor is applied: a slow block at difficulty 0 yields -1, and with
   * Python's slice semantics no proof at all is valid at difficulty -1, so the
   * next unbounded `proof_of_work` never returns.
   */
  lemma SlowBlockAtZeroDifficultyStallsMining(codec: Codec, chain: seq<Block>, blockTime: int, lastBlock: Block)
    requires |chain| >= 2 && LastInterval(chain) > blockTime
    ensures CalculateDifficulty(chain, 0, blockTime) == Success(-1)
    ensures forall proof :: !ValidProof(codec, lastBlock, proof, -1)
  {
  }
}
