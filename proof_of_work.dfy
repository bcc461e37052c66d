/** `valid_proof` and `proof_of_work` (blockchain.py:91-109). */
module Mining {
  import opened Wrappers
  import opened BlockModel
  import Decimal

  /** The text hashed for a candidate: `f'{last_block.hash}{proof}'`. */
  function Guess(codec: Codec, lastBlock: Block, proof: int): string {
    Hash(codec, lastBlock) + Decimal.IntToString(proof)
  }

  function GuessHash(codec: Codec, lastBlock: Block, proof: int): Digest {
    codec.sha256(Guess(codec, lastBlock, proof))
  }

  /**
   * Python's `s[:n]`: the first n characters, all of `s` when n is larger
   * than its length, and for negative n all but the last -n characters
   * (nothing once -n reaches the length).
   */
  function PyPrefix(s: string, n: int): (r: string)
    ensures n >= 0 ==> |r| == (if n <= |s| then n else |s|)
    ensures n < 0 ==> |r| == (if -n <= |s| then |s| + n else 0)
    ensures r == s[..|r|]
  {
    if n >= 0 then (if n <= |s| then s[..n] else s)
    else if -n <= |s| then s[..|s| + n]
    else ""
  }

  /** Python's `'0' * n`, which is empty for every n <= 0. */
  function Zeros(n: int): (r: string)
    ensures |r| == (if n > 0 then n else 0)
    ensures forall i :: 0 <= i < |r| ==> r[i] == '0'
  {
    if n <= 0 then "" else seq(n, _ => '0')
  }

  /** `valid_proof`: `guess_hash[:difficulty] == '0' * difficulty`. */
  predicate ValidProof(codec: Codec, lastBlock: Block, proof: int, difficulty: int) {
    PyPrefix(GuessHash(codec, lastBlock, proof), difficulty) == Zeros(difficulty)
  }

  /** The first d characters of h are all '0'. */
  predicate LeadingZeros(h: string, d: nat)
    requires d <= |h|
  {
    forall i :: 0 <= i < d ==> h[i] == '0'
  }

  /**
   * What the slice comparison means for each difficulty: for 0 <= d <= 64 the
   * digest starts with d zeros (so d == 0 accepts every proof); a d above 64
   * or between -64 and 0 accepts none; a d at or below -64 accepts every proof.
   */
  lemma ValidProofCases(codec: Codec, lastBlock: Block, proof: int, difficulty: int)
    ensures 0 <= difficulty <= 64 ==>
      (ValidProof(codec, lastBlock, proof, difficulty) <==>
       LeadingZeros(GuessHash(codec, lastBlock, proof), difficulty))
    ensures difficulty > 64 || -64 < difficulty < 0 ==> !ValidProof(codec, lastBlock, proof, difficulty)
    ensures difficulty <= -64 ==> ValidProof(codec, lastBlock, proof, difficulty)
  {
    var h := GuessHash(codec, lastBlock, proof);
    if 0 <= difficulty <= 64 {
      var p, z := PyPrefix(h, difficulty), Zeros(difficulty);
      if LeadingZeros(h, difficulty) {
        assert forall i :: 0 <= i < difficulty ==> p[i] == h[i] == '0' == z[i];
        assert p == z;
      }
      if p == z {
        assert forall i :: 0 <= i < difficulty ==> h[i] == p[i] == z[i];
      }
    }
  }

  /** At difficulty 0 every proof is valid. */
  lemma ZeroDifficultyAcceptsAll(codec: Codec, lastBlock: Block, proof: int)
    ensures ValidProof(codec, lastBlock, proof, 0)
  {
    ValidProofCases(codec, lastBlock, proof, 0);
  }

  /** Above 64, or between -64 and 0, no proof is valid. */
  lemma UnreachableDifficultyRejectsAll(codec: Codec, lastBlock: Block, proof: int, difficulty: int)
    requires difficulty > 64 || -64 < difficulty < 0
    ensures !ValidProof(codec, lastBlock, proof, difficulty)
  {
    ValidProofCases(codec, lastBlock, proof, difficulty);
  }

  /** The k-th candidate of a scan from 0 in steps of `proofChange`: k * proofChange. */
  function Candidate(proofChange: int, k: nat): int {
    if k == 0 then 0 else Candidate(proofChange, k - 1) + proofChange
  }

  /** The k-th candidate is k * proofChange. */
  lemma {:induction false} CandidateIsMultiple(proofChange: int, k: nat)
    ensures Candidate(proofChange, k) == k * proofChange
  {
    if k > 0 {
      CandidateIsMultiple(proofChange, k - 1);
    }
  }

  /** The k-th candidate of the scan is valid. */
  predicate ValidStep(codec: Codec, lastBlock: Block, difficulty: int, proofChange: int, k: nat) {
    ValidProof(codec, lastBlock, Candidate(proofChange, k), difficulty)
  }

  /** None of the first k candidates of the scan is valid. */
  predicate NoValidStepBefore(codec: Codec, lastBlock: Block, difficulty: int, proofChange: int, k: nat) {
    forall j :: 0 <= j < k ==> !ValidStep(codec, lastBlock, difficulty, proofChange, j)
  }

  /** Step k is the first valid candidate of the scan 0, proofChange, 2 * proofChange, … */
  predicate IsFirstValidStep(codec: Codec, lastBlock: Block, difficulty: int, proofChange: int, k: nat) {
    ValidStep(codec, lastBlock, difficulty, proofChange, k) && NoValidStepBefore(codec, lastBlock, difficulty, proofChange, k)
  }

  lemma NoValidStepExtend(codec: Codec, lastBlock: Block, difficulty: int, proofChange: int, k: nat)
    requires NoValidStepBefore(codec, lastBlock, difficulty, proofChange, k)
    requires !ValidStep(codec, lastBlock, difficulty, proofChange, k)
    ensures NoValidStepBefore(codec, lastBlock, difficulty, proofChange, k + 1)
  {
  }

  /** The scan is deterministic: it has at most one first valid step. */
  lemma FirstValidStepUnique(codec: Codec, lastBlock: Block, difficulty: int, proofChange: int, k1: nat, k2: nat)
    requires IsFirstValidStep(codec, lastBlock, difficulty, proofChange, k1)
    requires IsFirstValidStep(codec, lastBlock, difficulty, proofChange, k2)
    ensures k1 == k2
  {
  }

  /** p is a valid, non-negative multiple of the step, and no smaller non-negative multiple is valid. */
  predicate IsLeastValidMultiple(codec: Codec, lastBlock: Block, difficulty: int, proofChange: int, p: int)
    requires proofChange > 0
  {
    && p >= 0 && p % proofChange == 0
    && ValidProof(codec, lastBlock, p, difficulty)
    && forall q :: 0 <= q < p && q % proofChange == 0 ==> !ValidProof(codec, lastBlock, q, difficulty)
  }

  /** With a positive step, the first valid candidate is the least valid non-negative multiple of the step. */
  lemma FirstValidStepIsLeastMultiple(codec: Codec, lastBlock: Block, difficulty: int, proofChange: int, k: nat)
    requires proofChange > 0
    requires IsFirstValidStep(codec, lastBlock, difficulty, proofChange, k)
    ensures IsLeastValidMultiple(codec, lastBlock, difficulty, proofChange, Candidate(proofChange, k))
  {
    CandidateIsMultiple(proofChange, k);
    MulMono(0, k, proofChange);
    ModOfMultiple(k, proofChange);
    forall q | 0 <= q < Candidate(proofChange, k) && q % proofChange == 0
      ensures !ValidProof(codec, lastBlock, q, difficulty)
    {
      QuotientOfMultiple(q, proofChange, k);
      CandidateIsMultiple(proofChange, q / proofChange);
      assert Candidate(proofChange, q / proofChange) == q;
      assert !ValidStep(codec, lastBlock, difficulty, proofChange, q / proofChange);
    }
  }

  lemma MulMono(a: int, b: int, m: int)
    requires m > 0 && a <= b
    ensures a * m <= b * m
    ensures a < b ==> a * m + m <= b * m
  {
    var d := b - a;
    assert b * m == a * m + d * m;
    if d > 0 {
      assert d * m == m + (d - 1) * m;
      assert (d - 1) * m >= 0;
    }
  }

  lemma ModOfMultiple(k: int, m: int)
    requires m > 0
    ensures (k * m) % m == 0
  {
    var q, r := (k * m) / m, (k * m) % m;
    assert k * m == q * m + r;
    if q < k {
      MulMono(q, k, m);
      assert false;
    } else if k < q {
      MulMono(k, q, m);
      assert false;
    }
  }

  lemma QuotientOfMultiple(q: int, m: int, k: int)
    requires m > 0 && 0 <= q < k * m && q % m == 0
    ensures q == (q / m) * m && 0 <= q / m < k
  {
  }

  /**
   * `proof_of_work(last_block, difficulty, proof_change)`: scan the candidates
   * 0, proofChange, 2 * proofChange, … and return the first valid one. The
   * source loop has no bound; here at most `fuel` candidates are tried and
   * None means none of them was valid.
   */
  method ProofOfWork(codec: Codec, lastBlock: Block, difficulty: int, proofChange: int, fuel: nat)
    returns (r: Option<int>)
    ensures r.Some? ==>
      exists k :: 0 <= k < fuel && r.value == Candidate(proofChange, k) &&
        IsFirstValidStep(codec, lastBlock, difficulty, proofChange, k)
    ensures r.None? ==> forall k :: 0 <= k < fuel ==> !ValidStep(codec, lastBlock, difficulty, proofChange, k)
    ensures r.Some? ==> ValidProof(codec, lastBlock, r.value, difficulty)
    ensures r.Some? && proofChange > 0 ==> IsLeastValidMultiple(codec, lastBlock, difficulty, proofChange, r.value)
    ensures difficulty == 0 && fuel > 0 ==> r == Some(0)
    ensures difficulty > 64 || -64 < difficulty < 0 ==> r == None
  {
    var proof := 0;
    var k: nat := 0;
    ZeroDifficultyAcceptsAll(codec, lastBlock, 0);
    while k < fuel
      invariant k <= fuel
      invariant proof == Candidate(proofChange, k)
      invariant NoValidStepBefore(codec, lastBlock, difficulty, proofChange, k)
      invariant difficulty == 0 ==> k == 0
    {
      if ValidProof(codec, lastBlock, proof, difficulty) {
        assert IsFirstValidStep(codec, lastBlock, difficulty, proofChange, k);
        if difficulty > 64 || -64 < difficulty < 0 {
          UnreachableDifficultyRejectsAll(codec, lastBlock, proof, difficulty);
        }
        if proofChange > 0 {
          FirstValidStepIsLeastMultiple(codec, lastBlock, difficulty, proofChange, k);
        }
        return Some(proof);
      }
      NoValidStepExtend(codec, lastBlock, difficulty, proofChange, k);
      assert Candidate(proofChange, k + 1) == proof + proofChange;
      proof := proof + proofChange;
      k := k + 1;
    }
    return None;
  }
}
