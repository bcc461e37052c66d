/** The `Block` record, its transactions, and the hash that identifies a block (blockchain.py:8-28). */
module BlockModel {
  import opened Decimal

  predicate IsLowerHex(c: char) {
    c in "0123456789abcdef"
  }

  /** What `hexdigest()` of SHA-256 returns: 64 lowercase hexadecimal characters. */
  predicate IsHexDigest(s: string) {
    |s| == 64 && forall i :: 0 <= i < |s| ==> IsLowerHex(s[i])
  }

  type Digest = s: string | IsHexDigest(s) witness seq(64, _ => '0')

  /** One pending transfer, `{'sender': …, 'recipient': …, 'amount': …}`; no field is validated. */
  datatype Transaction = Transaction(sender: string, recipient: string, amount: int)

  /**
   * The primitives the source takes from its libraries, left uninterpreted:
   * the SHA-256 hex digest of (the UTF-8 bytes of) a string, and `str()` of a
   * block's transaction list.
   */
  datatype Codec = Codec(sha256: string -> Digest, showData: seq<Transaction> -> string)

  /** `previous_hash`: the integer 0 for the genesis block, otherwise the predecessor's hex digest. */
  datatype PrevHash = Sentinel | Linked(digest: string)

  /** `str(previous_hash)` */
  function ShowPrev(p: PrevHash): string {
    match p
    case Sentinel => "0"
    case Linked(h) => h
  }

  /** A minted block; it is never changed after construction. */
  datatype Block = Block(
    version: string,
    index: int,
    timestamp: int,
    data: seq<Transaction>,
    previousHash: PrevHash,
    proof: int,
    difficulty: int)

  /** The genesis block of blockchain.py:50: index 1, previous hash 0, proof 0, empty data. */
  function Genesis(version: string, timestamp: int, difficulty: int): Block {
    Block(version, 1, timestamp, [], Sentinel, 0, difficulty)
  }

  /** The textual rendering of the seven fields, in the order they are hashed. */
  function Fields(codec: Codec, b: Block): (fs: seq<string>)
    ensures |fs| == 7
  {
    [b.version, IntToString(b.index), IntToString(b.timestamp), codec.showData(b.data),
     ShowPrev(b.previousHash), IntToString(b.proof), IntToString(b.difficulty)]
  }

  function Concat(xs: seq<string>): string {
    if |xs| == 0 then "" else xs[0] + Concat(xs[1..])
  }

  /** The string whose digest is the block's hash: the rendered fields joined with no separator. */
  function Preimage(codec: Codec, b: Block): string {
    Concat(Fields(codec, b))
  }

  /** The preimage spelled out: the seven renderings in the order of blockchain.py:21-27. */
  lemma PreimageInFieldOrder(codec: Codec, b: Block)
    ensures Preimage(codec, b) ==
      b.version + IntToString(b.index) + IntToString(b.timestamp) + codec.showData(b.data) +
      ShowPrev(b.previousHash) + IntToString(b.proof) + IntToString(b.difficulty)
  {
    var fs := Fields(codec, b);
    assert Concat(fs[6..]) == fs[6] + Concat(fs[7..]) == fs[6];
    assert Concat(fs[5..]) == fs[5] + Concat(fs[6..]);
    assert Concat(fs[4..]) == fs[4] + Concat(fs[5..]);
    assert Concat(fs[3..]) == fs[3] + Concat(fs[4..]);
    assert Concat(fs[2..]) == fs[2] + Concat(fs[3..]);
    assert Concat(fs[1..]) == fs[1] + Concat(fs[2..]);
    assert Concat(fs) == fs[0] + Concat(fs[1..]);
  }

  /** `Block.hash`, recomputed on demand from the seven fields. */
  function Hash(codec: Codec, b: Block): Digest {
    codec.sha256(Preimage(codec, b))
  }

  /**
   * If two field lists agree everywhere except possibly at position i and
   * their concatenations are equal, they agree at i too.
   */
  lemma {:induction false} ConcatDeterminesField(xs: seq<string>, ys: seq<string>, i: nat)
    requires |xs| == |ys| && i < |xs|
    requires forall j :: 0 <= j < |xs| && j != i ==> xs[j] == ys[j]
    requires Concat(xs) == Concat(ys)
    ensures xs[i] == ys[i]
    decreases i
  {
    if i == 0 {
      assert xs[1..] == ys[1..];
      var c := Concat(xs[1..]);
      assert xs[0] + c == ys[0] + c;
      assert |xs[0]| == |ys[0]|;
      assert xs[0] == (xs[0] + c)[..|xs[0]|] == (ys[0] + c)[..|ys[0]|] == ys[0];
    } else {
      assert xs[0] == ys[0];
      var a := xs[0];
      assert Concat(xs[1..]) == (a + Concat(xs[1..]))[|a|..] == (a + Concat(ys[1..]))[|a|..] == Concat(ys[1..]);
      forall j | 0 <= j < |xs[1..]| && j != i - 1
        ensures xs[1..][j] == ys[1..][j]
      {
        assert xs[1..][j] == xs[j + 1] && ys[1..][j] == ys[j + 1];
      }
      ConcatDeterminesField(xs[1..], ys[1..], i - 1);
    }
  }

  /**
   * `t` is `b` with exactly one field changed, in a way that changes that
   * field's rendering (for `data` and `previous_hash` the renderings are
   * required to differ; for the integer fields a different value suffices).
   */
  predicate SingleFieldTamper(codec: Codec, b: Block, t: Block) {
    t != b &&
    (|| t == b.(version := t.version)
     || t == b.(index := t.index)
     || t == b.(timestamp := t.timestamp)
     || (t == b.(data := t.data) && codec.showData(t.data) != codec.showData(b.data))
     || (t == b.(previousHash := t.previousHash) && ShowPrev(t.previousHash) != ShowPrev(b.previousHash))
     || t == b.(proof := t.proof)
     || t == b.(difficulty := t.difficulty))
  }

  /** Changing any single field of a block changes the string that is hashed. */
  lemma TamperedFieldChangesPreimage(codec: Codec, b: Block, t: Block)
    requires SingleFieldTamper(codec, b, t)
    ensures Preimage(codec, t) != Preimage(codec, b)
  {
    var fb, ft := Fields(codec, b), Fields(codec, t);
    var i: nat :=
      if t.version != b.version then 0
      else if t.index != b.index then 1
      else if t.timestamp != b.timestamp then 2
      else if t.data != b.data then 3
      else if t.previousHash != b.previousHash then 4
      else if t.proof != b.proof then 5
      else 6;
    if Preimage(codec, t) == Preimage(codec, b) {
      ConcatDeterminesField(ft, fb, i);
      if i == 1 {
        IntToStringInjective(t.index, b.index);
      } else if i == 2 {
        IntToStringInjective(t.timestamp, b.timestamp);
      } else if i == 5 {
        IntToStringInjective(t.proof, b.proof);
      } else if i == 6 {
        IntToStringInjective(t.difficulty, b.difficulty);
      }
      assert false;
    }
  }

  /**
   * Because the fields are joined without separators, two blocks that differ in
   * two adjacent fields can share a preimage and hence a hash: index 1 with
   * timestamp 23, and index 12 with timestamp 3.
   */
  lemma FieldBoundaryCollision(codec: Codec, b: Block)
    ensures b.(index := 1, timestamp := 23) != b.(index := 12, timestamp := 3)
    ensures Hash(codec, b.(index := 1, timestamp := 23)) == Hash(codec, b.(index := 12, timestamp := 3))
  {
    var b1, b2 := b.(index := 1, timestamp := 23), b.(index := 12, timestamp := 3);
    assert IntToString(1) == "1" && IntToString(3) == "3";
    assert IntToString(23) == NatToString(2) + [DigitChar(3)] == "23";
    assert IntToString(12) == NatToString(1) + [DigitChar(2)] == "12";
    PreimageInFieldOrder(codec, b1);
    PreimageInFieldOrder(codec, b2);
    assert b.version + "1" + "23" == b.version + "12" + "3";
    assert Preimage(codec, b1) == Preimage(codec, b2);
  }
}
