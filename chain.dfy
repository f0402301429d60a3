/** Shape of a chain built by `new_block`: 1-based indices, hash linkage and chained proofs. */
module Chain {
  import opened Types
  import opened Puzzle

  /** `hash(block)`: the SHA-256 hex digest of the block's sorted-keys JSON text. */
  function BlockHash(sha256: string -> string, canonicalJson: Block -> string, b: Block): string
  {
    sha256(canonicalJson(b))
  }

  /** `hash` depends on the block only through its canonical JSON text, and deterministically. */
  lemma BlockHashDeterministic(sha256: string -> string, canonicalJson: Block -> string, a: Block, b: Block)
    requires canonicalJson(a) == canonicalJson(b)
    ensures BlockHash(sha256, canonicalJson, a) == BlockHash(sha256, canonicalJson, b)
  {
  }

  /** Every block's index is its 1-based position. */
  predicate Indexed(c: seq<Block>)
  {
    forall i :: 0 <= i < |c| ==> c[i].index == i + 1
  }

  /** Every block after the first names the hash of its predecessor. */
  predicate Linked(sha256: string -> string, canonicalJson: Block -> string, c: seq<Block>)
  {
    forall i :: 0 < i < |c| ==> c[i].previousHash == BlockHash(sha256, canonicalJson, c[i - 1])
  }

  /** Every block after the first carries a proof `valid_proof` accepts against its predecessor's. */
  predicate ProofsChained(sha256: string -> string, c: seq<Block>)
  {
    forall i :: 0 < i < |c| ==> ValidProof(sha256, c[i - 1].proof, c[i].proof)
  }

  predicate Sound(sha256: string -> string, canonicalJson: Block -> string, c: seq<Block>)
  {
    Indexed(c) && Linked(sha256, canonicalJson, c) && ProofsChained(sha256, c)
  }

  /** Appending keeps the indices 1-based exactly when the new block's index is the new length. */
  lemma IndexedSnoc(c: seq<Block>, b: Block)
    ensures Indexed(c + [b]) <==> Indexed(c) && b.index == |c| + 1
  {
    if Indexed(c + [b]) {
      assert (c + [b])[|c|] == b;
      forall i | 0 <= i < |c| ensures c[i].index == i + 1 {
        assert (c + [b])[i] == c[i];
      }
    }
  }

  /** Appending to a non-empty chain keeps it linked exactly when the new block names the tip's hash. */
  lemma LinkedSnoc(sha256: string -> string, canonicalJson: Block -> string, c: seq<Block>, b: Block)
    requires c != []
    ensures Linked(sha256, canonicalJson, c + [b]) <==>
            Linked(sha256, canonicalJson, c) && b.previousHash == BlockHash(sha256, canonicalJson, c[|c| - 1])
  {
    var d := c + [b];
    if Linked(sha256, canonicalJson, d) {
      assert d[|c|] == b && d[|c| - 1] == c[|c| - 1];
      forall i | 0 < i < |c|
        ensures c[i].previousHash == BlockHash(sha256, canonicalJson, c[i - 1])
      {
        assert d[i] == c[i] && d[i - 1] == c[i - 1];
      }
    }
  }

  /** Appending to a non-empty chain keeps proofs chained exactly when the new proof is valid against the tip's. */
  lemma ProofsChainedSnoc(sha256: string -> string, c: seq<Block>, b: Block)
    requires c != []
    ensures ProofsChained(sha256, c + [b]) <==>
            ProofsChained(sha256, c) && ValidProof(sha256, c[|c| - 1].proof, b.proof)
  {
    var d := c + [b];
    if ProofsChained(sha256, d) {
      assert d[|c|] == b && d[|c| - 1] == c[|c| - 1];
      forall i | 0 < i < |c|
        ensures ValidProof(sha256, c[i - 1].proof, c[i].proof)
      {
        assert d[i] == c[i] && d[i - 1] == c[i - 1];
      }
    }
  }

  /** The block a validated extension must be: next index, tip's hash, proof valid against the tip's. */
  predicate Extends(sha256: string -> string, canonicalJson: Block -> string, c: seq<Block>, b: Block)
    requires c != []
  {
    b.index == c[|c| - 1].index + 1 &&
    b.previousHash == BlockHash(sha256, canonicalJson, c[|c| - 1]) &&
    ValidProof(sha256, c[|c| - 1].proof, b.proof)
  }

  /** A sound chain stays sound under exactly the appends that extend its tip. */
  lemma SoundSnoc(sha256: string -> string, canonicalJson: Block -> string, c: seq<Block>, b: Block)
    requires c != [] && Sound(sha256, canonicalJson, c)
    ensures Sound(sha256, canonicalJson, c + [b]) <==> Extends(sha256, canonicalJson, c, b)
  {
    IndexedSnoc(c, b);
    LinkedSnoc(sha256, canonicalJson, c, b);
    ProofsChainedSnoc(sha256, c, b);
  }

  /** An unchecked append of a block that does not name the tip's hash breaks the linkage. */
  lemma UncheckedAppendBreaksLinkage(sha256: string -> string, canonicalJson: Block -> string, c: seq<Block>, b: Block)
    requires c != [] && Linked(sha256, canonicalJson, c)
    requires b.previousHash != BlockHash(sha256, canonicalJson, c[|c| - 1])
    ensures !Linked(sha256, canonicalJson, c + [b])
  {
    LinkedSnoc(sha256, canonicalJson, c, b);
  }
}
