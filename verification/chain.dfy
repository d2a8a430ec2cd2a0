/** The chain: genesis, linkage and proof-of-work invariants, and lookups. */
module Chain {
  import opened Types
  import opened ProofOfWork

  /** The genesis block. Its stored timestamp and the timestamp fed to the
      digest come from two separate clock reads and may differ. */
  function GenesisBlock(hash: Hasher, timestamp: int, hashTimestamp: int): Block {
    Block(0, timestamp, [], "0", 0, hash(0, hashTimestamp, [], "0", 0))
  }

  /** The fixed shape of block 0, whatever its digest. */
  predicate IsGenesis(b: Block) {
    b.index == 0 && b.txs == [] && b.previousHash == "0" && b.nonce == 0
  }

  /** Every block sits at its own index and points at its predecessor's digest. */
  predicate Linked(blocks: seq<Block>) {
    && |blocks| > 0
    && IsGenesis(blocks[0])
    && forall i :: 0 < i < |blocks| ==>
         blocks[i].index == i && blocks[i].previousHash == blocks[i - 1].hash
  }

  function HeaderOf(b: Block): Header {
    Header(b.index, b.timestamp, b.txs, b.previousHash)
  }

  /** Block `b` carries a positive nonce, its stored digest recomputes from
      its fields, and that digest meets difficulty `d`. */
  predicate SealedBy(hash: Hasher, d: nat, b: Block) {
    b.nonce >= 1 && b.hash == Digest(hash, HeaderOf(b), b.nonce) && Meets(b.hash, d)
  }

  /** Every block after genesis is sealed; genesis is the unchecked anchor. */
  predicate AllSealed(hash: Hasher, d: nat, blocks: seq<Block>) {
    forall i :: 0 < i < |blocks| ==> SealedBy(hash, d, blocks[i])
  }

  function Latest(blocks: seq<Block>): Block
    requires |blocks| > 0
  {
    blocks[|blocks| - 1]
  }

  /** Block lookup by index, as the block route does it. */
  function BlockAt(blocks: seq<Block>, index: int): (r: Result<Block>)
    ensures r.Ok? <==> 0 <= index < |blocks|
    ensures r.Ok? ==> r.value == blocks[index]
    ensures r.Err? ==> r.error == BlockNotFound
  {
    if 0 <= index < |blocks| then Ok(blocks[index]) else Err(BlockNotFound)
  }

  /** On a linked chain, the block found at an index records that index. */
  lemma BlockAtIndex(blocks: seq<Block>, index: int)
    requires Linked(blocks)
    requires BlockAt(blocks, index).Ok?
    ensures BlockAt(blocks, index).value.index == index
  {
  }

  /** Appending a block that records the chain's length as its index and the
      last digest as its predecessor keeps the chain linked; appending a
      sealed block keeps every block sealed. */
  lemma AppendPreservesLinked(hash: Hasher, d: nat, blocks: seq<Block>, b: Block)
    requires Linked(blocks)
    requires b.index == |blocks| && b.previousHash == Latest(blocks).hash
    ensures Linked(blocks + [b])
    ensures AllSealed(hash, d, blocks) && SealedBy(hash, d, b) ==> AllSealed(hash, d, blocks + [b])
  {
  }
}
