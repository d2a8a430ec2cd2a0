/** Proof of work: the difficulty predicate on a digest and the nonce search. */
module ProofOfWork {
  import opened Types

  /** The block fields the digest covers, apart from the nonce. */
  datatype Header = Header(index: nat, timestamp: int, txs: seq<Tx>, previousHash: string)

  /** A found nonce and the digest it produced. */
  datatype Seal = Seal(nonce: nat, digest: string)

  function Digest(hash: Hasher, h: Header, nonce: nat): string {
    hash(h.index, h.timestamp, h.txs, h.previousHash, nonce)
  }

  /** The target: `d` copies of the character '0'. */
  function Zeros(d: nat): (z: string)
    ensures |z| == d
  {
    seq(d, _ => '0')
  }

  /** The first `d` characters of `s`, or all of `s` when it is shorter. */
  function Prefix(s: string, d: nat): string {
    if d <= |s| then s[..d] else s
  }

  /** The engine's test, as written: the digest's prefix equals the target. */
  predicate Meets(digest: string, d: nat) {
    Prefix(digest, d) == Zeros(d)
  }

  /** What the test means: the digest is at least `d` long and begins with
      `d` zero characters. A shorter digest never passes. */
  lemma MeetsIff(digest: string, d: nat)
    ensures Meets(digest, d) <==> |digest| >= d && forall i :: 0 <= i < d ==> digest[i] == '0'
  {
  }

  /** Reference search: the least nonce in [from, from + fuel) whose digest
      meets the difficulty, or None when there is none in that window. */
  function FirstNonce(hash: Hasher, h: Header, d: nat, from: nat, fuel: nat): (r: Option<nat>)
    ensures r.Some? ==> from <= r.value < from + fuel && Meets(Digest(hash, h, r.value), d)
    ensures r.Some? ==> forall k :: from <= k < r.value ==> !Meets(Digest(hash, h, k), d)
    ensures r.None? ==> forall k :: from <= k < from + fuel ==> !Meets(Digest(hash, h, k), d)
    decreases fuel
  {
    if fuel == 0 then None
    else if Meets(Digest(hash, h, from), d) then Some(from)
    else FirstNonce(hash, h, d, from + 1, fuel - 1)
  }

  function SealOf(hash: Hasher, h: Header, n: Option<nat>): Option<Seal> {
    match n
    case None => None
    case Some(k) => Some(Seal(k, Digest(hash, h, k)))
  }

  /** The mining loop. The digest starts out undefined with nonce 0; each
      round increments the nonce first and then rehashes, until a digest
      meets the difficulty. The source loop is unbounded; here `fuel` caps
      the number of rounds and None reports that the cap was reached. */
  method MineBlock(hash: Hasher, h: Header, d: nat, fuel: nat) returns (r: Option<Seal>)
    ensures r.Some? ==> 1 <= r.value.nonce <= fuel
    ensures r.Some? ==> r.value.digest == Digest(hash, h, r.value.nonce) && Meets(r.value.digest, d)
    ensures r.Some? ==> forall k :: 1 <= k < r.value.nonce ==> !Meets(Digest(hash, h, k), d)
    ensures r.None? ==> forall k :: 1 <= k <= fuel ==> !Meets(Digest(hash, h, k), d)
    ensures r == SealOf(hash, h, FirstNonce(hash, h, d, 1, fuel))
  {
    var nonce: nat := 0;
    var digest: Option<string> := None;
    while digest.None? || !Meets(digest.value, d)
      invariant nonce <= fuel
      invariant digest.None? <==> nonce == 0
      invariant digest.Some? ==> digest.value == Digest(hash, h, nonce)
      invariant forall k :: 1 <= k < nonce ==> !Meets(Digest(hash, h, k), d)
      decreases fuel - nonce
    {
      if nonce == fuel {
        r := None;
        return;
      }
      nonce := nonce + 1;
      digest := Some(Digest(hash, h, nonce));
    }
    r := Some(Seal(nonce, digest.value));
  }
}
