/** The two digests of blockchain.py: the block hash used for chain linkage and
    the proof-of-work test. SHA-256 and `json.dumps` are library code, so they
    appear here as fixed functions about which nothing is known except their
    output format; every result below holds for any choice of them. */
module Hashing {
  import opened LedgerTypes
  import opened Decimal

  predicate IsHexDigit(c: char) { '0' <= c <= '9' || 'a' <= c <= 'f' }

  ghost predicate IsHexDigest(s: string)
  {
    |s| == 64 && forall i :: 0 <= i < |s| ==> IsHexDigit(s[i])
  }

  /** What `hexdigest()` of a SHA-256 object returns: 64 lower-case hex characters. */
  type HexDigest = s: string | IsHexDigest(s) witness seq(64, _ => '0')

  /** `hashlib.sha256(data).hexdigest()`, left uninterpreted. */
  const Sha256Hex: string -> HexDigest

  /** `json.dumps(block, sort_keys=True)`, left uninterpreted. */
  const CanonicalJson: Block -> string

  /** `BlockChain.hash`: the digest of the block's canonical serialisation.
      It is 64 lower-case hex characters, so a computed hash passed back to
      `new_block` as `previous_hash` is truthy and is taken as given. */
  function BlockHash(b: Block): (h: HexDigest)
    ensures IsHexDigest(h) && Truthy(Text(h))
  {
    Sha256Hex(CanonicalJson(b))
  }

  /** The prefix a proof's digest must start with. */
  const Target: string := "1516"

  /** The string `f'{last_proof}{proof}'` that `valid_proof` hashes. */
  function Guess(lastProof: int, proof: int): (g: string)
    ensures var k := |ToDecimal(lastProof)|;
      k <= |g| && g[..k] == ToDecimal(lastProof) && ParseDecimal(g[k..]) == Some(proof)
  {
    var g := ToDecimal(lastProof) + ToDecimal(proof);
    DecimalRoundTrip(proof);
    assert g[|ToDecimal(lastProof)|..] == ToDecimal(proof);
    g
  }

  /** `valid_proof`: the first four hex characters of the digest are the target. */
  predicate ValidProof(lastProof: int, proof: int)
    ensures ValidProof(lastProof, proof) <==>
      var d := Sha256Hex(Guess(lastProof, proof));
      d[0] == '1' && d[1] == '5' && d[2] == '1' && d[3] == '6'
  {
    var d: string := Sha256Hex(Guess(lastProof, proof));
    PrefixIsTarget(d);
    d[..4] == Target
  }

  /** Comparing a four-character prefix with the target is comparing its characters. */
  lemma PrefixIsTarget(d: string)
    requires |d| >= 4
    ensures d[..4] == Target <==> d[0] == '1' && d[1] == '5' && d[2] == '1' && d[3] == '6'
  {
    if d[0] == '1' && d[1] == '5' && d[2] == '1' && d[3] == '6' {
      assert d[..4] == ['1', '5', '1', '6'];
    }
  }

  /** The guess string has no separator, so different pairs (1, 23) and (12, 3)
      hash the same string and are valid or invalid together. */
  lemma GuessIsAmbiguous()
    ensures Guess(1, 23) == Guess(12, 3)
    ensures ValidProof(1, 23) <==> ValidProof(12, 3)
  {
  }

  /** Neither half of the guess alone is lost: fixing `last_proof`, distinct
      proofs give distinct guess strings. */
  lemma GuessInjectiveInProof(lastProof: int, p: int, q: int)
    requires Guess(lastProof, p) == Guess(lastProof, q)
    ensures p == q
  {
  }
}
