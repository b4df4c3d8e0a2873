/** The pair secret both sides of a pairing compute, and the write authorisations derived from it. */
module Pairing {
  import opened Bytes
  import opened Crypto

  type Nonce = n: seq<byte> | |n| == 32 witness seq(32, _ => 0)

  /** Rust's array comparison: lexicographic. */
  predicate LessEq(a: seq<byte>, b: seq<byte>) {
    a == [] || (b != [] && (a[0] < b[0] || (a[0] == b[0] && LessEq(a[1..], b[1..]))))
  }

  function ComputePairSecret(mine: Nonce, theirs: Nonce): Secret {
    var first: seq<byte> := if LessEq(mine, theirs) then mine else theirs;
    var second: seq<byte> := if LessEq(mine, theirs) then theirs else mine;
    Hkdf(Raw(first + second), "pairing", 0)
  }

  lemma {:induction false} LessEqTotal(a: seq<byte>, b: seq<byte>)
    ensures LessEq(a, b) || LessEq(b, a)
  {
    if a != [] && b != [] && a[0] == b[0] {
      LessEqTotal(a[1..], b[1..]);
    }
  }

  lemma {:induction false} LessEqAntisymmetric(a: seq<byte>, b: seq<byte>)
    requires LessEq(a, b) && LessEq(b, a)
    ensures a == b
  {
    if a != [] {
      LessEqAntisymmetric(a[1..], b[1..]);
      assert a == [a[0]] + a[1..] && b == [b[0]] + b[1..];
    }
  }

  /** Whoever computes it, in whichever order, gets the same secret. */
  lemma PairSecretIsSymmetric(a: Nonce, b: Nonce)
    ensures ComputePairSecret(a, b) == ComputePairSecret(b, a)
  {
    LessEqTotal(a, b);
    if LessEq(a, b) && LessEq(b, a) {
      LessEqAntisymmetric(a, b);
    }
  }

  lemma {:induction false} FirstDifferenceDecides(a: seq<byte>, b: seq<byte>, i: nat)
    requires i < |a| && i < |b| && a[..i] == b[..i] && a[i] < b[i]
    ensures LessEq(a, b) && !LessEq(b, a)
    decreases i
  {
    if i > 0 {
      assert a[0] == a[..i][0] == b[..i][0] == b[0];
      assert a[1..][..i - 1] == a[..i][1..] && b[1..][..i - 1] == b[..i][1..];
      FirstDifferenceDecides(a[1..], b[1..], i - 1);
    }
  }

  /** The nonce that is smaller at the first byte where they differ goes first into the derivation. */
  lemma SmallerNonceGoesFirst(a: Nonce, b: Nonce, i: nat)
    requires i < 32 && a[..i] == b[..i] && a[i] < b[i]
    ensures ComputePairSecret(a, b) == ComputePairSecret(b, a) == Hkdf(Raw(a + b), "pairing", 0)
  {
    FirstDifferenceDecides(a, b, i);
  }

  /** Two pairings share a secret only if they exchanged the same two nonces. */
  lemma PairSecretIdentifiesPairing(a: Nonce, b: Nonce, c: Nonce, d: Nonce)
    ensures ComputePairSecret(a, b) == ComputePairSecret(c, d) <==> (a == c && b == d) || (a == d && b == c)
  {
    PairSecretIsSymmetric(a, b);
    var ab := if LessEq(a, b) then a + b else b + a;
    var cd := if LessEq(c, d) then c + d else d + c;
    assert ab[..32] == (if LessEq(a, b) then a else b) && ab[32..] == (if LessEq(a, b) then b else a);
    assert cd[..32] == (if LessEq(c, d) then c else d) && cd[32..] == (if LessEq(c, d) then d else c);
  }

  /** The authorisation for write number `n`. */
  function DeriveAuth(pairSecret: Secret, n: nat): Secret {
    Hkdf(pairSecret, "auth", n)
  }

  function SlotHash(pairSecret: Secret, n: nat): Digest {
    Sha256(DeriveAuth(pairSecret, n))
  }
}
