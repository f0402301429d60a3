/** The proof-of-work puzzle: `valid_proof` and the decimal text it hashes. */
module Puzzle {

  /** Number of leading hex zeros a digest must start with. */
  const Difficulty: nat := 4
  const Target: string := "0000"

  /** The character of the decimal digit `d`. */
  function DigitChar(d: nat): char
    requires d < 10
  {
    ('0' as int + d) as char
  }

  predicate IsDigit(c: char)
  {
    '0' <= c <= '9'
  }

  /** Decimal text of a non-negative integer, without leading zeros. */
  function Digits(n: nat): string
    decreases n
  {
    if n < 10 then [DigitChar(n)] else Digits(n / 10) + [DigitChar(n % 10)]
  }

  /** `str(n)` of a natural is non-empty, all digits, and has no leading zero. */
  lemma {:induction false} DigitsShape(n: nat)
    ensures |Digits(n)| >= 1
    ensures forall i :: 0 <= i < |Digits(n)| ==> IsDigit(Digits(n)[i])
    ensures |Digits(n)| > 1 ==> Digits(n)[0] != '0'
    decreases n
  {
    if n >= 10 {
      DigitsShape(n / 10);
    }
  }

  /** `str(n)` of a Python int: an optional minus sign, then the digits. */
  function Decimal(n: int): string
  {
    if n < 0 then "-" + Digits(-n) else Digits(n)
  }

  /** Reads back a string of digits, most significant first. */
  function DigitsValue(s: string): int
    decreases |s|
  {
    if s == [] then 0 else DigitsValue(s[..|s| - 1]) * 10 + (s[|s| - 1] as int - '0' as int)
  }

  /** The decimal text of `n` reads back as `n`. */
  lemma {:induction false} DigitsRoundTrip(n: nat)
    ensures DigitsValue(Digits(n)) == n
  {
    if n >= 10 {
      var s := Digits(n);
      DigitsShape(n / 10);
      assert s[..|s| - 1] == Digits(n / 10);
      DigitsRoundTrip(n / 10);
    }
  }

  /** Distinct naturals have distinct digit strings. */
  lemma DigitsInjective(a: nat, b: nat)
    requires Digits(a) == Digits(b)
    ensures a == b
  {
    DigitsRoundTrip(a);
    DigitsRoundTrip(b);
  }

  /** The sign of `n` is visible in the first character of its decimal text. */
  lemma DecimalSign(n: int)
    ensures n < 0 ==> Decimal(n) == "-" + Digits(-n) && Decimal(n)[0] == '-'
    ensures n >= 0 ==> Decimal(n) == Digits(n) && IsDigit(Decimal(n)[0])
  {
    DigitsShape(if n < 0 then -n else n);
  }

  /** Distinct integers have distinct decimal texts. */
  lemma DecimalInjective(a: int, b: int)
    requires Decimal(a) == Decimal(b)
    ensures a == b
  {
    DecimalSign(a);
    DecimalSign(b);
    if a < 0 && b < 0 {
      assert Digits(-a) == Decimal(a)[1..];
      assert Digits(-b) == Decimal(b)[1..];
      DigitsInjective(-a, -b);
    } else if a >= 0 && b >= 0 {
      DigitsInjective(a, b);
    }
  }

  /** The text `f'{last_proof}{proof}'` that `valid_proof` hashes. */
  function Guess(lastProof: int, proof: int): string
  {
    Decimal(lastProof) + Decimal(proof)
  }

  /** For a fixed last proof, the search hashes a different text for every candidate. */
  lemma GuessDeterminesProof(lastProof: int, p: int, q: int)
    requires Guess(lastProof, p) == Guess(lastProof, q)
    ensures p == q
  {
    var n := |Decimal(lastProof)|;
    assert Decimal(p) == Guess(lastProof, p)[n..] == Guess(lastProof, q)[n..] == Decimal(q);
    DecimalInjective(p, q);
  }

  /** The text has no separator, so different (last proof, proof) pairs can share it. */
  lemma GuessAmbiguousAcrossLastProofs()
    ensures Guess(1, 23) == Guess(12, 3)
  {
  }

  /** Python slicing `s[:n]` for `n >= 0`: the first `n` characters, or all of a shorter `s`. */
  function Take(s: string, n: nat): (t: string)
    ensures |t| == if n <= |s| then n else |s|
    ensures t <= s
  {
    if n <= |s| then s[..n] else s
  }

  /** `guess_hash[:4] == "0000"`. */
  predicate ValidDigest(h: string)
  {
    Take(h, Difficulty) == Target
  }

  /** A digest is accepted exactly when it has at least four characters and they are all `'0'`. */
  lemma ValidDigestIff(h: string)
    ensures ValidDigest(h) <==> |h| >= 4 && forall i :: 0 <= i < 4 ==> h[i] == '0'
  {
  }

  /** `valid_proof(last_proof, proof)` with `sha256` the hex digest of a text. */
  predicate ValidProof(sha256: string -> string, lastProof: int, proof: int)
  {
    ValidDigest(sha256(Guess(lastProof, proof)))
  }

  /**
   * `valid_proof` in full: the digest of the decimal texts of the last proof and the proof,
   * written one after the other, has at least four characters and they are all `'0'`.
   */
  lemma ValidProofIff(sha256: string -> string, lastProof: int, proof: int)
    ensures var h := sha256(Decimal(lastProof) + Decimal(proof));
            ValidProof(sha256, lastProof, proof) <==> |h| >= 4 && forall i :: 0 <= i < 4 ==> h[i] == '0'
  {
    ValidDigestIff(sha256(Guess(lastProof, proof)));
  }

  /** `proof` is the first non-negative proof that `valid_proof` accepts. */
  ghost predicate IsMinimalProof(sha256: string -> string, lastProof: int, proof: int)
  {
    0 <= proof && ValidProof(sha256, lastProof, proof) &&
    forall q :: 0 <= q < proof ==> !ValidProof(sha256, lastProof, q)
  }

  /** The search result is determined by the digest and the last proof alone. */
  lemma MinimalProofUnique(sha256: string -> string, lastProof: int, p: int, q: int)
    requires IsMinimalProof(sha256, lastProof, p)
    requires IsMinimalProof(sha256, lastProof, q)
    ensures p == q
  {
  }
}
