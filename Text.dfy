/** Text helpers: decimal rendering of integers, `String.startsWith` and `"0".repeat(n)`. */
module Text {

  function Digit(d: nat): char
    requires d < 10
  {
    ('0' as int + d) as char
  }

  /** Decimal rendering of a non-negative integer, most significant digit first. */
  function NatToString(n: nat): string
    decreases n
  {
    if n < 10 then [Digit(n)] else NatToString(n / 10) + [Digit(n % 10)]
  }

  /** Java's decimal rendering of an `int`/`long` (a leading '-' for negative values). */
  function IntToString(i: int): string
  {
    if i < 0 then "-" + NatToString(-i) else NatToString(i)
  }

  /** `String.startsWith(prefix)`. */
  predicate StartsWith(s: string, prefix: string)
  {
    |prefix| <= |s| && s[..|prefix|] == prefix
  }

  /** `"0".repeat(n)`. */
  function Zeros(n: nat): (r: string)
    ensures |r| == n
    ensures forall i :: 0 <= i < n ==> r[i] == '0'
  {
    if n == 0 then "" else Zeros(n - 1) + "0"
  }

  /** The proof-of-work test: the digest starts with `d` '0' characters. */
  predicate MeetsDifficulty(hash: string, d: nat)
  {
    StartsWith(hash, Zeros(d))
  }

  /** Proof of work, character by character. */
  lemma MeetsDifficultyIff(hash: string, d: nat)
    ensures MeetsDifficulty(hash, d) <==> d <= |hash| && forall i :: 0 <= i < d ==> hash[i] == '0'
  {
    if d <= |hash| && forall i :: 0 <= i < d ==> hash[i] == '0' {
      assert hash[..d] == Zeros(d);
    }
  }

  /** A digest that meets a difficulty meets every smaller one. */
  lemma MeetsDifficultyMonotone(hash: string, d: nat, e: nat)
    requires e <= d
    requires MeetsDifficulty(hash, d)
    ensures MeetsDifficulty(hash, e)
  {
    MeetsDifficultyIff(hash, d);
    MeetsDifficultyIff(hash, e);
  }
}
