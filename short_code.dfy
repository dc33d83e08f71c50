/**
  Short-code generation (backend/app.py, generate_short_code).

  The source draws each character with random.choice from
  string.ascii_letters + string.digits. Randomness is not modelled: the
  caller supplies the outcome of every draw as an index into that alphabet,
  which makes generation a pure function of its draws.
 */
module ShortCode {

  /** Number of symbols in ascii_letters + digits. */
  const AlphabetSize := 62

  /** SHORT_CODE_LENGTH, the length used when no length is given. */
  const ShortCodeLength := 6

  /** string.ascii_lowercase */
  const Lowercase: string := "abcdefghijklmnopqrstuvwxyz"

  /** string.ascii_uppercase */
  const Uppercase: string := "ABCDEFGHIJKLMNOPQRSTUVWXYZ"

  /** string.digits */
  const Digits: string := "0123456789"

  /** string.ascii_letters + string.digits, in this order. */
  const Alphabet: string := Lowercase + Uppercase + Digits

  /** The outcome of one random.choice over the alphabet: an index into it. */
  type Draw = i: int | 0 <= i < 62

  /** The draws for one code of the default length. */
  type CodeDraws = d: seq<Draw> | |d| == 6 witness [0, 0, 0, 0, 0, 0]

  /** Reference definition of the alphabet, independent of its layout. */
  predicate IsAlphanumeric(c: char)
  {
    'a' <= c <= 'z' || 'A' <= c <= 'Z' || '0' <= c <= '9'
  }

  /** A string every character of which is a letter or a digit. */
  predicate IsShortCode(s: string)
  {
    forall k :: 0 <= k < |s| ==> IsAlphanumeric(s[k])
  }

  /** The symbol that a draw selects. */
  function Symbol(d: Draw): (c: char)
    ensures IsAlphanumeric(c)
    ensures d < 26 ==> c == ('a' as int + d) as char
    ensures 26 <= d < 52 ==> c == ('A' as int + d - 26) as char
    ensures 52 <= d ==> c == ('0' as int + d - 52) as char
  {
    Alphabet[d]
  }

  /** The draw that selects a letter or digit: the inverse of Symbol. */
  function IndexOf(c: char): (d: Draw)
    requires IsAlphanumeric(c)
    ensures Symbol(d) == c
  {
    if 'a' <= c <= 'z' then c as int - 'a' as int
    else if 'A' <= c <= 'Z' then c as int - 'A' as int + 26
    else c as int - '0' as int + 52
  }

  /** Different draws select different symbols. */
  lemma SymbolInjective(d: Draw, e: Draw)
    requires Symbol(d) == Symbol(e)
    ensures d == e
  {
  }

  /** A character is in ascii_letters + digits exactly when it is a letter or a digit. */
  lemma AlphabetIsAlphanumeric(c: char)
    ensures c in Alphabet <==> IsAlphanumeric(c)
  {
    if c in Alphabet {
      var k :| 0 <= k < |Alphabet| && Alphabet[k] == c;
      assert Symbol(k) == c;
    }
    if IsAlphanumeric(c) {
      assert Alphabet[IndexOf(c)] == c;
    }
  }

  /**
    generate_short_code(length): one draw per position, joined into a string
    of exactly `length` characters of the alphabet.
   */
  function GenerateShortCode(length: nat, draws: seq<Draw>): (code: string)
    requires |draws| == length
    ensures |code| == length
    ensures IsShortCode(code)
    ensures forall k :: 0 <= k < length ==> code[k] == Symbol(draws[k])
  {
    if length == 0 then "" else [Symbol(draws[0])] + GenerateShortCode(length - 1, draws[1..])
  }

  /** The draws that produce a given code (the inverse of generation). */
  function DrawsOf(code: string): (draws: seq<Draw>)
    requires IsShortCode(code)
    ensures |draws| == |code|
  {
    if code == "" then [] else [IndexOf(code[0])] + DrawsOf(code[1..])
  }

  /** Generation forgets nothing: the draws can be read back from the code. */
  lemma {:induction false} DrawsOfGenerate(length: nat, draws: seq<Draw>)
    requires |draws| == length
    ensures DrawsOf(GenerateShortCode(length, draws)) == draws
  {
    if length > 0 {
      var code := GenerateShortCode(length, draws);
      assert code[1..] == GenerateShortCode(length - 1, draws[1..]);
      SymbolInjective(IndexOf(code[0]), draws[0]);
      DrawsOfGenerate(length - 1, draws[1..]);
    }
  }

  /** Every string of letters and digits is a code some draws generate. */
  lemma {:induction false} GenerateDrawsOf(code: string)
    requires IsShortCode(code)
    ensures GenerateShortCode(|code|, DrawsOf(code)) == code
  {
    if code != "" {
      assert IsShortCode(code[1..]);
      GenerateDrawsOf(code[1..]);
      assert DrawsOf(code)[1..] == DrawsOf(code[1..]);
    }
  }

  /** Two runs of generation give the same code only on the same draws. */
  lemma GenerateInjective(length: nat, d: seq<Draw>, e: seq<Draw>)
    requires |d| == length && |e| == length
    requires GenerateShortCode(length, d) == GenerateShortCode(length, e)
    ensures d == e
  {
  }
}
