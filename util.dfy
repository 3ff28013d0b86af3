/** Small helpers of the utility package: a random identifier generator and a
    membership test over a slice of unsigned integers. */
module Util {

  /** Go's `uint` on a 64-bit platform. */
  newtype uint = x: int | 0 <= x < 0x1_0000_0000_0000_0000

  /** The alphabet random strings are drawn from, written out in three parts:
      "1234567890", then the lower-case and the upper-case Latin letters, in
      that order, 62 characters in all. */
  const Digits: string := "1234567890"
  const LowerLetters: string := "abcdefghijklmnopqrstuvwxyz"
  const UpperLetters: string := "ABCDEFGHIJKLMNOPQRSTUVWXYZ"
  const LetterRunes: string := Digits + LowerLetters + UpperLetters

  predicate IsAlphanumeric(c: char)
  {
    '0' <= c <= '9' || 'a' <= c <= 'z' || 'A' <= c <= 'Z'
  }

  lemma DigitsAreDigitRange(c: char)
    ensures c in Digits <==> '0' <= c <= '9'
  {
  }

  lemma LowerLettersAreLowerRange(c: char)
    ensures c in LowerLetters <==> 'a' <= c <= 'z'
  {
  }

  lemma UpperLettersAreUpperRange(c: char)
    ensures c in UpperLetters <==> 'A' <= c <= 'Z'
  {
  }

  /** The alphabet has 62 entries and holds exactly the characters 0-9, a-z and A-Z. */
  lemma LetterRunesAreAlphanumeric()
    ensures |LetterRunes| == 62
    ensures forall c :: c in LetterRunes <==> IsAlphanumeric(c)
  {
    forall c: char ensures c in LetterRunes <==> IsAlphanumeric(c) {
      assert c in LetterRunes <==> c in Digits || c in LowerLetters || c in UpperLetters;
      DigitsAreDigitRange(c);
      LowerLettersAreLowerRange(c);
      UpperLettersAreUpperRange(c);
    }
  }

  /** Returns a string of `n` characters, each picked from `LetterRunes` at an
      index chosen in [0, |LetterRunes|). The choice stands for `rand.Intn`: the
      model leaves it arbitrary. */
  method RandStringRunes(n: nat) returns (s: string)
    ensures |s| == n
    ensures forall i :: 0 <= i < |s| ==> s[i] in LetterRunes
    ensures forall i :: 0 <= i < |s| ==> IsAlphanumeric(s[i])
  {
    var b := new char[n];
    for i := 0 to b.Length
      invariant forall j :: 0 <= j < i ==> b[j] in LetterRunes
    {
      var k :| 0 <= k < |LetterRunes|;
      b[i] := LetterRunes[k];
    }
    s := b[..];
    LetterRunesAreAlphanumeric();
  }

  /** Reports whether `e` occurs in `s`, scanning from the front and stopping
      at the first match. */
  method ContainsUint(s: seq<uint>, e: uint) returns (found: bool)
    ensures found <==> e in s
    ensures found <==> exists i :: 0 <= i < |s| && s[i] == e
    ensures s == [] ==> !found
  {
    for i := 0 to |s|
      invariant forall j :: 0 <= j < i ==> s[j] != e
    {
      if s[i] == e {
        return true;
      }
    }
    return false;
  }
}
