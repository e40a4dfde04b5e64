/** Bytes as characters: words in any casing, and numerals by the places of their
    digits. The predicates do not look at how the parser folds letters or reads
    digits; the lemmas say that it does both right. */
module HttpAlphabet {
  import opened HttpTables

  const LENGTH_WORD := "content-lengthing"
  const ENCODING_WORD := "transfer-encoding"
  const CHUNKED_WORD := "chunked"

  const DECIMAL_DIGITS := "0123456789"
  const HEX_DIGITS := "0123456789abcdef"
  const CAPITAL_HEX_DIGITS := "0123456789ABCDEF"

  /** The byte is this character, or the capital of this small letter. */
  predicate Folds(c: byte, letter: char) {
    c == letter as int || ('a' <= letter <= 'z' && c + 32 == letter as int)
  }

  // The whole text is this word, in any casing.
  predicate Spells(s: seq<byte>, word: string) {
    |s| == |word| && forall i :: 0 <= i < |s| ==> Folds(s[i], word[i])
  }

  // The text is no more than a beginning of this word, in any casing.
  predicate Begins(s: seq<byte>, word: string) {
    |s| <= |word| && forall i :: 0 <= i < |s| ==> Folds(s[i], word[i])
  }

  /** Equal bytes, or a capital letter and its small one. */
  predicate SameLetter(a: byte, b: byte) {
    a == b || (65 <= a <= 90 && b == a + 32) || (65 <= b <= 90 && a == b + 32)
  }

  lemma LowerSame(a: byte, b: byte)
    ensures Lower(a) == Lower(b) <==> SameLetter(a, b)
  {
  }

  lemma LowerFolds(c: byte, letter: char)
    requires letter < 128 as char && !('A' <= letter <= 'Z')
    ensures Lower(c) == letter as int <==> Folds(c, letter)
  {
  }

  /** The words of the parser, letter by letter; behind "content-length" it goes on
      with what is left over from "transfer-encoding". */
  lemma KeyLetters(i: nat, c: byte)
    ensures |TRANSFER_ENCODING| == |ENCODING_WORD| == |LENGTH_WORD| == 17 && |CONTENT_LENGTH| == 14
    ensures i < 17 ==> (Folds(c, ENCODING_WORD[i]) <==> Lower(c) == TRANSFER_ENCODING[i])
    ensures i < 17 ==> (Folds(c, LENGTH_WORD[i]) <==> Lower(c) == if i < 14 then CONTENT_LENGTH[i] else TRANSFER_ENCODING[i])
  {
    if i < 17 {
      assert ENCODING_WORD[i] as int == TRANSFER_ENCODING[i];
      assert LENGTH_WORD[i] as int == if i < 14 then CONTENT_LENGTH[i] else TRANSFER_ENCODING[i];
      LowerFolds(c, ENCODING_WORD[i]);
      LowerFolds(c, LENGTH_WORD[i]);
    }
  }

  lemma ValueLetters(i: nat, c: byte)
    ensures |CHUNKED| == |CHUNKED_WORD| == 7
    ensures i < 7 ==> (Folds(c, CHUNKED_WORD[i]) <==> Lower(c) == CHUNKED[i])
  {
    if i < 7 {
      assert CHUNKED_WORD[i] as int == CHUNKED[i];
      LowerFolds(c, CHUNKED_WORD[i]);
    }
  }

  // ---- numerals ----

  /** The text writes n with these digits, in any casing and with any number of
      zeros before it. */
  predicate Numeral(s: seq<byte>, n: nat, digits: string)
    requires |digits| > 1
    decreases |s|
  {
    && s != []
    && Folds(s[|s| - 1], digits[n % |digits|])
    && if |s| == 1 then n < |digits| else Numeral(s[..|s| - 1], n / |digits|, digits)
  }

  /** A chunk size digit has the value of its place in the alphabet. */
  lemma HexPlace(c: byte, v: nat)
    requires v < 16
    ensures |HEX_DIGITS| == 16
    ensures HexValue(c) == v <==> Folds(c, HEX_DIGITS[v])
  {
    assert HEX_DIGITS[v] as int == if v < 10 then 48 + v else 87 + v;
  }

  lemma HexBelow(c: byte)
    ensures -1 <= HexValue(c) < 16
  {
  }

  /** And a byte without a value is no digit. */
  lemma HexOnly(c: byte)
    ensures |HEX_DIGITS| == 16
    ensures HexValue(c) >= 0 <==> exists v: nat :: v < 16 && Folds(c, HEX_DIGITS[v])
  {
    forall v: nat | v < 16
      ensures HexValue(c) == v <==> Folds(c, HEX_DIGITS[v])
    {
      HexPlace(c, v);
    }
    if HexValue(c) >= 0 {
      assert Folds(c, HEX_DIGITS[HexValue(c)]);
    }
  }

  lemma DecimalPlace(c: byte, v: nat)
    requires v < 10
    ensures |DECIMAL_DIGITS| == 10
    ensures c - 48 == v <==> Folds(c, DECIMAL_DIGITS[v])
  {
    assert DECIMAL_DIGITS[v] as int == 48 + v;
  }

  lemma HexPlaces(c: byte)
    ensures |HEX_DIGITS| == 16 && forall v: nat :: v < 16 && Folds(c, HEX_DIGITS[v]) ==> HexValue(c) == v
  {
    forall v: nat | v < 16 && Folds(c, HEX_DIGITS[v])
      ensures HexValue(c) == v
    {
      HexPlace(c, v);
    }
  }

  lemma DecimalPlaces(c: byte)
    ensures |DECIMAL_DIGITS| == 10 && forall v: nat :: v < 10 && Folds(c, DECIMAL_DIGITS[v]) ==> c - 48 == v
  {
    forall v: nat | v < 10 && Folds(c, DECIMAL_DIGITS[v])
      ensures c - 48 == v
    {
      DecimalPlace(c, v);
    }
  }

  // ---- numbers written down ----

  function HexDigit(v: int, capital: bool): byte
    requires 0 <= v < 16
  {
    (if capital then CAPITAL_HEX_DIGITS[v] else HEX_DIGITS[v]) as int
  }

  /** n in base 16 with no zeros before it, in capitals or in small letters. */
  function HexText(n: nat, capital: bool): seq<byte> {
    if n < 16 then [HexDigit(n, capital)] else HexText(n / 16, capital) + [HexDigit(n % 16, capital)]
  }

  lemma HexDigitFolds(v: nat, capital: bool)
    requires v < 16
    ensures |HEX_DIGITS| == 16 && Folds(HexDigit(v, capital), HEX_DIGITS[v])
  {
  }

  /** What is written reads as the number, in either casing. */
  lemma {:induction false} HexTextReads(n: nat, capital: bool)
    ensures Numeral(HexText(n, capital), n, HEX_DIGITS)
    decreases n
  {
    hide HexDigit, Folds;
    var s := HexText(n, capital);
    HexDigitFolds(n % 16, capital);
    if n >= 16 {
      HexTextReads(n / 16, capital);
      assert s[..|s| - 1] == HexText(n / 16, capital);
    }
  }
}
