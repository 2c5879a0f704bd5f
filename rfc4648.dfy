/** The BASE64 encoding of RFC 4648, stated on whole byte sequences.

    This module is the reference the chunked encoder is proved against: the two
    alphabets as the value ranges of the tables in section 4 (standard) and section 5
    (URL and filename safe), the encoding of a 24-bit group into four 6-bit values
    (section 4), the final quantum of 8 or 16 bits with its "=" padding (section 3.2 and
    section 4), and line breaks after a fixed number of quanta (section 3.1). */
module Rfc4648 {

  /** An octet of the input. */
  type Byte = b: int | 0 <= b < 256

  /** A 6-bit group, the index into an alphabet. */
  type Sextet = v: int | 0 <= v < 64

  /** The alphabet of section 4 and the one of section 5. */
  datatype Alphabet = Standard | UrlSafe

  /** The character an alphabet gives a 6-bit value: 0..25 are 'A'..'Z', 26..51 are
      'a'..'z', 52..61 are '0'..'9', and 62, 63 are "+/" (section 4) or "-_" (section 5). */
  function Letter(a: Alphabet, v: Sextet): char {
    if v < 26 then ('A' as int + v) as char
    else if v < 52 then ('a' as int + (v - 26)) as char
    else if v < 62 then ('0' as int + (v - 52)) as char
    else if v == 62 then (if a == Standard then '+' else '-')
    else (if a == Standard then '/' else '_')
  }

  /** Distinct values have distinct characters, so the encoding can be decoded. */
  lemma LetterInjective(a: Alphabet, v: Sextet, w: Sextet)
    ensures Letter(a, v) == Letter(a, w) ==> v == w
  {
  }

  /** No character of either alphabet is the pad character or a line break. */
  lemma LetterIsNotPadOrBreak(a: Alphabet, v: Sextet)
    ensures Letter(a, v) != '=' && Letter(a, v) != '\n'
  {
  }

  /** The four characters of a complete 24-bit group b0 b1 b2 (section 4): the group is
      read as four 6-bit numbers, the most significant first. */
  function Quantum(a: Alphabet, b0: Byte, b1: Byte, b2: Byte): seq<char> {
    var n: int := b0 as int * 65536 + b1 as int * 256 + b2;
    [Letter(a, n / 262144), Letter(a, n / 4096 % 64), Letter(a, n / 64 % 64), Letter(a, n % 64)]
  }

  /** The final quantum of fewer than 24 bits (section 4, cases (2) and (3)): zero bits
      complete the last 6-bit group, and with padding the output is filled up to four
      characters with '='. */
  function FinalQuantum(a: Alphabet, padded: bool, tail: seq<Byte>): seq<char>
    requires |tail| < 3
  {
    if |tail| == 0 then []
    else if |tail| == 1 then
      var n: int := tail[0] as int * 65536;
      [Letter(a, n / 262144), Letter(a, n / 4096 % 64)] + (if padded then "==" else "")
    else
      var n: int := tail[0] as int * 65536 + tail[1] as int * 256;
      [Letter(a, n / 262144), Letter(a, n / 4096 % 64), Letter(a, n / 64 % 64)]
        + (if padded then "=" else "")
  }

  /** The encoding of a whole byte sequence without line breaks. */
  function Unbroken(a: Alphabet, padded: bool, bytes: seq<Byte>): seq<char>
    decreases |bytes|
  {
    if |bytes| < 3 then FinalQuantum(a, padded, bytes)
    else Quantum(a, bytes[0], bytes[1], bytes[2]) + Unbroken(a, padded, bytes[3..])
  }

  /** The encoding of a whole byte sequence whose lines hold `perLine` quanta each, every
      full line ended by '\n' and the last (possibly empty) line left open; `perLine == 0`
      means no line breaks. */
  function Encoded(a: Alphabet, padded: bool, perLine: nat, bytes: seq<Byte>): seq<char>
    decreases |bytes|
  {
    if perLine > 0 && |bytes| >= 3 * perLine then
      Unbroken(a, padded, bytes[..3 * perLine]) + "\n" + Encoded(a, padded, perLine, bytes[3 * perLine..])
    else
      Unbroken(a, padded, bytes)
  }

  /** With padding the encoding of n bytes has 4 * ceil(n / 3) characters; without it,
      ceil(8 * n / 6), one character per started 6-bit group. */
  lemma {:induction false} UnbrokenLength(a: Alphabet, padded: bool, bytes: seq<Byte>)
    ensures padded ==> |Unbroken(a, padded, bytes)| == 4 * ((|bytes| + 2) / 3)
    ensures !padded ==> |Unbroken(a, padded, bytes)| == (8 * |bytes| + 5) / 6
    decreases |bytes|
  {
    var n := |bytes|;
    if n >= 3 {
      UnbrokenLength(a, padded, bytes[3..]);
      assert |Unbroken(a, padded, bytes)| == 4 + |Unbroken(a, padded, bytes[3..])|;
      assert (n + 2) / 3 == (n - 3 + 2) / 3 + 1;
      assert (8 * n + 5) / 6 == (8 * (n - 3) + 5) / 6 + 4;
    }
  }

  /** Every character of the unbroken encoding is a letter of the alphabet or '='. */
  lemma {:induction false} UnbrokenCharacters(a: Alphabet, padded: bool, bytes: seq<Byte>)
    ensures forall c | c in Unbroken(a, padded, bytes) :: c == '=' || exists v: Sextet :: c == Letter(a, v)
    ensures '\n' !in Unbroken(a, padded, bytes)
    decreases |bytes|
  {
    if |bytes| >= 3 {
      UnbrokenCharacters(a, padded, bytes[3..]);
    }
    forall v: Sextet ensures Letter(a, v) != '\n' {
      LetterIsNotPadOrBreak(a, v);
    }
  }

  /** Complete quanta in front encode on their own: the encoding splits at a quantum
      boundary. */
  lemma {:induction false} UnbrokenConcat(a: Alphabet, padded: bool, x: seq<Byte>, y: seq<Byte>)
    requires |x| % 3 == 0
    ensures Unbroken(a, padded, x + y) == Unbroken(a, padded, x) + Unbroken(a, padded, y)
    decreases |x|
  {
    if |x| > 0 {
      var xy := x + y;
      assert xy[0] == x[0] && xy[1] == x[1] && xy[2] == x[2];
      assert xy[3..] == x[3..] + y;
      UnbrokenConcat(a, padded, x[3..], y);
      assert Unbroken(a, padded, xy) == Quantum(a, x[0], x[1], x[2]) + Unbroken(a, padded, x[3..] + y);
      assert Unbroken(a, padded, x) == Quantum(a, x[0], x[1], x[2]) + Unbroken(a, padded, x[3..]);
    } else {
      assert x + y == y;
    }
  }

  /** `breaks` full lines of k bytes each fit into n bytes, and one more does not:
      breaks == n / k. */
  predicate LinesFit(k: int, n: int, breaks: int) {
    0 <= breaks && k * breaks <= n < k * (breaks + 1)
  }

  /** A line break follows every `perLine` quanta: the encoding has n / (3 * perLine)
      more characters than the unbroken one, and none when perLine is 0. */
  lemma {:induction false} EncodedLength(a: Alphabet, padded: bool, perLine: nat, bytes: seq<Byte>)
    ensures perLine == 0 ==> Encoded(a, padded, perLine, bytes) == Unbroken(a, padded, bytes)
    ensures perLine > 0 ==>
      LinesFit(3 * perLine, |bytes|, |Encoded(a, padded, perLine, bytes)| - |Unbroken(a, padded, bytes)|)
    decreases |bytes|
  {
    var k := 3 * perLine;
    if perLine > 0 && |bytes| >= k {
      EncodedLength(a, padded, perLine, bytes[k..]);
      assert bytes == bytes[..k] + bytes[k..];
      UnbrokenConcat(a, padded, bytes[..k], bytes[k..]);
      var b := |Encoded(a, padded, perLine, bytes[k..])| - |Unbroken(a, padded, bytes[k..])|;
      assert |Encoded(a, padded, perLine, bytes)| - |Unbroken(a, padded, bytes)| == b + 1;
      NextLineCount(|bytes|, k, b);
    } else if perLine > 0 {
      assert k * 0 == 0 && k * (0 + 1) == k;
      assert LinesFit(k, |bytes|, 0);
    }
  }

  /** One more full line shifts the line count by one. */
  lemma NextLineCount(n: int, k: int, b: int)
    requires k > 0 && LinesFit(k, n - k, b)
    ensures LinesFit(k, n, b + 1)
  {
    assert k * (b + 1) == k * b + k;
    assert k * (b + 2) == k * (b + 1) + k;
  }
}
