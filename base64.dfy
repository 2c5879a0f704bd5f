/** The chunked BASE64 encoder of boost/network/utils/base64/encode.hpp.

    An encoding session keeps a small state between calls: how many octets of the
    current 3-octet quantum have been read (the triplet index), the bits of the last
    octet that were not yet written as a 6-bit group (the last encoded value, already
    shifted left), and the length of the current output line. `Encode` reads one chunk
    and writes every 6-bit group it can complete; `EncodeRest` writes the incomplete
    last group and the padding and empties the state. An encoder is configured by an
    alphabet, a padding policy and a maximum line length (0: no line breaks).

    The encoder is modelled twice: as pure functions over state values (`Step`, `Run`,
    `Finish`), which the lemmas relate to the whole-sequence encoding of module Rfc4648,
    and as methods over a mutable `State` object, proved to compute exactly what the
    functions say. */
module Base64 {
  import opened Rfc4648

  /** unsigned char */
  type Uint8 = x: int | 0 <= x < 256

  /** unsigned short */
  type Uint16 = x: int | 0 <= x < 65536

  // ---------------------------------------------------------------------------
  // Alphabets

  /** The blocks both alphabet tables share: 26 capitals, 26 small letters, 10 digits. */
  const UpperCase: string := "ABCDEFGHIJKLMNOPQRSTUVWXYZ"
  const LowerCase: string := "abcdefghijklmnopqrstuvwxyz"
  const Digits: string := "0123456789"

  /** The table of default_alphabet: characters 62 and 63 are '+' and '/'. */
  const DefaultCharacters: string := UpperCase + LowerCase + Digits + "+/"

  /** The table of url_and_filename_safe_alphabet: characters 62 and 63 are '-' and '_'. */
  const UrlAndFilenameSafeCharacters: string := UpperCase + LowerCase + Digits + "-_"

  /** The table of an alphabet. */
  function Table(a: Alphabet): (table: string)
    ensures |table| == 64
  {
    match a
    case Standard => DefaultCharacters
    case UrlSafe => UrlAndFilenameSafeCharacters
  }

  /** translate: the table lookup of an alphabet. The argument type keeps every index
      inside the 64-entry table; the result is the character RFC 4648 assigns. */
  function Translate(a: Alphabet, v: Sextet): (c: char)
    ensures c == Letter(a, v)
  {
    TableIsAlphabet(a, v);
    Table(a)[v]
  }

  /** Entry v of a table is the character of value v. */
  lemma TableIsAlphabet(a: Alphabet, v: Sextet)
    ensures Table(a)[v] == Letter(a, v)
  {
    BlockLetters();
    if v < 26 {
      assert Table(a)[v] == UpperCase[v];
    } else if v < 52 {
      assert Table(a)[v] == LowerCase[v - 26];
    } else if v < 62 {
      assert Table(a)[v] == Digits[v - 52];
    }
  }

  /** The shared blocks are the consecutive character ranges. */
  lemma BlockLetters()
    ensures |UpperCase| == 26 && forall i | 0 <= i < 26 :: UpperCase[i] == ('A' as int + i) as char
    ensures |LowerCase| == 26 && forall i | 0 <= i < 26 :: LowerCase[i] == ('a' as int + i) as char
    ensures |Digits| == 10 && forall i | 0 <= i < 10 :: Digits[i] == ('0' as int + i) as char
  {
  }

  /** The two tables agree exactly on the values below 62. */
  lemma AlphabetsDifferOnlyAt62And63(v: Sextet)
    ensures Translate(Standard, v) == Translate(UrlSafe, v) <==> v < 62
  {
  }

  // ---------------------------------------------------------------------------
  // Encoding state

  /** The value of a state<Value>: triplet_index, last_encoded_value, line_length. */
  datatype StateValue = StateValue(tripletIndex: Uint8, lastEncodedValue: Uint8, lineLength: Uint16)
  {
    /** state::empty: no octet of an incomplete quantum is pending, so a state the
        encoder leaves holds no pending bits either. */
    predicate Empty(): (empty: bool)
      ensures empty && WellFormed() ==> lastEncodedValue == 0
    {
      tripletIndex == 0
    }

    /** The states the encoder leaves: after the first octet of a quantum two bits are
        pending (shifted up by 4, so at most 0x30), after the second octet four bits
        (shifted up by 2, so at most 0x3C), and at a quantum boundary nothing. */
    predicate WellFormed() {
      && tripletIndex < 3
      && (tripletIndex == 0 ==> lastEncodedValue == 0)
      && (tripletIndex == 1 ==> lastEncodedValue % 16 == 0 && lastEncodedValue <= 0x30)
      && (tripletIndex == 2 ==> lastEncodedValue % 4 == 0 && lastEncodedValue <= 0x3C)
    }
  }

  /** The state a default constructor or clear() leaves. */
  const EmptyState := StateValue(0, 0, 0)

  // ---------------------------------------------------------------------------
  // Padding policies

  /** `padding` appends '=' characters; `no_padding` appends nothing. */
  datatype Padding = Padded | NoPadding

  /** append_to: the characters a padding policy writes for the state before it is
      cleared. Padding fills the final quantum up to four characters: two '=' after one
      pending octet, one after two, none at a boundary. */
  function PaddingFor(p: Padding, rest: StateValue): (pad: seq<char>)
    ensures forall i | 0 <= i < |pad| :: pad[i] == '='
    ensures p == NoPadding ==> pad == []
    ensures p == Padded && rest.tripletIndex < 3 ==> |pad| == (3 - rest.tripletIndex) % 3
  {
    if p == NoPadding then []
    else if rest.Empty() then []
    else if rest.tripletIndex < 2 then "=="
    else "="
  }

  // ---------------------------------------------------------------------------
  // Encoder configurations

  /** encoder<Alphabet, Padding, MaxLineLength>. */
  datatype Config = Config(alphabet: Alphabet, padding: Padding, maxLineLength: Uint16)

  /** no_line_breaks, max_mime_line_length and max_pem_line_length. */
  const NoLineBreaks: Uint16 := 0
  const MaxMimeLineLength: Uint16 := 76
  const MaxPemLineLength: Uint16 := 64

  /** The four configurations of RFC 4648 scenarios: normal, url, mime and pem. */
  const Normal := Config(Standard, Padded, NoLineBreaks)
  const Url := Config(UrlSafe, Padded, NoLineBreaks)
  const Mime := Config(Standard, Padded, MaxMimeLineLength)
  const Pem := Config(Standard, Padded, MaxPemLineLength)

  // ---------------------------------------------------------------------------
  // The encoding core as functions over state values

  /** The line bookkeeping after a completed quantum: the next line length and whether a
      '\n' is written. With a maximum, four more characters stand on the line (counted
      in an unsigned short), and reaching or passing the maximum breaks the line. */
  function EndQuantum(maxLineLength: Uint16, lineLength: Uint16): (r: (Uint16, bool))
    ensures maxLineLength == 0 ==> r == (lineLength, false)
    ensures maxLineLength > 0 && lineLength + 4 < maxLineLength ==> r == (lineLength + 4, false)
    ensures maxLineLength > 0 && maxLineLength <= lineLength + 4 < 65536 ==> r == (0, true)
    ensures maxLineLength > 0 ==> r.0 < maxLineLength
  {
    if maxLineLength == 0 then (lineLength, false)
    else
      var grown := (lineLength + 4) % 65536;
      if grown >= maxLineLength then (0, true) else (grown, false)
  }

  /** One octet read by the encoder, in the case of the switch its triplet index selects:
      the new state and the characters written. The masks of the source are written as
      arithmetic on 0..255 ((b & 0xFC) >> 2 is b / 4, (b & 0x03) << 4 is b % 4 * 16, ...),
      and or-ing into the pending value is addition, since its low bits are zero. */
  function Step(cfg: Config, s: StateValue, b: Byte): (r: (StateValue, seq<char>))
    requires s.WellFormed()
    ensures r.0.WellFormed()
    ensures r.0.tripletIndex == (s.tripletIndex + 1) % 3
    ensures s.tripletIndex < 2 ==> |r.1| == 1 && r.0.lineLength == s.lineLength
    ensures s.tripletIndex == 2 ==> |r.1| == 2 || (|r.1| == 3 && r.1[2] == '\n')
    ensures cfg.maxLineLength == NoLineBreaks ==> r.0.lineLength == s.lineLength
  {
    var a := cfg.alphabet;
    if s.tripletIndex == 0 then
      // the upper six bits of the first octet; its lower two bits wait
      (StateValue(1, b % 4 * 16, s.lineLength), [Letter(a, b / 4)])
    else if s.tripletIndex == 1 then
      // the two waiting bits and the upper four of the second octet; four bits wait
      (StateValue(2, b % 16 * 4, s.lineLength), [Letter(a, s.lastEncodedValue + b / 16)])
    else
      // the four waiting bits and the upper two of the third octet, then its lower six
      var (lineLength, lineBreak) := EndQuantum(cfg.maxLineLength, s.lineLength);
      (StateValue(0, 0, lineLength),
       [Letter(a, s.lastEncodedValue + b / 64), Letter(a, b % 64)] + (if lineBreak then "\n" else ""))
  }

  /** encode on a chunk: the state after the chunk and the characters written. The
      triplet index counts the octets read in the session modulo 3. */
  function Run(cfg: Config, s: StateValue, input: seq<Byte>): (r: (StateValue, seq<char>))
    requires s.WellFormed()
    ensures r.0.WellFormed()
    ensures r.0.tripletIndex == (s.tripletIndex + |input|) % 3
    ensures cfg.maxLineLength == NoLineBreaks ==> r.0.lineLength == s.lineLength
    decreases |input|
  {
    if input == [] then (s, [])
    else
      var first := Step(cfg, s, input[0]);
      var others := Run(cfg, first.0, input[1..]);
      (others.0, first.1 + others.1)
  }

  /** encode_rest: on a non-empty state the pending bits as one last 6-bit group (low
      bits zero), then the padding, and the state is cleared; on an empty state nothing
      happens. It never writes a line break. */
  function Finish(cfg: Config, s: StateValue): (r: (StateValue, seq<char>))
    requires s.WellFormed()
    ensures r.0.Empty() && '\n' !in r.1
    ensures s.Empty() ==> r == (s, [])
    ensures !s.Empty() ==> r.0 == EmptyState
    ensures !s.Empty() ==> |r.1| == 1 + (if cfg.padding == Padded then 3 - s.tripletIndex else 0)
  {
    if s.Empty() then (s, [])
    else
      var written := [Letter(cfg.alphabet, s.lastEncodedValue)] + PaddingFor(cfg.padding, s);
      LetterIsNotPadOrBreak(cfg.alphabet, s.lastEncodedValue);
      (EmptyState, written)
  }

  /** The characters a session writes from state s: one chunk, then encode_rest. */
  function Completed(cfg: Config, s: StateValue, input: seq<Byte>): seq<char>
    requires s.WellFormed()
  {
    var (last, written) := Run(cfg, s, input);
    written + Finish(cfg, last).1
  }

  /** The number of quanta on a full line. A break follows the quantum that brings the
      line length to the maximum or beyond, i.e. every ceil(max / 4) quanta. Above 65532
      the unsigned short line length wraps from 65532 + 4 to 0 before it reaches the
      maximum, so no line break is ever written (0 here). */
  function QuantaPerLine(maxLineLength: Uint16): nat {
    if maxLineLength == 0 || maxLineLength > 65532 then 0 else (maxLineLength + 3) / 4
  }

  /** A full line holds at least the maximum number of characters, and exactly that
      many when the maximum is a multiple of 4 (as for MIME and PEM); otherwise the
      line is longer than the maximum. */
  lemma LineWidth(maxLineLength: Uint16)
    requires 0 < maxLineLength <= 65532
    ensures maxLineLength <= 4 * QuantaPerLine(maxLineLength) < maxLineLength + 4
    ensures 4 * QuantaPerLine(maxLineLength) == maxLineLength <==> maxLineLength % 4 == 0
  {
  }

  /** What an encoder configuration promises for a whole input. */
  function Expected(cfg: Config, input: seq<Byte>): seq<char> {
    Encoded(cfg.alphabet, cfg.padding == Padded, QuantaPerLine(cfg.maxLineLength), input)
  }

  // ---------------------------------------------------------------------------
  // Properties of the encoding core

  /** Reading a chunk in two pieces reads the same as reading it in one. */
  lemma {:induction false} RunAppend(cfg: Config, s: StateValue, x: seq<Byte>, y: seq<Byte>)
    requires s.WellFormed()
    ensures Run(cfg, s, x + y)
         == (Run(cfg, Run(cfg, s, x).0, y).0, Run(cfg, s, x).1 + Run(cfg, Run(cfg, s, x).0, y).1)
    decreases |x|
  {
    if x == [] {
      assert x + y == y;
      assert [] + Run(cfg, s, y).1 == Run(cfg, s, y).1;
    } else {
      var first := Step(cfg, s, x[0]);
      assert (x + y)[0] == x[0];
      assert (x + y)[1..] == x[1..] + y;
      RunAppend(cfg, first.0, x[1..], y);
      var mid := Run(cfg, first.0, x[1..]);
      var last := Run(cfg, mid.0, y);
      assert Run(cfg, s, x) == (mid.0, first.1 + mid.1);
      assert Run(cfg, s, x + y) == (last.0, first.1 + (mid.1 + last.1));
      assert first.1 + (mid.1 + last.1) == (first.1 + mid.1) + last.1;
    }
  }

  /** Chunked encoding composes: encoding x and then y with the shared state, followed
      by encode_rest, writes what a session over x + y writes, for every split. */
  lemma ChunksCompose(cfg: Config, s: StateValue, x: seq<Byte>, y: seq<Byte>)
    requires s.WellFormed()
    ensures Completed(cfg, s, x + y) == Run(cfg, s, x).1 + Completed(cfg, Run(cfg, s, x).0, y)
  {
    RunAppend(cfg, s, x, y);
  }

  /** The sextets of a 24-bit group are the masked and shifted octets the encoder
      combines. */
  lemma GroupSextets(b0: Byte, b1: Byte, b2: Byte)
    ensures var n: int := b0 as int * 65536 + b1 as int * 256 + b2;
      && n / 262144 == b0 / 4
      && n / 4096 % 64 == b0 % 4 * 16 + b1 / 16
      && n / 64 % 64 == b1 % 16 * 4 + b2 / 64
      && n % 64 == b2 % 64
  {
    var n: int := b0 as int * 65536 + b1 as int * 256 + b2;
    QuotientIs(n, 262144, b0 / 4, b0 % 4 * 65536 + b1 * 256 + b2);
    QuotientIs(n, 4096, b0 * 16 + b1 / 16, b1 % 16 * 256 + b2);
    QuotientIs(b0 * 16 + b1 / 16, 64, b0 / 4, b0 % 4 * 16 + b1 / 16);
    QuotientIs(n, 64, b0 * 1024 + b1 * 4 + b2 / 64, b2 % 64);
    QuotientIs(b0 * 1024 + b1 * 4 + b2 / 64, 64, b0 * 16 + b1 / 16, b1 % 16 * 4 + b2 / 64);
  }

  /** Euclidean division by its witnesses. */
  lemma QuotientIs(n: int, d: int, q: int, r: int)
    requires 0 < d && 0 <= r < d && n == q * d + r
    ensures n / d == q && n % d == r
  {
    var q0, r0 := n / d, n % d;
    assert n == q0 * d + r0;
    assert (q - q0) * d == r0 - r;
    if q0 < q {
      MulAtLeast(q - q0, d);
    } else if q < q0 {
      MulAtLeast(q0 - q, d);
    }
  }

  /** A positive multiple of d is at least d. */
  lemma MulAtLeast(k: int, d: int)
    requires 1 <= k && 0 < d
    ensures k * d >= d
  {
    assert k * d == (k - 1) * d + d;
  }

  /** Three octets from a quantum boundary write the four characters of their group and
      a line break if the line is full. */
  lemma RunQuantum(cfg: Config, s: StateValue, b0: Byte, b1: Byte, b2: Byte)
    requires s.WellFormed() && s.tripletIndex == 0
    ensures var (lineLength, lineBreak) := EndQuantum(cfg.maxLineLength, s.lineLength);
      Run(cfg, s, [b0, b1, b2])
        == (StateValue(0, 0, lineLength), Quantum(cfg.alphabet, b0, b1, b2) + (if lineBreak then "\n" else ""))
  {
    GroupSextets(b0, b1, b2);
    var (s1, o1) := Step(cfg, s, b0);
    var (s2, o2) := Step(cfg, s1, b1);
    var (s3, o3) := Step(cfg, s2, b2);
    assert [b0, b1, b2][1..] == [b1, b2];
    assert [b1, b2][1..] == [b2];
    RunSingle(cfg, s2, b2);
    assert Run(cfg, s1, [b1, b2]) == (s3, o2 + o3);
    assert Run(cfg, s, [b0, b1, b2]) == (s3, o1 + (o2 + o3));
    assert o1 + (o2 + o3) == Quantum(cfg.alphabet, b0, b1, b2) + o3[2..];
  }

  /** Reading one more octet is one more step. */
  lemma RunSnoc(cfg: Config, s: StateValue, x: seq<Byte>, b: Byte)
    requires s.WellFormed()
    ensures var (t, o) := Run(cfg, s, x);
      Run(cfg, s, x + [b]) == (Step(cfg, t, b).0, o + Step(cfg, t, b).1)
  {
    RunAppend(cfg, s, x, [b]);
    RunSingle(cfg, Run(cfg, s, x).0, b);
  }

  /** One octet is one step. */
  lemma RunSingle(cfg: Config, s: StateValue, b: Byte)
    requires s.WellFormed()
    ensures Run(cfg, s, [b]) == Step(cfg, s, b)
  {
    assert [b][1..] == [];
    assert Step(cfg, s, b).1 + [] == Step(cfg, s, b).1;
  }

  /** Fewer than three octets from a quantum boundary, then encode_rest, write the final
      quantum of RFC 4648. */
  lemma CompletedTail(cfg: Config, s: StateValue, tail: seq<Byte>)
    requires s.WellFormed() && s.tripletIndex == 0 && |tail| < 3
    ensures Completed(cfg, s, tail) == FinalQuantum(cfg.alphabet, cfg.padding == Padded, tail)
  {
    if |tail| == 1 {
      GroupSextets(tail[0], 0, 0);
      RunSingle(cfg, s, tail[0]);
      assert tail == [tail[0]];
    } else if |tail| == 2 {
      GroupSextets(tail[0], tail[1], 0);
      var (s1, o1) := Step(cfg, s, tail[0]);
      RunSingle(cfg, s1, tail[1]);
      assert tail[1..] == [tail[1]];
      assert Run(cfg, s, tail) == (Step(cfg, s1, tail[1]).0, o1 + Step(cfg, s1, tail[1]).1);
    }
  }

  /** The encoder's output from a quantum boundary, one whole quantum at a time. */
  function QuantumRun(cfg: Config, lineLength: Uint16, input: seq<Byte>): seq<char>
    decreases |input|
  {
    if |input| < 3 then FinalQuantum(cfg.alphabet, cfg.padding == Padded, input)
    else
      var (next, lineBreak) := EndQuantum(cfg.maxLineLength, lineLength);
      Quantum(cfg.alphabet, input[0], input[1], input[2]) + (if lineBreak then "\n" else "")
        + QuantumRun(cfg, next, input[3..])
  }

  /** From a quantum boundary, a session writes quantum after quantum. */
  lemma {:induction false} CompletedByQuanta(cfg: Config, s: StateValue, input: seq<Byte>)
    requires s.WellFormed() && s.tripletIndex == 0
    ensures Completed(cfg, s, input) == QuantumRun(cfg, s.lineLength, input)
    decreases |input|
  {
    if |input| < 3 {
      CompletedTail(cfg, s, input);
    } else {
      var x, y := input[..3], input[3..];
      assert input == x + y;
      assert x == [input[0], input[1], input[2]];
      ChunksCompose(cfg, s, x, y);
      RunQuantum(cfg, s, input[0], input[1], input[2]);
      var next := Run(cfg, s, x).0;
      CompletedByQuanta(cfg, next, y);
    }
  }

  /** A line of ceil(max / 4) quanta is the shortest that reaches the maximum. */
  lemma QuantaPerLineBounds(maxLineLength: Uint16)
    requires 0 < QuantaPerLine(maxLineLength)
    ensures 4 * QuantaPerLine(maxLineLength) - 4 < maxLineLength <= 4 * QuantaPerLine(maxLineLength) < 65536
  {
  }

  /** With line breaks and j quanta already on the line: the remaining quanta of the
      line follow unbroken, then a '\n', and the next line starts empty. */
  predicate FillsLine(cfg: Config, j: nat, input: seq<Byte>)
    requires 0 < QuantaPerLine(cfg.maxLineLength) && j < QuantaPerLine(cfg.maxLineLength)
  {
    QuantaPerLineBounds(cfg.maxLineLength);
    var room := 3 * (QuantaPerLine(cfg.maxLineLength) - j);
    QuantumRun(cfg, 4 * j, input)
      == if |input| >= room
         then Unbroken(cfg.alphabet, cfg.padding == Padded, input[..room]) + "\n" + QuantumRun(cfg, 0, input[room..])
         else Unbroken(cfg.alphabet, cfg.padding == Padded, input)
  }

  /** Every line of the encoder's output is filled as FillsLine says. */
  lemma {:induction false} QuantumRunFillsLine(cfg: Config, j: nat, input: seq<Byte>)
    requires 0 < QuantaPerLine(cfg.maxLineLength) && j < QuantaPerLine(cfg.maxLineLength)
    ensures FillsLine(cfg, j, input)
    decreases |input|
  {
    var perLine := QuantaPerLine(cfg.maxLineLength);
    QuantaPerLineBounds(cfg.maxLineLength);
    if |input| < 3 {
    } else if j + 1 == perLine {
      LastQuantumOfLine(cfg, j, input);
    } else {
      QuantumRunFillsLine(cfg, j + 1, input[3..]);
      NextQuantumOfLine(cfg, j, input);
    }
  }

  /** The quantum that fills a line is followed by '\n'. */
  lemma LastQuantumOfLine(cfg: Config, j: nat, input: seq<Byte>)
    requires 0 < QuantaPerLine(cfg.maxLineLength) && j + 1 == QuantaPerLine(cfg.maxLineLength)
    requires |input| >= 3
    ensures FillsLine(cfg, j, input)
  {
    var a, padded := cfg.alphabet, cfg.padding == Padded;
    QuantaPerLineBounds(cfg.maxLineLength);
    assert EndQuantum(cfg.maxLineLength, 4 * j) == (0, true);
    var line := input[..3];
    assert line[3..] == [];
    assert Unbroken(a, padded, line) == Quantum(a, line[0], line[1], line[2]) + [];
  }

  /** A quantum that does not fill its line is followed by the rest of the line. */
  lemma NextQuantumOfLine(cfg: Config, j: nat, input: seq<Byte>)
    requires 0 < QuantaPerLine(cfg.maxLineLength) && j + 1 < QuantaPerLine(cfg.maxLineLength)
    requires |input| >= 3 && FillsLine(cfg, j + 1, input[3..])
    ensures FillsLine(cfg, j, input)
  {
    var a, padded := cfg.alphabet, cfg.padding == Padded;
    var room := 3 * (QuantaPerLine(cfg.maxLineLength) - j);
    QuantaPerLineBounds(cfg.maxLineLength);
    var q := Quantum(a, input[0], input[1], input[2]);
    assert EndQuantum(cfg.maxLineLength, 4 * j) == (4 * (j + 1), false);
    assert QuantumRun(cfg, 4 * j, input) == q + "" + QuantumRun(cfg, 4 * (j + 1), input[3..]);
    if |input| >= room {
      var line := input[..room];
      assert line[0] == input[0] && line[1] == input[1] && line[2] == input[2];
      assert line[3..] == input[3..][..room - 3];
      assert input[3..][room - 3..] == input[room..];
      var u, r := Unbroken(a, padded, line[3..]), QuantumRun(cfg, 0, input[room..]);
      assert QuantumRun(cfg, 4 * (j + 1), input[3..]) == u + "\n" + r;
      assert Unbroken(a, padded, line) == q + u;
      RegroupLine(q, u, r);
    } else {
      assert Unbroken(a, padded, input) == q + Unbroken(a, padded, input[3..]);
      assert QuantumRun(cfg, 4 * (j + 1), input[3..]) == Unbroken(a, padded, input[3..]);
    }
  }

  /** Regrouping a quantum, the rest of its line and what follows the line break. */
  lemma RegroupLine(q: seq<char>, u: seq<char>, r: seq<char>)
    ensures q + "" + (u + "\n" + r) == q + u + "\n" + r
  {
    assert q + "" == q;
  }

  /** With line breaks, a session from an empty line writes the lines RFC 4648 describes. */
  lemma {:induction false} QuantumRunIsEncoded(cfg: Config, input: seq<Byte>)
    requires 0 < QuantaPerLine(cfg.maxLineLength)
    ensures QuantumRun(cfg, 0, input) == Expected(cfg, input)
    decreases |input|
  {
    var perLine := QuantaPerLine(cfg.maxLineLength);
    QuantumRunFillsLine(cfg, 0, input);
    if |input| >= 3 * perLine {
      QuantumRunIsEncoded(cfg, input[3 * perLine..]);
    }
  }

  /** Without line breaks (none configured, or a maximum the counter cannot reach) a
      session writes the unbroken encoding. */
  lemma {:induction false} QuantumRunIsUnbroken(cfg: Config, lineLength: Uint16, input: seq<Byte>)
    requires QuantaPerLine(cfg.maxLineLength) == 0 && lineLength % 4 == 0
    ensures QuantumRun(cfg, lineLength, input) == Unbroken(cfg.alphabet, cfg.padding == Padded, input)
    decreases |input|
  {
    if |input| >= 3 {
      var (next, lineBreak) := EndQuantum(cfg.maxLineLength, lineLength);
      assert !lineBreak && next % 4 == 0;
      QuantumRunIsUnbroken(cfg, next, input[3..]);
      assert QuantumRun(cfg, lineLength, input)
          == Quantum(cfg.alphabet, input[0], input[1], input[2]) + "" + QuantumRun(cfg, next, input[3..]);
    }
  }

  /** The stateless encoding is the RFC 4648 encoding of the whole input, for every
      configuration. */
  lemma EncodeIsRfc4648(cfg: Config, input: seq<Byte>)
    ensures Completed(cfg, EmptyState, input) == Expected(cfg, input)
  {
    CompletedByQuanta(cfg, EmptyState, input);
    if QuantaPerLine(cfg.maxLineLength) == 0 {
      QuantumRunIsUnbroken(cfg, 0, input);
    } else {
      QuantumRunIsEncoded(cfg, input);
    }
  }

  /** Every split of an input into two chunks, encoded with a shared state and finished
      by encode_rest, writes the RFC 4648 encoding of the whole input. */
  lemma ChunkedEncodeIsRfc4648(cfg: Config, x: seq<Byte>, y: seq<Byte>)
    ensures Run(cfg, EmptyState, x).1 + Completed(cfg, Run(cfg, EmptyState, x).0, y) == Expected(cfg, x + y)
  {
    ChunksCompose(cfg, EmptyState, x, y);
    EncodeIsRfc4648(cfg, x + y);
  }

  /** Without line breaks the padded encoding of n octets has 4 * ceil(n / 3)
      characters, and the unpadded one ceil(8 * n / 6). */
  lemma EncodedLengthWithoutBreaks(cfg: Config, input: seq<Byte>)
    requires cfg.maxLineLength == NoLineBreaks
    ensures cfg.padding == Padded ==> |Completed(cfg, EmptyState, input)| == 4 * ((|input| + 2) / 3)
    ensures cfg.padding == NoPadding ==> |Completed(cfg, EmptyState, input)| == (8 * |input| + 5) / 6
  {
    EncodeIsRfc4648(cfg, input);
    EncodedLength(cfg.alphabet, cfg.padding == Padded, 0, input);
    UnbrokenLength(cfg.alphabet, cfg.padding == Padded, input);
  }

  /** encode_rest on an empty state writes nothing and keeps the state; a second
      encode_rest after a first one writes nothing. */
  lemma EncodeRestIdempotent(cfg: Config, s: StateValue)
    requires s.WellFormed()
    ensures Finish(cfg, Finish(cfg, s).0) == (Finish(cfg, s).0, [])
  {
  }

  /** With a maximum line length, a line never reaches it between calls. */
  lemma {:induction false} LineLengthStaysBelowMax(cfg: Config, s: StateValue, input: seq<Byte>)
    requires s.WellFormed() && 0 < cfg.maxLineLength && s.lineLength < cfg.maxLineLength
    ensures Run(cfg, s, input).0.lineLength < cfg.maxLineLength
    decreases |input|
  {
    if input != [] {
      LineLengthStaysBelowMax(cfg, Step(cfg, s, input[0]).0, input[1..]);
    }
  }

  /** A chunk that leaves the current line short of the maximum writes no line break:
      the line gains four characters per quantum completed in the chunk. */
  lemma {:induction false} NoBreakBeforeLineIsFull(cfg: Config, s: StateValue, input: seq<Byte>)
    requires s.WellFormed() && 0 < cfg.maxLineLength
    requires s.lineLength + 4 * ((s.tripletIndex + |input|) / 3) < cfg.maxLineLength
    ensures '\n' !in Run(cfg, s, input).1
    decreases |input|
  {
    if input != [] {
      var next := Step(cfg, s, input[0]).0;
      assert next.lineLength == s.lineLength + (if s.tripletIndex == 2 then 4 else 0);
      NoBreakBeforeLineIsFull(cfg, next, input[1..]);
      assert '\n' !in Step(cfg, s, input[0]).1;
    }
  }

  /** The four configurations: normal and url write one unbroken line in their
      alphabet, mime breaks after every 19 quanta (76 characters) and pem after every
      16 quanta (64 characters); all four are padded. */
  lemma Configurations(input: seq<Byte>)
    ensures Expected(Normal, input) == Unbroken(Standard, true, input)
    ensures Expected(Url, input) == Unbroken(UrlSafe, true, input)
    ensures Expected(Mime, input) == Encoded(Standard, true, 19, input)
    ensures Expected(Pem, input) == Encoded(Standard, true, 16, input)
    ensures 4 * 19 == MaxMimeLineLength && 4 * 16 == MaxPemLineLength
  {
    assert QuantaPerLine(NoLineBreaks) == 0;
    assert QuantaPerLine(MaxMimeLineLength) == 19;
    assert QuantaPerLine(MaxPemLineLength) == 16;
  }

  /** encode_rest clears only a non-empty state: after a session whose length is a
      multiple of 3, a line-breaking state keeps its line length, so a new session on
      the same state object starts in the middle of a line. One quantum with MIME
      leaves line length 4, which encode_rest keeps. */
  lemma LineLengthSurvivesEncodeRest(x: seq<Byte>)
    requires |x| == 3
    ensures var s := Finish(Mime, Run(Mime, EmptyState, x).0).0;
      s.Empty() && s.lineLength == 4 && s != EmptyState
  {
    assert x == [x[0], x[1], x[2]];
    RunQuantum(Mime, EmptyState, x[0], x[1], x[2]);
  }

  // ---------------------------------------------------------------------------
  // Expected values

  /** Padding: "" -> "", "a" -> "YQ==", "aa" -> "YWE=", "aaa" -> "YWFh"; without padding
      "YQ", "YWE" and "YWFh". */
  lemma PaddingExamples()
    ensures Expected(Normal, []) == ""
    ensures Expected(Normal, [97]) == "YQ=="
    ensures Expected(Normal, [97, 97]) == "YWE="
    ensures Expected(Normal, [97, 97, 97]) == "YWFh"
    ensures Expected(Config(Standard, NoPadding, NoLineBreaks), [97]) == "YQ"
    ensures Expected(Config(Standard, NoPadding, NoLineBreaks), [97, 97]) == "YWE"
    ensures Expected(Config(Standard, NoPadding, NoLineBreaks), [97, 97, 97]) == "YWFh"
  {
    assert [97, 97, 97][3..] == [];
  }

  /** The octets 0xFB 0xF0 encode to "+/A=" with the default alphabet and to "-_A=" with
      the URL and filename safe one. */
  lemma AlphabetExamples()
    ensures Expected(Normal, [0xFB, 0xF0]) == "+/A="
    ensures Expected(Url, [0xFB, 0xF0]) == "-_A="
  {
  }

  /** "a" chunk by chunk: "Y", then "YW", then encode_rest gives "YWE="; the state is
      non-empty in between and empty after encode_rest. */
  lemma ChunkExample()
    ensures var (s1, o1) := Run(Normal, EmptyState, [97]);
      var (s2, o2) := Run(Normal, s1, [97]);
      var (s3, o3) := Finish(Normal, s2);
      o1 == "Y" && o1 + o2 == "YW" && o1 + o2 + o3 == "YWE="
      && !s1.Empty() && !s2.Empty() && s3.Empty()
  {
  }

  /** "a" three times: "Y", "YW", "YWFh"; the third chunk completes the quantum, so the
      state is empty and encode_rest writes nothing. */
  lemma ThreeChunkExample()
    ensures var (s1, o1) := Run(Normal, EmptyState, [97]);
      var (s2, o2) := Run(Normal, s1, [97]);
      var (s3, o3) := Run(Normal, s2, [97]);
      o1 == "Y" && o1 + o2 == "YW" && o1 + o2 + o3 == "YWFh"
      && !s1.Empty() && !s2.Empty() && s3.Empty() && Finish(Normal, s3) == (s3, [])
  {
  }

  /** 100 octets make 136 characters and no line break without a maximum. */
  lemma HundredOctetsNormal(input: seq<Byte>)
    requires |input| == 100
    ensures |Expected(Normal, input)| == 136 && '\n' !in Expected(Normal, input)
  {
    EncodedLength(Standard, true, 0, input);
    UnbrokenLength(Standard, true, input);
    UnbrokenCharacters(Standard, true, input);
  }

  /** 100 octets make 137 characters with MIME, the only '\n' at index 76. */
  lemma HundredOctetsMime(input: seq<Byte>)
    requires |input| == 100
    ensures var r := Expected(Mime, input);
      |r| == 137 && forall i | 0 <= i < |r| :: r[i] == '\n' <==> i == 76
  {
    assert QuantaPerLine(MaxMimeLineLength) == 19;
    var m1, m2 := Unbroken(Standard, true, input[..57]), Unbroken(Standard, true, input[57..]);
    UnbrokenLength(Standard, true, input[..57]);
    UnbrokenCharacters(Standard, true, input[..57]);
    UnbrokenLength(Standard, true, input[57..]);
    UnbrokenCharacters(Standard, true, input[57..]);
    assert Encoded(Standard, true, 19, input[57..]) == m2;
    assert Expected(Mime, input) == m1 + "\n" + m2;
    LineBreakAt(m1, m2);
  }

  /** 100 octets make 138 characters with PEM, the only '\n' at indexes 64 and 129. */
  lemma HundredOctetsPem(input: seq<Byte>)
    requires |input| == 100
    ensures var r := Expected(Pem, input);
      |r| == 138 && forall i | 0 <= i < |r| :: r[i] == '\n' <==> i == 64 || i == 129
  {
    assert QuantaPerLine(MaxPemLineLength) == 16;
    var rest := input[48..];
    var p1, p2, p3 := Unbroken(Standard, true, input[..48]), Unbroken(Standard, true, rest[..48]), Unbroken(Standard, true, rest[48..]);
    UnbrokenLength(Standard, true, input[..48]);
    UnbrokenCharacters(Standard, true, input[..48]);
    UnbrokenLength(Standard, true, rest[..48]);
    UnbrokenCharacters(Standard, true, rest[..48]);
    UnbrokenLength(Standard, true, rest[48..]);
    UnbrokenCharacters(Standard, true, rest[48..]);
    assert Encoded(Standard, true, 16, rest[48..]) == p3;
    assert Encoded(Standard, true, 16, rest) == p2 + "\n" + p3;
    assert Expected(Pem, input) == p1 + "\n" + (p2 + "\n" + p3);
    LineBreakAt(p2, p3);
    LineBreakAt(p1, p2 + "\n" + p3);
  }

  /** In a + "\n" + b with no break in a, the breaks are the one at |a| and those of b. */
  lemma LineBreakAt(a: seq<char>, b: seq<char>)
    requires '\n' !in a
    ensures forall i | 0 <= i < |a + "\n" + b| ::
      (a + "\n" + b)[i] == '\n' <==> i == |a| || (|a| < i && b[i - |a| - 1] == '\n')
  {
  }

  // ---------------------------------------------------------------------------
  // The encoding state object and the encoder's methods

  /** state<Value>: the mutable state an encoding session passes from chunk to chunk. */
  class State {
    var tripletIndex: Uint8
    var lastEncodedValue: Uint8
    var lineLength: Uint16

    /** The fields as one value. */
    function Value(): StateValue
      reads this
    {
      StateValue(tripletIndex, lastEncodedValue, lineLength)
    }

    /** The state is one the encoder can leave. */
    predicate Valid()
      reads this
    {
      Value().WellFormed()
    }

    /** A new state is empty. */
    constructor ()
      ensures Value() == EmptyState && Valid()
    {
      tripletIndex, lastEncodedValue, lineLength := 0, 0, 0;
    }

    /** The copy constructor. */
    constructor Copy(source: State)
      ensures Value() == source.Value()
    {
      tripletIndex, lastEncodedValue, lineLength := source.tripletIndex, source.lastEncodedValue, source.lineLength;
    }

    /** clear: all three fields become zero, so no stale bits leak into a new session. */
    method Clear()
      modifies this
      ensures Value() == EmptyState && Value().Empty() && Valid()
    {
      tripletIndex := 0;
      lastEncodedValue := 0;
      lineLength := 0;
    }

    /** set: the encoder records where it stopped. */
    method Set(index: Uint8, value: Uint8, length: Uint16)
      modifies this
      ensures Value() == StateValue(index, value, length)
    {
      tripletIndex, lastEncodedValue, lineLength := index, value, length;
    }
  }

  /** encode(begin, end, output, rest) and encode(range, output, rest): appends the
      characters of every 6-bit group the chunk completes to output and leaves in rest
      what the next chunk needs. One iteration reads one octet in the case the triplet
      index names, as the switch into the endless loop of the source does. */
  method Encode(cfg: Config, input: seq<Byte>, output: seq<char>, rest: State) returns (result: seq<char>)
    requires rest.Valid()
    modifies rest
    ensures rest.Valid()
    ensures rest.Value() == Run(cfg, old(rest.Value()), input).0
    ensures result == output + Run(cfg, old(rest.Value()), input).1
  {
    ghost var start := rest.Value();
    var index: Uint8 := rest.tripletIndex;
    var encodedValue: Uint8 := rest.lastEncodedValue;
    var lineLength: Uint16 := rest.lineLength;
    result := output;
    ghost var written: seq<char> := [];
    var i := 0;
    while i < |input|
      invariant 0 <= i <= |input|
      invariant StateValue(index, if index == 0 then 0 else encodedValue, lineLength).WellFormed()
      invariant Run(cfg, start, input[..i]) == (StateValue(index, if index == 0 then 0 else encodedValue, lineLength), written)
      invariant result == output + written
    {
      ghost var before := StateValue(index, if index == 0 then 0 else encodedValue, lineLength);
      index, encodedValue, lineLength, result := EncodeOctet(cfg, index, encodedValue, lineLength, input[i], result);
      ghost var step := Step(cfg, before, input[i]);
      assert input[..i + 1] == input[..i] + [input[i]];
      RunSnoc(cfg, start, input[..i], input[i]);
      written := written + step.1;
      i := i + 1;
    }
    assert input[..i] == input;
    rest.Set(index, if index == 0 then 0 else encodedValue, lineLength);
  }

  /** The body of the encoder's loop: the case of the switch the triplet index selects,
      for one octet, appending to output and returning the new index, pending value and
      line length. */
  method EncodeOctet(cfg: Config, index: Uint8, encodedValue: Uint8, lineLength: Uint16, current: Byte, output: seq<char>)
    returns (index': Uint8, encodedValue': Uint8, lineLength': Uint16, result: seq<char>)
    requires StateValue(index, if index == 0 then 0 else encodedValue, lineLength).WellFormed()
    ensures var (next, written) := Step(cfg, StateValue(index, if index == 0 then 0 else encodedValue, lineLength), current);
      StateValue(index', if index' == 0 then 0 else encodedValue', lineLength') == next && result == output + written
  {
    var a := cfg.alphabet;
    index', encodedValue', lineLength', result := index, encodedValue, lineLength, output;
    if index == 0 {
      encodedValue' := current / 4;
      result := result + [Translate(a, encodedValue')];
      encodedValue' := current % 4 * 16;
      index' := 1;
    } else if index == 1 {
      encodedValue' := encodedValue' + current / 16;
      result := result + [Translate(a, encodedValue')];
      encodedValue' := current % 16 * 4;
      index' := 2;
    } else {
      encodedValue' := encodedValue' + current / 64;
      result := result + [Translate(a, encodedValue')];
      encodedValue' := current % 64;
      result := result + [Translate(a, encodedValue')];
      if cfg.maxLineLength != 0 {
        lineLength' := (lineLength' + 4) % 65536;
        if lineLength' >= cfg.maxLineLength {
          result := result + ['\n'];
          lineLength' := 0;
        }
      }
      index' := 0;
    }
  }

  /** encode_rest(output, rest): finishes the session. */
  method EncodeRest(cfg: Config, output: seq<char>, rest: State) returns (result: seq<char>)
    requires rest.Valid()
    modifies rest
    ensures rest.Valid() && rest.Value().Empty()
    ensures rest.Value() == Finish(cfg, old(rest.Value())).0
    ensures result == output + Finish(cfg, old(rest.Value())).1
  {
    result := output;
    if !rest.Value().Empty() {
      result := result + [Translate(cfg.alphabet, rest.lastEncodedValue)];
      result := result + PaddingFor(cfg.padding, rest.Value());
      rest.Clear();
    }
  }

  /** strlen: the index of the terminating zero of a character array. */
  function StrLen(value: seq<Byte>): (n: nat)
    requires 0 in value
    ensures n < |value| && value[n] == 0 && 0 !in value[..n]
  {
    if value[0] == 0 then 0
    else
      var n := 1 + StrLen(value[1..]);
      assert value[..n] == [value[0]] + value[1..][..n - 1];
      n
  }

  /** encode(char const *, output, rest): a string literal continues the session up to,
      and without, its terminating zero. */
  method EncodeLiteral(cfg: Config, value: seq<Byte>, output: seq<char>, rest: State) returns (result: seq<char>)
    requires 0 in value
    requires rest.Valid()
    modifies rest
    ensures rest.Valid()
    ensures rest.Value() == Run(cfg, old(rest.Value()), value[..StrLen(value)]).0
    ensures result == output + Run(cfg, old(rest.Value()), value[..StrLen(value)]).1
  {
    result := Encode(cfg, value[..StrLen(value)], output, rest);
  }

  /** The stateless encode(begin, end, output), encode(range, output) and
      encode<Char>(range): a fresh state, encode, then encode_rest. The output gains the
      RFC 4648 encoding of the whole input. */
  method EncodeWhole(cfg: Config, input: seq<Byte>, output: seq<char>) returns (result: seq<char>)
    ensures result == output + Expected(cfg, input)
  {
    var rest := new State();
    result := Encode(cfg, input, output, rest);
    result := EncodeRest(cfg, result, rest);
    EncodeIsRfc4648(cfg, input);
  }

  /** The stateless encode(char const *, output) and encode<Char>(char const *): the
      literal is encoded without its terminating zero. */
  method EncodeLiteralWhole(cfg: Config, value: seq<Byte>, output: seq<char>) returns (result: seq<char>)
    requires 0 in value
    ensures result == output + Expected(cfg, value[..StrLen(value)])
    ensures 0 !in value[..StrLen(value)]
  {
    result := EncodeWhole(cfg, value[..StrLen(value)], output);
  }
}
