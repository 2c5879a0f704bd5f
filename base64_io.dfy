/** The output stream interface of boost/network/utils/base64/encode-io.hpp.

    The encoder is used through stream manipulators: `output << encode<E>(part)` encodes
    one chunk and writes the characters to the stream, `output << encode_rest<E>`
    finishes the session. Between two of these the encoding state lives in one `long`
    of the stream's internal extensible array: every operation loads the state from it
    in a scope, runs the encoder and stores the state back when the scope ends. The
    triplet index is stored in the low 8 bits and the pending value above them; the line
    length is not stored, so every operation starts a line count of its own. The stream
    keeps one such slot per value type of the state; the model has the one slot of the
    8-bit value type that every write and manipulator here uses. */
module Base64Io {
  import opened Rfc4648
  import Base64

  /** long: the stream's slot. */
  type Long = x: int | -0x8000_0000_0000_0000 <= x < 0x8000_0000_0000_0000

  /** 2 to the bit width of unsigned long. */
  const UnsignedLongModulus: int := 0x1_0000_0000_0000_0000

  // ---------------------------------------------------------------------------
  // Serialization of the encoding state into the slot

  /** The constructor of detail::state: the slot read as unsigned long, the triplet index
      its low 8 bits, the pending value the bits above them cut to the 8 bits of the
      value type, and the line length 0 from the base constructor. */
  function Unpack(slot: Long): (s: Base64.StateValue)
    ensures s.lineLength == 0
    ensures 0 <= slot < 65536 ==> slot == s.lastEncodedValue * 256 + s.tripletIndex
  {
    var data := slot % UnsignedLongModulus;
    Base64.StateValue(data % 256, data / 256 % 256, 0)
  }

  /** The destructor of detail::state: the pending value shifted above the 8 bits of the
      triplet index, which is or-ed into them. */
  function Pack(s: Base64.StateValue): (slot: Long)
    ensures 0 <= slot < 65536
    ensures Unpack(slot) == s.(lineLength := 0)
  {
    s.lastEncodedValue * 256 + s.tripletIndex
  }

  /** The stream's default slot value 0 holds the empty state. */
  lemma DefaultSlotIsEmpty()
    ensures Unpack(0) == Base64.EmptyState
  {
  }

  /** A slot the stream wrote holds its state exactly once: storing what was loaded
      writes the same value back. */
  lemma PackUnpack(slot: Long)
    requires 0 <= slot < 65536
    ensures Pack(Unpack(slot)) == slot
  {
  }

  /** The slot values a stream can hold: one Pack wrote, of a state the encoder leaves. */
  predicate Canonical(slot: Long) {
    0 <= slot < 65536 && Unpack(slot).WellFormed()
  }

  // ---------------------------------------------------------------------------
  // Manipulators

  /** input_wrapper: the encoder configuration and the chunk to encode. */
  datatype InputWrapper = InputWrapper(encoder: Base64.Config, input: seq<Byte>)

  /** io::encoder::encode(begin, end) and encode(range): the manipulator only captures
      the chunk; nothing is encoded before it is written to a stream, and writing it
      then encodes exactly that chunk from the state loaded from the stream's slot and
      stores the state reached, without its line length. */
  function EncodeManipulator(cfg: Base64.Config, input: seq<Byte>): (w: InputWrapper)
    ensures w.encoder == cfg
    ensures forall slot | Canonical(slot) ::
      && WriteStep(slot, w).1 == Base64.Run(cfg, Unpack(slot), input).1
      && Unpack(WriteStep(slot, w).0) == Base64.Run(cfg, Unpack(slot), input).0.(lineLength := 0)
  {
    InputWrapper(cfg, input)
  }

  /** io::encoder::encode(char const *): the chunk of a string literal ends before its
      terminating zero. */
  function EncodeLiteralManipulator(cfg: Base64.Config, value: seq<Byte>): (w: InputWrapper)
    requires 0 in value
    ensures w.encoder == cfg && 0 !in w.input
    ensures w.input + [0] <= value
  {
    var n := Base64.StrLen(value);
    assert value[..n] + [0] == value[..n + 1];
    InputWrapper(cfg, value[..n])
  }

  // ---------------------------------------------------------------------------
  // The stream operations on values

  /** operator<< of an input wrapper: load, encode, store. Returns the new slot and the
      characters written to the stream. */
  function WriteStep(slot: Long, w: InputWrapper): (r: (Long, seq<char>))
    requires Canonical(slot)
    ensures Canonical(r.0)
    ensures Unpack(r.0).tripletIndex == (Unpack(slot).tripletIndex + |w.input|) % 3
  {
    var (s, written) := Base64.Run(w.encoder, Unpack(slot), w.input);
    (Pack(s), written)
  }

  /** io::encoder::encode_rest: load, finish, store. The slot is empty afterwards. */
  function RestStep(cfg: Base64.Config, slot: Long): (r: (Long, seq<char>))
    requires Canonical(slot)
    ensures r.0 == 0 && Unpack(r.0).Empty()
  {
    var (s, written) := Base64.Finish(cfg, Unpack(slot));
    (Pack(s), written)
  }

  /** A chain of writes: output << w0 << w1 << ... */
  function Writes(slot: Long, ws: seq<InputWrapper>): (r: (Long, seq<char>))
    requires Canonical(slot)
    ensures Canonical(r.0)
    decreases |ws|
  {
    if ws == [] then (slot, [])
    else
      var first := WriteStep(slot, ws[0]);
      var others := Writes(first.0, ws[1..]);
      (others.0, first.1 + others.1)
  }

  /** The chunks of a chain of writes, one after the other. */
  function Chunks(ws: seq<InputWrapper>): seq<Byte>
    decreases |ws|
  {
    if ws == [] then [] else ws[0].input + Chunks(ws[1..])
  }

  /** Every write of the chain uses the encoder configuration cfg. */
  predicate AllWith(cfg: Base64.Config, ws: seq<InputWrapper>) {
    forall i | 0 <= i < |ws| :: ws[i].encoder == cfg
  }

  // ---------------------------------------------------------------------------
  // Properties of the stream operations

  /** Without line breaks a chain of writes, all with one encoder configuration, writes
      what one chunk of all their inputs writes from the loaded state, and leaves the
      state that chunk leaves. */
  lemma {:induction false} WritesRun(cfg: Base64.Config, slot: Long, ws: seq<InputWrapper>)
    requires Canonical(slot) && cfg.maxLineLength == Base64.NoLineBreaks && AllWith(cfg, ws)
    ensures Writes(slot, ws).1 == Base64.Run(cfg, Unpack(slot), Chunks(ws)).1
    ensures Unpack(Writes(slot, ws).0) == Base64.Run(cfg, Unpack(slot), Chunks(ws)).0
    decreases |ws|
  {
    if ws == [] {
      assert Chunks(ws) == [];
    } else {
      AllWithTail(cfg, ws);
      var u := Unpack(slot);
      var first := Base64.Run(cfg, u, ws[0].input);
      var next := WriteStep(slot, ws[0]).0;
      assert next == Pack(first.0);
      assert Unpack(next) == first.0;
      WritesRun(cfg, next, ws[1..]);
      var rest := Chunks(ws[1..]);
      assert Chunks(ws) == ws[0].input + rest;
      Base64.RunAppend(cfg, u, ws[0].input, rest);
      var others := Writes(next, ws[1..]);
      assert Writes(slot, ws) == (others.0, first.1 + others.1);
    }
  }

  /** Without line breaks a chain of writes followed by encode_rest, all with one encoder
      configuration, writes what one session over all the chunks writes. */
  lemma WritesCompose(cfg: Base64.Config, slot: Long, ws: seq<InputWrapper>)
    requires Canonical(slot) && cfg.maxLineLength == Base64.NoLineBreaks && AllWith(cfg, ws)
    ensures Writes(slot, ws).1 + RestStep(cfg, Writes(slot, ws).0).1 == Base64.Completed(cfg, Unpack(slot), Chunks(ws))
  {
    WritesRun(cfg, slot, ws);
  }

  /** The writes after the first use the same configuration. */
  lemma AllWithTail(cfg: Base64.Config, ws: seq<InputWrapper>)
    requires ws != [] && AllWith(cfg, ws)
    ensures ws[0].encoder == cfg && AllWith(cfg, ws[1..])
  {
    forall i | 0 <= i < |ws[1..]| ensures ws[1..][i].encoder == cfg {
      assert ws[1..][i] == ws[i + 1];
    }
  }

  /** The stream encodes like RFC 4648: from the stream's default slot, a chain of writes
      without line breaks and encode_rest write the encoding of all chunks together,
      and the slot is empty afterwards. */
  lemma StreamIsRfc4648(cfg: Base64.Config, ws: seq<InputWrapper>)
    requires cfg.maxLineLength == Base64.NoLineBreaks && AllWith(cfg, ws)
    ensures Writes(0, ws).1 + RestStep(cfg, Writes(0, ws).0).1 == Base64.Expected(cfg, Chunks(ws))
    ensures Unpack(RestStep(cfg, Writes(0, ws).0).0).Empty()
  {
    WritesCompose(cfg, 0, ws);
    Base64.EncodeIsRfc4648(cfg, Chunks(ws));
  }

  /** With line breaks the line count restarts in every write: a write whose chunk, from
      wherever the quantum stood, completes fewer quanta than a line holds writes no line
      break, however long the stream's current line already is. */
  lemma ShortWriteNeverBreaks(slot: Long, w: InputWrapper)
    requires Canonical(slot) && 0 < w.encoder.maxLineLength
    requires 4 * ((Unpack(slot).tripletIndex + |w.input|) / 3) < w.encoder.maxLineLength
    ensures '\n' !in WriteStep(slot, w).1
  {
    Base64.NoBreakBeforeLineIsFull(w.encoder, Unpack(slot), w.input);
  }

  /** So a line-breaking stream does not follow RFC 4648: 57 octets written to a MIME
      stream in two writes of 30 and 27 octets come out without the '\n' one session
      writes after 76 characters. */
  lemma MimeStreamLosesLineBreaks(x: seq<Byte>, y: seq<Byte>)
    requires |x| == 30 && |y| == 27
    ensures var ws := [InputWrapper(Base64.Mime, x), InputWrapper(Base64.Mime, y)];
      var text := Writes(0, ws).1 + RestStep(Base64.Mime, Writes(0, ws).0).1;
      '\n' !in text && '\n' in Base64.Expected(Base64.Mime, x + y)
  {
    var ws := [InputWrapper(Base64.Mime, x), InputWrapper(Base64.Mime, y)];
    ShortWriteNeverBreaks(0, ws[0]);
    var first := WriteStep(0, ws[0]);
    assert Unpack(first.0).tripletIndex == 0;
    ShortWriteNeverBreaks(first.0, ws[1]);
    assert ws[1..] == [ws[1]] && ws[1..][1..] == [];
    var second := WriteStep(first.0, ws[1]);
    assert Writes(first.0, ws[1..]) == (second.0, second.1 + []);
    assert Writes(0, ws) == (second.0, first.1 + (second.1 + []));
    // one session: a full line of 19 quanta, its break, and the empty last line
    assert Base64.QuantaPerLine(Base64.MaxMimeLineLength) == 19;
    var xy := x + y;
    var line := xy[..57];
    assert xy[57..] == [];
    assert Encoded(Standard, true, 19, xy[57..]) == Unbroken(Standard, true, []);
    assert Base64.Expected(Base64.Mime, xy) == Unbroken(Standard, true, line) + "\n" + Unbroken(Standard, true, []);
    UnbrokenLength(Standard, true, line);
    assert Base64.Expected(Base64.Mime, xy)[76] == '\n';
  }

  /** The text a stream shows after a chain of writes and encode_rest, from the stream's
      default slot. */
  function StreamText(cfg: Base64.Config, ws: seq<InputWrapper>): string {
    Writes(0, ws).1 + RestStep(cfg, Writes(0, ws).0).1
  }

  /** Every chain of writes whose chunks together are "abc" ("a" then "bc", "ab" then
      "c", "abc" alone, or with empty parts), followed by encode_rest, gives "YWJj". */
  lemma StreamExamples(ws: seq<InputWrapper>)
    requires AllWith(Base64.Normal, ws) && Chunks(ws) == [97, 98, 99]
    ensures StreamText(Base64.Normal, ws) == "YWJj"
  {
    StreamIsRfc4648(Base64.Normal, ws);
    Abc(Chunks(ws));
  }

  /** "abc" encodes to "YWJj". */
  lemma Abc(abc: seq<Byte>)
    requires abc == [97, 98, 99]
    ensures Base64.Expected(Base64.Normal, abc) == "YWJj"
  {
    assert Base64.QuantaPerLine(Base64.NoLineBreaks) == 0;
    assert abc[3..] == [];
    assert Unbroken(Standard, true, abc) == Quantum(Standard, 97, 98, 99) + FinalQuantum(Standard, true, []);
    var n: int := 97 * 65536 + 98 * 256 + 99;
    assert n / 262144 == 24 && n / 4096 % 64 == 22 && n / 64 % 64 == 9 && n % 64 == 35;
    assert Quantum(Standard, 97, 98, 99) == "YWJj";
  }

  // ---------------------------------------------------------------------------
  // The stream object

  /** A narrow character output stream with the slot of the encoding state. */
  class OutputStream {
    /** The characters written to the stream. */
    var text: seq<char>
    /** The long the stream's internal extensible array holds for the encoding state. */
    var slot: Long

    /** The slot holds a state the encoder can leave, as Pack wrote it. */
    predicate Valid()
      reads this
    {
      Canonical(slot)
    }

    /** A new stream has written nothing, and its internal extensible array is zero. */
    constructor ()
      ensures text == [] && slot == 0 && Valid()
    {
      text, slot := [], 0;
    }

    /** The constructor of detail::state: a fresh state loaded from the slot. */
    method Load() returns (rest: Base64.State)
      requires Valid()
      ensures fresh(rest) && rest.Value() == Unpack(slot) && rest.Valid()
    {
      rest := new Base64.State();
      var s := Unpack(slot);
      rest.Set(s.tripletIndex, s.lastEncodedValue, s.lineLength);
    }

    /** The destructor of detail::state: the state stored into the slot. */
    method Store(rest: Base64.State)
      modifies this
      ensures slot == Pack(rest.Value()) && text == old(text)
    {
      slot := Pack(rest.Value());
    }

    /** operator<<(output, input_wrapper): encodes the chunk with the stream's state. */
    method Write(w: InputWrapper)
      requires Valid()
      modifies this
      ensures Valid()
      ensures slot == WriteStep(old(slot), w).0 && text == old(text) + WriteStep(old(slot), w).1
    {
      var rest := Load();
      text := Base64.Encode(w.encoder, w.input, text, rest);
      Store(rest);
    }

    /** output << io::encoder<E>::encode_rest: finishes the stream's session. */
    method EncodeRest(cfg: Base64.Config)
      requires Valid()
      modifies this
      ensures Valid() && Unpack(slot).Empty()
      ensures slot == RestStep(cfg, old(slot)).0 && text == old(text) + RestStep(cfg, old(slot)).1
    {
      var rest := Load();
      text := Base64.EncodeRest(cfg, text, rest);
      Store(rest);
    }

    /** clear_state: the slot holds the empty state. */
    method ClearState()
      requires Valid()
      modifies this
      ensures Valid() && slot == 0 && Unpack(slot) == Base64.EmptyState && text == old(text)
    {
      var rest := Load();
      rest.Clear();
      Store(rest);
    }

    /** empty_state: whether no octet of an incomplete quantum is pending; the state is
        stored back unchanged. */
    method EmptyState() returns (empty: bool)
      requires Valid()
      modifies this
      ensures empty == Unpack(slot).Empty()
      ensures slot == old(slot) && text == old(text)
    {
      var rest := Load();
      empty := rest.Value().Empty();
      Store(rest);
      PackUnpack(old(slot));
    }
  }
}
