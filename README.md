# Chunked BASE64 encoder (RFC 4648) of cpp-netlib

This project models the BASE64 encoder of cpp-netlib's `boost/network/utils/base64`
in Dafny and proves it correct against an independent statement of RFC 4648.

- `rfc4648.dfy` (module `Rfc4648`) is the reference. It gives the two alphabets by their
  character ranges (section 4 and section 5 of RFC 4648). It gives the encoding of a
  24-bit group and of the final 8- or 16-bit quantum with `=` padding (section 3.2 and
  section 4). It gives the encoding of a whole byte sequence, with or without a line
  break after a fixed number of quanta (section 3.1).
- `base64.dfy` (module `Base64`) models `encode.hpp`. It has the two alphabet tables,
  the `padding` and `no_padding` policies, and `state<Value>`. It has the resumable
  `encode` state machine, `encode_rest`, the literal and stateless overloads, and the
  `normal`, `url`, `mime` and `pem` configurations.
  - The state machine is written twice. The functions `Step`, `Run` and `Finish` work on
    state values. The methods `Encode`, `EncodeOctet` and `EncodeRest` update a `State`
    object and are proved to compute what the functions say.
  - The lemmas prove three things. Chunked encoding composes for every split. A session
    from the empty state writes the RFC 4648 encoding for every configuration, with a
    `\n` after every ceil(max / 4) quanta. That is every max characters when the
    maximum is a multiple of 4, as for `mime` and `pem`. The output lengths and the
    test vectors of the repository hold.
- `base64_io.dfy` (module `Base64Io`) models `encode-io.hpp`. The output stream is an
  `OutputStream` object holding the text written so far and one `long` slot, which
  stands for the stream's internal extensible array.
  - `Load` and `Store` are the constructor and destructor of `detail::state`. They unpack
    and pack the triplet index (low 8 bits) and the pending value (the bits above them).
  - `Write` is `operator<<` of an input wrapper. `EncodeRest`, `ClearState` and
    `EmptyState` are the manipulator and the two helpers.
  - The lemmas prove that the default slot 0 holds the empty state and that the packing
    round-trips. They prove that a chain of writes followed by `encode_rest` writes the
    RFC 4648 encoding of all the parts together, for configurations without line
    breaks. They also show that the stream loses line breaks, because it does not
    persist the line length.

Bytes are integers 0..255 and the output is a `seq<char>`. The bit masks of the source
are written as arithmetic: `(b & 0xFC) >> 2` is `b / 4`, `(b & 0x03) << 4` is
`b % 4 * 16`, and so on. Or-ing into the pending value is addition, because its low
bits are zero. `line_length` is an `unsigned short`, so `line_length += 4` is
modelled modulo 65536.

Two facts about the stream adapter shape the model:
- `empty_state` stores the state back when its scope ends, like every other operation
  (encode-io.hpp:309-312). `EmptyState` does this too and proves that the slot is
  unchanged.
- The line length is not part of the packed slot (encode-io.hpp:63-88). It restarts at
  0 in every stream operation.

`encode_rest` clears the state only when it is not empty (encode.hpp:389-401). So after
a session whose length is a multiple of 3, a `mime` or `pem` state object keeps its line
length. A new session on the same object then starts in the middle of a line.
`Base64.LineLengthSurvivesEncodeRest` shows this.

The stream-level `normal`, `url`, `mime` and `pem` encoders (encode-io.hpp:258-274) are
the same four `Config` values, passed to the stream operations.

## Model

| member | source | states |
|---|---|---|
| `Base64.Translate` | boost/network/utils/base64/encode.hpp:139-166 | every index is a 6-bit value, so the table lookup stays inside the 64 entries; the character is the one RFC 4648 assigns to the value in the chosen alphabet |
| `Base64.AlphabetsDifferOnlyAt62And63` | boost/network/utils/base64/encode.hpp:143-164 | the default and URL/filename-safe tables give the same character exactly for the values below 62 |
| `Base64.PaddingFor` | boost/network/utils/base64/encode.hpp:180-219 | `padding` appends only `=`: two after one pending octet, one after two, none for an empty state; `no_padding` appends nothing |
| `Base64.EndQuantum` | boost/network/utils/base64/encode.hpp:353-363 | without a maximum nothing changes and no break is written; otherwise the line gains 4 characters, and reaching or passing the maximum writes `\n` and resets the count, which therefore always stays below the maximum |
| `Base64.Step` | boost/network/utils/base64/encode.hpp:301-364 | one octet advances the triplet index by one modulo 3 and keeps the state well formed (pending value 0 at a boundary, at most 0x30 after the first octet, at most 0x3C after the second); the first two octets of a quantum write one character each, the third writes two, plus `\n` when the line is full |
| `Base64.Run` | boost/network/utils/base64/encode.hpp:283-367 | after a chunk the triplet index is the number of octets consumed in the session modulo 3, the state stays well formed, and without line breaks the line length is kept |
| `Base64.Finish` | boost/network/utils/base64/encode.hpp:387-404 | on an empty state nothing is written and the state is unchanged; otherwise one character plus the padding is written (4 - index characters padded, 1 unpadded) and the state is cleared; never a line break |
| `Base64.RunAppend` | boost/network/utils/base64/encode.hpp:265-269 | encoding x + y from a state is encoding x and then y from the state x left, writing both outputs in order |
| `Base64.ChunksCompose` | boost/network/utils/base64/encode.hpp:265-277 | encode(x) then encode(y) with a shared state and then encode_rest writes what a session over x + y writes, for every split including empty parts |
| `Base64.GroupSextets` | boost/network/utils/base64/encode.hpp:313-351 | the masked and shifted octets the encoder combines are exactly the four 6-bit numbers of the 24-bit group |
| `Base64.RunQuantum` | boost/network/utils/base64/encode.hpp:302-363 | three octets from a quantum boundary write the four characters RFC 4648 gives their group, then `\n` if the line is full, and return to a boundary with an empty pending value |
| `Base64.CompletedTail` | boost/network/utils/base64/encode.hpp:389-401 | one or two trailing octets followed by encode_rest write the RFC 4648 final quantum, padded or not |
| `Base64.QuantumRunIsEncoded` | boost/network/utils/base64/encode.hpp:354-363 | with a maximum line length, the encoder's lines hold ceil(max / 4) quanta each, every full line ended by `\n` |
| `Base64.EncodeIsRfc4648` | boost/network/utils/base64/encode.hpp:479-485 | a fresh state, encode, then encode_rest writes the RFC 4648 encoding of the whole input in the configured alphabet and padding, with a `\n` after every ceil(max / 4) quanta of a full line |
| `Base64.LineWidth` | boost/network/utils/base64/encode.hpp:354-363 | a full line holds at least max characters and fewer than max + 4; exactly max if and only if max is a multiple of 4 |
| `Base64.Configurations` | boost/network/utils/base64/encode.hpp:590-624 | normal and url write one unbroken padded line in the default and URL-safe alphabets; mime breaks after 19 quanta (76 characters), pem after 16 (64 characters) |
| `Base64.LineLengthSurvivesEncodeRest` | boost/network/utils/base64/encode.hpp:389-401 | after one MIME quantum, encode_rest leaves an empty state that still has line length 4, not the state clear() gives |
| `Base64.StateValue.Empty` | boost/network/utils/base64/encode.hpp:80 | empty is triplet_index == 0, and an empty state the encoder leaves has no pending bits |
| `Base64.ChunkedEncodeIsRfc4648` | boost/network/utils/base64/encode.hpp:14-17 | every two-chunk session from a fresh state, finished by encode_rest, writes the RFC 4648 encoding of the concatenation |
| `Base64.EncodedLengthWithoutBreaks` | boost/network/utils/base64/encode.hpp:475-485 | without line breaks the padded output has 4 * ceil(n / 3) characters and the unpadded one ceil(8 * n / 6) |
| `Base64.EncodeRestIdempotent` | boost/network/utils/base64/encode.hpp:396-401 | a second encode_rest right after a first one writes nothing and keeps the state |
| `Base64.LineLengthStaysBelowMax` | boost/network/utils/base64/encode.hpp:354-363 | with a maximum line length, the line length a chunk leaves is below the maximum |
| `Base64.NoBreakBeforeLineIsFull` | boost/network/utils/base64/encode.hpp:354-363 | a chunk whose completed quanta keep the line below the maximum writes no `\n` |
| `Base64.PaddingExamples` | libs/network/test/utils_base64_test.cpp:95-106 | "" gives "", "a" gives "YQ==", "aa" gives "YWE=", "aaa" gives "YWFh"; without padding "YQ", "YWE", "YWFh" |
| `Base64.AlphabetExamples` | libs/network/test/utils_base64_test.cpp:187-195 | the octets 0xFB 0xF0 give "+/A=" with the default alphabet and "-_A=" with the URL-safe one |
| `Base64.ChunkExample` | libs/network/test/utils_base64_test.cpp:132-143 | "a" in two chunks writes "Y", then "YW", and encode_rest completes "YWE="; the state is non-empty in between and empty at the end |
| `Base64.ThreeChunkExample` | libs/network/test/utils_base64_test.cpp:145-159 | "a" in three chunks writes "Y", "YW", "YWFh"; the third chunk empties the state and encode_rest then writes nothing |
| `Base64.HundredOctetsNormal` | libs/network/test/utils_base64_test.cpp:223-235 | 100 octets with the normal encoder give 136 characters and no line break |
| `Base64.HundredOctetsMime` | libs/network/test/utils_base64_test.cpp:237-250 | 100 octets with the MIME encoder give 137 characters whose only `\n` is at index 76 |
| `Base64.HundredOctetsPem` | libs/network/test/utils_base64_test.cpp:252-266 | 100 octets with the PEM encoder give 138 characters whose only `\n` are at indexes 64 and 129 |
| `Base64.State.constructor` | boost/network/utils/base64/encode.hpp:73 | a new state has all three fields zero |
| `Base64.State.Copy` | boost/network/utils/base64/encode.hpp:75-78 | the copy holds the same three field values |
| `Base64.State.Clear` | boost/network/utils/base64/encode.hpp:82-93 | clear sets the triplet index, the pending value and the line length to zero, so the state is empty |
| `Base64.State.Set` | boost/network/utils/base64/encode.hpp:97-101 | set stores the three given values |
| `Base64.Encode` | boost/network/utils/base64/encode.hpp:283-367 | the stateful encode appends to the output exactly what `Run` writes for the chunk and leaves in the state object the state `Run` reaches, which stays well formed |
| `Base64.EncodeOctet` | boost/network/utils/base64/encode.hpp:302-363 | one pass through the switch case the triplet index selects computes exactly one `Step` |
| `Base64.EncodeRest` | boost/network/utils/base64/encode.hpp:387-404 | encode_rest appends what `Finish` writes and leaves the state empty |
| `Base64.StrLen` | boost/network/utils/base64/encode.hpp:459 | strlen is the index of the first zero of the literal |
| `Base64.EncodeLiteral` | boost/network/utils/base64/encode.hpp:455-460 | the stateful literal overload encodes the characters before the terminating zero and not the zero |
| `Base64.EncodeWhole` | boost/network/utils/base64/encode.hpp:479-533 | the stateless overloads append the RFC 4648 encoding of the whole input in the configured alphabet, padding and line length |
| `Base64.EncodeLiteralWhole` | boost/network/utils/base64/encode.hpp:553-574 | the stateless literal overloads append the encoding of the characters before the terminating zero, which contain no zero |
| `Base64Io.Unpack` | boost/network/utils/base64/encode-io.hpp:63-73 | the loaded line length is 0, and a slot below 65536 is the pending value times 256 plus the triplet index |
| `Base64Io.Pack` | boost/network/utils/base64/encode-io.hpp:77-88 | the stored slot fits in 16 bits and loads back the same triplet index and pending value, with line length 0 |
| `Base64Io.DefaultSlotIsEmpty` | boost/network/utils/base64/encode-io.hpp:63-73 | the stream's default slot value 0 loads as the empty state |
| `Base64Io.PackUnpack` | boost/network/utils/base64/encode-io.hpp:63-88 | storing a state just loaded from a 16-bit slot writes back the same slot value |
| `Base64Io.EncodeManipulator` | boost/network/utils/base64/encode-io.hpp:184-210 | nothing is encoded at capture; writing the wrapper to a stream with any valid slot writes exactly the encoding of the captured chunk from the slot's state and stores the state reached, without its line length |
| `Base64Io.EncodeLiteralManipulator` | boost/network/utils/base64/encode-io.hpp:219-223 | the literal manipulator captures the characters before the terminating zero, with no zero among them |
| `Base64Io.WriteStep` | boost/network/utils/base64/encode-io.hpp:151-162 | a write keeps the slot a valid packed state and advances its triplet index by the chunk length modulo 3 |
| `Base64Io.RestStep` | boost/network/utils/base64/encode-io.hpp:239-244 | after the encode_rest manipulator the slot is 0 and holds the empty state |
| `Base64Io.WritesRun` | boost/network/utils/base64/encode-io.hpp:146-162 | without line breaks a chain of writes writes what one chunk of all their parts writes, and the slot holds the state that chunk reaches |
| `Base64Io.WritesCompose` | boost/network/utils/base64/encode-io.hpp:146-162 | without line breaks a chain of writes followed by encode_rest writes what one session over all the parts writes |
| `Base64Io.StreamIsRfc4648` | boost/network/utils/base64/encode-io.hpp:14-18 | from a new stream, writes and encode_rest without line breaks give the RFC 4648 encoding of the concatenated parts and leave the slot empty |
| `Base64Io.ShortWriteNeverBreaks` | boost/network/utils/base64/encode-io.hpp:63-73 | with line breaks, a write completing fewer quanta than a line holds writes no `\n`, however long the stream's line already is |
| `Base64Io.MimeStreamLosesLineBreaks` | boost/network/utils/base64/encode-io.hpp:63-88 | 57 octets written to a MIME stream as 30 and 27 have no `\n`, while one MIME session writes one at index 76 |
| `Base64Io.StreamExamples` | libs/network/test/utils_base64_test.cpp:292-304 | every chain of writes whose parts together are "abc" ("a" then "bc", "ab" then "c") gives "YWJj" |
| `Base64Io.Abc` | libs/network/test/utils_base64_test.cpp:60-63 | "abc" encodes to "YWJj" |
| `Base64Io.OutputStream.constructor` | boost/network/utils/base64/encode-io.hpp:103-106 | a new stream has written nothing and its slot is 0 |
| `Base64Io.OutputStream.Load` | boost/network/utils/base64/encode-io.hpp:63-73 | the constructor of detail::state yields a fresh state holding the unpacked slot |
| `Base64Io.OutputStream.Store` | boost/network/utils/base64/encode-io.hpp:77-88 | the destructor of detail::state packs the state into the slot and writes no text |
| `Base64Io.OutputStream.Write` | boost/network/utils/base64/encode-io.hpp:151-162 | operator<< appends the characters of `WriteStep` to the text and stores its new slot |
| `Base64Io.OutputStream.EncodeRest` | boost/network/utils/base64/encode-io.hpp:239-244 | the encode_rest manipulator appends what `RestStep` writes and leaves the slot holding an empty state |
| `Base64Io.OutputStream.ClearState` | boost/network/utils/base64/encode-io.hpp:294-297 | clear_state leaves slot 0, the empty state, and the text unchanged |
| `Base64Io.OutputStream.EmptyState` | boost/network/utils/base64/encode-io.hpp:309-312 | empty_state reports whether the triplet index is 0 and leaves the slot and the text unchanged |

## Left out

- The iostream machinery is not modelled: `std::ios_base::xalloc`, the static index, `iword` and `boost::archive::iterators::ostream_iterator`. The stream is a text of type `seq<char>` plus one `long` slot.
- Character genericity is not modelled: narrow vs wide output and the `Char` parameter. The output is `char`. The Boost.Range `begin`/`end` plumbing is not modelled either: a range is its sequence of octets.
- The `BOOST_STATIC_ASSERT` size checks are compile-time only and not modelled.
- Input values are octets 0..255. A signed `char` input gives the same 6-bit groups, because every use of it is masked first.
- `Value`, the type of the pending value, is 8 bits wide. `Unpack` therefore keeps only 8 bits of the slot above the triplet index.
- `Base64.Encode`: requires a well-formed state (triplet index below 3 and a pending value the encoder can leave). In `encode.hpp` only the encoder sets the protected fields, so nothing else occurs. A triplet index above 2 could only come from a forged stream slot. The source's switch would then match no case and return without writing anything; this is not modelled.
- `Base64Io.OutputStream.Write`: requires the slot to hold a state the encoder can leave. This holds for the default 0 and for every slot the stream operations write.
- `Base64.QuantaPerLine`: a maximum line length above 65532 is treated as no line breaks. The `unsigned short` counter wraps from 65532 + 4 to 0 before it can reach such a maximum, so no break is ever written.
- `Base64Io.WritesCompose`: the source keeps one slot per value type of the state. `operator<<` takes the value type from the input iterator, while `encode_rest`, `clear_state` and `empty_state` take it as a template argument, so a chain mixing value types uses several slots and may never flush its pending bits. The model has one slot and covers only chains whose writes and manipulators all use one 8-bit value type.
- `Base64.QuantaPerLine`: lines exceed a maximum line length that is not a multiple of 4. The counter grows by 4 per quantum, so a line ends after ceil(max / 4) quanta, with up to 3 characters more than the maximum.
- `Base64Io.WritesCompose`: proved only for configurations without line breaks. The stream does not persist the line length, so with `mime` or `pem` the stream's line breaks differ from one session's. `Base64Io.MimeStreamLosesLineBreaks` exhibits the difference.
- The summary comment of `encode.hpp` lists stateful overloads returning `std::basic_string`. The file defines no such overloads, so they are not modelled.
- `encode.hpp` has no decoder, and none is modelled.
- Releasing the stream state when an exception propagates is not modelled: no modelled operation fails.
