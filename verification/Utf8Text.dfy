/**
 The app's hand-written UTF-8 decoder. Bit masks and shifts on byte values are written as remainders,
 products and sums: every mask keeps the low bits, and the parts joined by `|` never share a bit.
 */
module Utf8Text {
  import opened Bytes

  /** A UTF-16 code unit. */
  type unit = u: int | 0 <= u < 0x10000

  /** A Unicode scalar value: any code point but the surrogates. */
  type scalar = c: int | 0 <= c < 0xD800 || 0xE000 <= c < 0x110000

  // ---------- Reference encodings ----------

  /** Section 3 of RFC 3629. */
  function Utf8One(c: scalar): (bytes: seq<byte>)
    ensures 1 <= |bytes| <= 4
  {
    if c < 0x80 then [c]
    else if c < 0x800 then [0xC0 + c / 64, 0x80 + c % 64]
    else if c < 0x10000 then [0xE0 + c / 4096, 0x80 + c / 64 % 64, 0x80 + c % 64]
    else [0xF0 + c / 262144, 0x80 + c / 4096 % 64, 0x80 + c / 64 % 64, 0x80 + c % 64]
  }

  function Utf8(text: seq<scalar>): seq<byte> {
    if text == [] then [] else Utf8One(text[0]) + Utf8(text[1..])
  }

  /** Section 2.1 of RFC 2781. */
  function Utf16One(c: scalar): seq<unit> {
    if c < 0x10000 then [c]
    else [0xD800 + (c - 0x10000) / 1024, 0xDC00 + (c - 0x10000) % 1024]
  }

  function Utf16(text: seq<scalar>): seq<unit> {
    if text == [] then [] else Utf16One(text[0]) + Utf16(text[1..])
  }

  // ---------- The decoder ----------

  /** Reading past the end gives `undefined`, which the bit operators turn into zero. */
  function ByteAt(bytes: seq<byte>, i: nat): byte {
    if i < |bytes| then bytes[i] else 0
  }

  function CodePoint2(b1: byte, b2: byte): unit {
    b1 % 32 * 64 + b2 % 64
  }

  function CodePoint3(b1: byte, b2: byte, b3: byte): unit {
    b1 % 16 * 4096 + b2 % 64 * 64 + b3 % 64
  }

  function CodePoint4(b1: byte, b2: byte, b3: byte, b4: byte): (cp: int)
    ensures 0 <= cp < 0x200000
  {
    b1 % 8 * 262144 + b2 % 64 * 4096 + b3 % 64 * 64 + b4 % 64
  }

  /** The surrogate pair for a code point; any four-byte group stays within 16 bits. */
  function Surrogates(codePoint: int): seq<unit>
    requires 0 <= codePoint < 0x200000
  {
    var cp := codePoint - 0x10000;
    [0xD800 + cp / 1024, 0xDC00 + cp % 1024]
  }

  /** How far the branch taken for lead byte `b1` advances. */
  function Advance(b1: byte): nat {
    if b1 < 0x80 then 1 else if b1 < 0xE0 then 2 else if b1 < 0xF0 then 3 else 4
  }

  /** The code units appended by one turn of the loop at position `i`. */
  function UnitsAt(bytes: seq<byte>, i: nat): seq<unit>
    requires i < |bytes|
  {
    var b1, b2, b3, b4 := bytes[i], ByteAt(bytes, i + 1), ByteAt(bytes, i + 2), ByteAt(bytes, i + 3);
    if b1 < 0x80 then [b1]
    else if b1 < 0xE0 then [CodePoint2(b1, b2)]
    else if b1 < 0xF0 then [CodePoint3(b1, b2, b3)]
    else Surrogates(CodePoint4(b1, b2, b3, b4))
  }

  function DecodedFrom(bytes: seq<byte>, i: nat): seq<unit>
    decreases |bytes| - i
  {
    if i >= |bytes| then [] else UnitsAt(bytes, i) + DecodedFrom(bytes, i + Advance(bytes[i]))
  }

  /** Where the loop stands when it stops, starting from position `i`. */
  function EndFrom(bytes: seq<byte>, i: nat): nat
    decreases |bytes| - i
  {
    if i >= |bytes| then i else EndFrom(bytes, i + Advance(bytes[i]))
  }

  /** `end` is where the loop stops reading: exactly at the end of the buffer, if that is UTF-8. */
  method BufferToText(bytes: seq<byte>) returns (result: seq<unit>, ghost end: nat)
    ensures result == DecodedFrom(bytes, 0) && end == EndFrom(bytes, 0)
    ensures forall text :: bytes == Utf8(text) ==> result == Utf16(text) && end == |bytes|
  {
    hide Utf8, Utf16, UnitsAt;
    result := [];
    var i := 0;
    while i < |bytes|
      invariant result + DecodedFrom(bytes, i) == DecodedFrom(bytes, 0)
      invariant EndFrom(bytes, i) == EndFrom(bytes, 0)
      decreases |bytes| - i
    {
      ghost var start, before := i, result;
      var units;
      units, i := DecodeGroup(bytes, i);
      result := result + units;
      assert before + (units + DecodedFrom(bytes, i)) == result + DecodedFrom(bytes, i);
    }
    end := i;
    forall text | bytes == Utf8(text) ensures result == Utf16(text) && end == |bytes| {
      WholeBuffer(bytes, text);
    }
  }

  /** One turn of the loop: reads a lead byte and what its branch asks for. */
  method DecodeGroup(bytes: seq<byte>, start: nat) returns (units: seq<unit>, i: nat)
    requires start < |bytes|
    ensures units == UnitsAt(bytes, start)
    ensures i == start + Advance(bytes[start])
  {
    var b1 := bytes[start];
    i := start + 1;
    if b1 < 0x80 {
      units := [b1];
    } else if b1 < 0xE0 {
      var b2 := ByteAt(bytes, i);
      i := i + 1;
      units := [CodePoint2(b1, b2)];
    } else if b1 < 0xF0 {
      var b2, b3 := ByteAt(bytes, i), ByteAt(bytes, i + 1);
      i := i + 2;
      units := [CodePoint3(b1, b2, b3)];
    } else {
      var b2, b3, b4 := ByteAt(bytes, i), ByteAt(bytes, i + 1), ByteAt(bytes, i + 2);
      i := i + 3;
      units := Surrogates(CodePoint4(b1, b2, b3, b4));
    }
  }

  // ---------- Exactness ----------

  lemma Split2(c: int)
    requires 0x80 <= c < 0x800
    ensures CodePoint2(0xC0 + c / 64, 0x80 + c % 64) == c
  {
  }

  lemma Split3(c: int)
    requires 0x800 <= c < 0x10000
    ensures CodePoint3(0xE0 + c / 4096, 0x80 + c / 64 % 64, 0x80 + c % 64) == c
  {
    assert c / 64 / 64 == c / 4096;
  }

  lemma Split4(c: int)
    requires 0x10000 <= c < 0x110000
    ensures CodePoint4(0xF0 + c / 262144, 0x80 + c / 4096 % 64, 0x80 + c / 64 % 64, 0x80 + c % 64) == c
  {
    assert c / 64 / 64 == c / 4096 && c / 4096 / 64 == c / 262144;
  }

  /** One encoded scalar is read back by one turn of the loop, which consumes exactly its bytes. */
  lemma OneScalar(bytes: seq<byte>, i: nat, c: scalar)
    requires i + |Utf8One(c)| <= |bytes|
    requires forall k :: 0 <= k < |Utf8One(c)| ==> bytes[i + k] == Utf8One(c)[k]
    ensures UnitsAt(bytes, i) == Utf16One(c)
    ensures Advance(bytes[i]) == |Utf8One(c)|
  {
    assert bytes[i + 0] == Utf8One(c)[0];
    if 0x80 <= c {
      assert bytes[i + 1] == Utf8One(c)[1];
      if c < 0x800 {
        Split2(c);
      } else {
        assert bytes[i + 2] == Utf8One(c)[2];
        if c < 0x10000 {
          Split3(c);
        } else {
          assert bytes[i + 3] == Utf8One(c)[3];
          Split4(c);
        }
      }
    }
  }

  /** Bytes missing at the end of the buffer count as zero. */
  lemma MissingBytesAreZero(bytes: seq<byte>, i: nat)
    requires i < |bytes|
    ensures UnitsAt(bytes, i) == UnitsAt(bytes + [0, 0, 0], i)
  {
  }

  /** A continuation byte where a lead byte should be is taken for the lead of a two-byte group. */
  lemma StrayContinuation(bytes: seq<byte>, i: nat)
    requires i + 1 < |bytes| && 0x80 <= bytes[i] < 0xC0
    ensures Advance(bytes[i]) == 2 && |UnitsAt(bytes, i)| == 1
    ensures var b1: int, b2: int := bytes[i], bytes[i + 1]; UnitsAt(bytes, i)[0] == b1 % 32 * 64 + b2 % 64
  {
  }

  /** The UTF-8 encoding of `text` stands at position `i`, with anything before and after it. */
  ghost predicate HoldsAt(bytes: seq<byte>, i: nat, text: seq<scalar>) {
    i + |Utf8(text)| <= |bytes| && bytes[i..i + |Utf8(text)|] == Utf8(text)
  }

  lemma FirstScalar(bytes: seq<byte>, i: nat, text: seq<scalar>)
    requires text != [] && HoldsAt(bytes, i, text)
    ensures i < |bytes| && UnitsAt(bytes, i) == Utf16One(text[0]) && Advance(bytes[i]) == |Utf8One(text[0])|
    ensures HoldsAt(bytes, i + |Utf8One(text[0])|, text[1..])
  {
    hide Utf8One, Utf16One, UnitsAt;
    var first, rest := Utf8One(text[0]), Utf8(text[1..]);
    var here := bytes[i..i + |Utf8(text)|];
    assert here == first + rest;
    forall k | 0 <= k < |first| ensures bytes[i + k] == first[k] {
      assert here[k] == first[k];
    }
    OneScalar(bytes, i, text[0]);
    assert bytes[i + |first|..i + |first| + |rest|] == here[|first|..] == rest;
  }

  /**
   At any position in any buffer, the bytes of an encoded text are decoded to its UTF-16 encoding, and the
   decoder then stands exactly behind them.
   */
  lemma {:induction false} DecodingIsExact(bytes: seq<byte>, i: nat, text: seq<scalar>)
    requires HoldsAt(bytes, i, text)
    ensures DecodedFrom(bytes, i) == Utf16(text) + DecodedFrom(bytes, i + |Utf8(text)|)
    ensures EndFrom(bytes, i) == EndFrom(bytes, i + |Utf8(text)|)
    decreases text
  {
    hide Utf8One, Utf16One, UnitsAt, HoldsAt, Advance;
    if text != [] {
      var j := i + |Utf8One(text[0])|;
      FirstScalar(bytes, i, text);
      DecodingIsExact(bytes, j, text[1..]);
      assert j + |Utf8(text[1..])| == i + |Utf8(text)|;
      var rest := DecodedFrom(bytes, i + |Utf8(text)|);
      assert DecodedFrom(bytes, i) == Utf16One(text[0]) + (Utf16(text[1..]) + rest);
      assert Utf16(text) + rest == Utf16One(text[0]) + (Utf16(text[1..]) + rest);
    }
  }

  /** A buffer that is the encoding of a text decodes to that text, and every byte is consumed. */
  lemma WholeBuffer(bytes: seq<byte>, text: seq<scalar>)
    requires bytes == Utf8(text)
    ensures DecodedFrom(bytes, 0) == Utf16(text) && EndFrom(bytes, 0) == |bytes|
  {
    hide Utf8, Utf16;
    assert bytes[0..0 + |Utf8(text)|] == Utf8(text);
    DecodingIsExact(bytes, 0, text);
  }
}
