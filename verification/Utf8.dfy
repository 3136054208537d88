/**
 * Text as UTF-16 units, as the clients hold it, and its UTF-8 bytes: the encoder, which
 * replaces unpaired surrogates, and the decoder, which replaces ill-formed bytes and
 * drops a byte order mark at the front (the Encoding standard's `UTF-8 decode`).
 */
module Utf8 {
  import opened Base64

  type Unit = u: int | 0 <= u < 0x10000
  type Text = seq<Unit>
  type Scalar = c: int | 0 <= c < 0x110000 && !(0xD800 <= c < 0xE000)

  const REPLACEMENT: Unit := 0xFFFD
  const MARK: Unit := 0xFEFF
  const BOM: seq<Byte> := [0xEF, 0xBB, 0xBF]

  predicate IsHigh(u: Unit) {
    0xD800 <= u < 0xDC00
  }

  predicate IsLow(u: Unit) {
    0xDC00 <= u < 0xE000
  }

  predicate PairedAt(text: Text, i: nat)
    requires i < |text|
  {
    && (IsHigh(text[i]) ==> i + 1 < |text| && IsLow(text[i + 1]))
    && (IsLow(text[i]) ==> i > 0 && IsHigh(text[i - 1]))
  }

  /** Every surrogate is half of a pair. */
  predicate WellFormed(text: Text) {
    forall i :: 0 <= i < |text| ==> PairedAt(text, i)
  }

  predicate StartsMarked(text: Text) {
    text != [] && text[0] == MARK
  }

  // ---- Encoding ----

  /** Units of the first code point. */
  function Width(text: Text): (width: nat)
    requires text != []
    ensures 1 <= width <= |text|
  {
    if IsHigh(text[0]) && |text| > 1 && IsLow(text[1]) then 2 else 1
  }

  /** The first code point, or the replacement for a lone surrogate. */
  function First(text: Text): Scalar
    requires text != []
  {
    if Width(text) == 2 then 0x10000 + (text[0] - 0xD800) * 0x400 + (text[1] - 0xDC00)
    else if IsHigh(text[0]) || IsLow(text[0]) then REPLACEMENT
    else text[0]
  }

  function EncodePoint(c: Scalar): (bytes: seq<Byte>)
    ensures 1 <= |bytes| <= 4
  {
    if c < 0x80 then [c]
    else if c < 0x800 then [0xC0 + c / 64, 0x80 + c % 64]
    else if c < 0x10000 then [0xE0 + c / 64 / 64, 0x80 + c / 64 % 64, 0x80 + c % 64]
    else [0xF0 + c / 64 / 64 / 64, 0x80 + c / 64 / 64 % 64, 0x80 + c / 64 % 64, 0x80 + c % 64]
  }

  function EncodeText(text: Text): (bytes: seq<Byte>)
  {
    if text == [] then [] else EncodePoint(First(text)) + EncodeText(text[Width(text)..])
  }

  // ---- Decoding ----

  /** How many bytes a lead byte asks for; 0 when it is none. */
  function Need(lead: Byte): nat {
    if 0xC2 <= lead <= 0xDF then 1 else if 0xE0 <= lead <= 0xEF then 2 else if 0xF0 <= lead <= 0xF4 then 3 else 0
  }

  /** The first byte after the lead; some leads allow fewer, against overlong forms, surrogates and points too high. */
  predicate Second(lead: Byte, b: Byte) {
    (if lead == 0xE0 then 0xA0 else if lead == 0xF0 then 0x90 else 0x80) <= b <=
    (if lead == 0xED then 0x9F else if lead == 0xF4 then 0x8F else 0xBF)
  }

  predicate Continues(b: Byte) {
    0x80 <= b <= 0xBF
  }

  /** How many of the bytes asked for follow. */
  function Follow(bytes: seq<Byte>): (n: nat)
    requires bytes != []
    ensures n < |bytes| && n <= Need(bytes[0])
  {
    var need := Need(bytes[0]);
    if need == 0 || |bytes| < 2 || !Second(bytes[0], bytes[1]) then 0
    else if need == 1 || |bytes| < 3 || !Continues(bytes[2]) then 1
    else if need == 2 || |bytes| < 4 || !Continues(bytes[3]) then 2
    else 3
  }

  /** A code point from its bytes. */
  function PointOf(bytes: seq<Byte>): Scalar
    requires bytes != [] && bytes[0] >= 0x80 && Need(bytes[0]) > 0 && Follow(bytes) == Need(bytes[0])
  {
    var lead: int, b: int := bytes[0], bytes[1];
    if Need(bytes[0]) == 1 then (lead - 0xC0) * 64 + (b - 0x80)
    else
      var c: int := bytes[2];
      if Need(bytes[0]) == 2 then ((lead - 0xE0) * 64 + (b - 0x80)) * 64 + (c - 0x80)
      else
        var d: int := bytes[3];
        (((lead - 0xF0) * 64 + (b - 0x80)) * 64 + (c - 0x80)) * 64 + (d - 0x80)
  }

  function UnitsOf(c: Scalar): (units: Text)
    ensures 1 <= |units| <= 2
  {
    if c < 0x10000 then [c] else [0xD800 + (c - 0x10000) / 0x400, 0xDC00 + (c - 0x10000) % 0x400]
  }

  /** Each ill-formed part becomes one replacement. */
  function DecodeBytes(bytes: seq<Byte>): Text {
    if bytes == [] then []
    else if bytes[0] < 0x80 then [bytes[0]] + DecodeBytes(bytes[1..])
    else if Need(bytes[0]) == 0 || Follow(bytes) < Need(bytes[0]) then [REPLACEMENT] + DecodeBytes(bytes[1 + Follow(bytes)..])
    else UnitsOf(PointOf(bytes)) + DecodeBytes(bytes[1 + Follow(bytes)..])
  }

  function DecodeText(bytes: seq<Byte>): Text {
    DecodeBytes(if BOM <= bytes then bytes[3..] else bytes)
  }

  // ---- The round trip ----

  /** The text with every unpaired surrogate replaced. */
  function Scrubbed(text: Text): Text {
    if text == [] then [] else UnitsOf(First(text)) + Scrubbed(text[Width(text)..])
  }

  lemma {:induction false} ShortPoint(c: Scalar, rest: seq<Byte>)
    requires c < 0x800
    ensures DecodeBytes(EncodePoint(c) + rest) == UnitsOf(c) + DecodeBytes(rest)
  {
    var bytes := EncodePoint(c) + rest;
    assert bytes[|EncodePoint(c)|..] == rest;
  }

  lemma {:induction false} MiddlePoint(c: Scalar, rest: seq<Byte>)
    requires 0x800 <= c < 0x10000
    ensures DecodeBytes(EncodePoint(c) + rest) == UnitsOf(c) + DecodeBytes(rest)
  {
    var bytes := EncodePoint(c) + rest;
    var q := c / 64;
    assert c == q * 64 + c % 64 && q == q / 64 * 64 + q % 64;
    assert bytes[1] == 0x80 + q % 64 && bytes[2] == 0x80 + c % 64;
    assert Follow(bytes) == 2 && PointOf(bytes) == c;
    assert bytes[3..] == rest;
  }

  lemma {:induction false} LongPoint(c: Scalar, rest: seq<Byte>)
    requires 0x10000 <= c
    ensures DecodeBytes(EncodePoint(c) + rest) == UnitsOf(c) + DecodeBytes(rest)
  {
    var bytes := EncodePoint(c) + rest;
    var q := c / 64;
    var s := q / 64;
    assert c == q * 64 + c % 64 && q == s * 64 + q % 64 && s == s / 64 * 64 + s % 64;
    assert bytes[1] == 0x80 + s % 64 && bytes[2] == 0x80 + q % 64 && bytes[3] == 0x80 + c % 64;
    assert Follow(bytes) == 3 && PointOf(bytes) == c;
    assert bytes[4..] == rest;
  }

  lemma {:induction false} PointRoundTrip(c: Scalar, rest: seq<Byte>)
    ensures DecodeBytes(EncodePoint(c) + rest) == UnitsOf(c) + DecodeBytes(rest)
  {
    hide *;
    if c < 0x800 {
      ShortPoint(c, rest);
    } else if c < 0x10000 {
      MiddlePoint(c, rest);
    } else {
      LongPoint(c, rest);
    }
  }

  /** Decoding what was encoded gives the text with its unpaired surrogates replaced. */
  lemma {:induction false} DecodeEncodeBytes(text: Text)
    ensures DecodeBytes(EncodeText(text)) == Scrubbed(text)
  {
    if text != [] {
      DecodeEncodeBytes(text[Width(text)..]);
      PointRoundTrip(First(text), EncodeText(text[Width(text)..]));
    }
  }

  /** What the first code point becomes. */
  lemma {:induction false} FirstUnits(text: Text)
    requires text != []
    ensures |UnitsOf(First(text))| == Width(text)
    ensures UnitsOf(First(text)) == text[..Width(text)] <==> Width(text) == 2 || !(IsHigh(text[0]) || IsLow(text[0]))
  {
    if Width(text) == 2 {
      assert UnitsOf(First(text)) == [text[0], text[1]];
    }
  }

  lemma {:induction false} PairedTail(text: Text, i: nat)
    requires text != [] && Width(text) <= i < |text|
    ensures PairedAt(text[Width(text)..], i - Width(text)) == PairedAt(text, i)
  {
    var n := Width(text);
    var rest := text[n..];
    assert rest[i - n] == text[i];
    assert i + 1 < |text| ==> rest[i + 1 - n] == text[i + 1];
    assert i > n ==> rest[i - 1 - n] == text[i - 1];
  }

  lemma {:induction false} WellFormedTail(text: Text)
    requires text != []
    ensures WellFormed(text) <==> WellFormed(text[Width(text)..]) && (Width(text) == 2 || !(IsHigh(text[0]) || IsLow(text[0])))
  {
    var n := Width(text);
    var rest := text[n..];
    assert PairedAt(text, 0) <==> n == 2 || !(IsHigh(text[0]) || IsLow(text[0]));
    assert n == 2 ==> PairedAt(text, 1);
    hide PairedAt;
    if WellFormed(text) {
      forall i | 0 <= i < |rest|
        ensures PairedAt(rest, i)
      {
        PairedTail(text, n + i);
      }
    }
    if WellFormed(rest) && PairedAt(text, 0) {
      forall i | 0 <= i < |text|
        ensures PairedAt(text, i)
      {
        if i >= n {
          PairedTail(text, i);
        }
      }
    }
  }

  /** Nothing is replaced exactly in well-formed text; the length never changes. */
  lemma {:induction false} ScrubbedExactly(text: Text)
    ensures |Scrubbed(text)| == |text|
    ensures Scrubbed(text) == text <==> WellFormed(text)
  {
    if text != [] {
      var n := Width(text);
      var units := UnitsOf(First(text));
      ScrubbedExactly(text[n..]);
      FirstUnits(text);
      WellFormedTail(text);
      assert text == text[..n] + text[n..];
      assert Scrubbed(text)[..n] == units && Scrubbed(text)[n..] == Scrubbed(text[n..]);
    }
  }

  lemma {:induction false} MarkPoint(c: Scalar, rest: seq<Byte>)
    ensures BOM <= EncodePoint(c) + rest <==> c == MARK
  {
    var bytes := EncodePoint(c) + rest;
    if 0x800 <= c < 0x10000 {
      var q := c / 64;
      assert c == q * 64 + c % 64 && q == q / 64 * 64 + q % 64;
      assert bytes[0] == 0xE0 + q / 64 && bytes[1] == 0x80 + q % 64 && bytes[2] == 0x80 + c % 64;
    } else {
      assert bytes[0] != 0xEF;
    }
  }

  /** Encoding and decoding replaces unpaired surrogates and drops a mark at the front. */
  lemma {:induction false} DecodeEncodeText(text: Text)
    ensures DecodeText(EncodeText(text)) == if StartsMarked(text) then Scrubbed(text[1..]) else Scrubbed(text)
  {
    if text != [] {
      var rest := EncodeText(text[Width(text)..]);
      MarkPoint(First(text), rest);
      if StartsMarked(text) {
        assert EncodeText(text)[3..] == rest;
        DecodeEncodeBytes(text[1..]);
      } else {
        DecodeEncodeBytes(text);
      }
    }
  }

  // ---- Bytes that are no encoding ----

  lemma {:induction false} UnitsFirst(c: Scalar, tail: Text)
    ensures First(UnitsOf(c) + tail) == c && Width(UnitsOf(c) + tail) == |UnitsOf(c)|
    ensures (UnitsOf(c) + tail)[|UnitsOf(c)|..] == tail
  {
  }

  lemma {:induction false} TwoBytes(bytes: seq<Byte>)
    requires bytes != [] && bytes[0] >= 0x80 && Need(bytes[0]) == 1 && Follow(bytes) == 1
    ensures EncodePoint(PointOf(bytes)) == bytes[..2]
  {
    var b: int := bytes[1];
    assert PointOf(bytes) / 64 == bytes[0] - 0xC0 && PointOf(bytes) % 64 == b - 0x80;
  }

  lemma {:induction false} ThreeBytes(bytes: seq<Byte>)
    requires bytes != [] && bytes[0] >= 0x80 && Need(bytes[0]) == 2 && Follow(bytes) == 2
    ensures EncodePoint(PointOf(bytes)) == bytes[..3]
  {
    var b: int, c: int := bytes[1], bytes[2];
    var q := (bytes[0] - 0xE0) * 64 + (b - 0x80);
    assert PointOf(bytes) == q * 64 + (c - 0x80);
    assert PointOf(bytes) / 64 == q && q / 64 == bytes[0] - 0xE0 && q % 64 == b - 0x80;
  }

  lemma {:induction false} FourBytes(bytes: seq<Byte>)
    requires bytes != [] && bytes[0] >= 0x80 && Need(bytes[0]) == 3 && Follow(bytes) == 3
    ensures EncodePoint(PointOf(bytes)) == bytes[..4]
  {
    var b: int, c: int, d: int := bytes[1], bytes[2], bytes[3];
    var s := (bytes[0] - 0xF0) * 64 + (b - 0x80);
    var q := s * 64 + (c - 0x80);
    assert PointOf(bytes) == q * 64 + (d - 0x80);
    assert PointOf(bytes) / 64 == q && q / 64 == s && s / 64 == bytes[0] - 0xF0 && s % 64 == b - 0x80;
  }

  lemma {:induction false} PointsBytes(bytes: seq<Byte>)
    requires bytes != [] && bytes[0] >= 0x80 && Need(bytes[0]) > 0 && Follow(bytes) == Need(bytes[0])
    ensures EncodePoint(PointOf(bytes)) == bytes[..1 + Follow(bytes)]
  {
    hide EncodePoint, PointOf, Follow;
    if Need(bytes[0]) == 1 {
      TwoBytes(bytes);
    } else if Need(bytes[0]) == 2 {
      ThreeBytes(bytes);
    } else {
      FourBytes(bytes);
    }
  }

  /** Bytes that decode without a replacement are the encoding of what they decode to; and what is decoded is always well formed. */
  lemma {:induction false} DecodedExactly(bytes: seq<Byte>)
    ensures WellFormed(DecodeBytes(bytes))
    ensures REPLACEMENT !in DecodeBytes(bytes) ==> EncodeText(DecodeBytes(bytes)) == bytes
    decreases |bytes|, 1
  {
    if bytes != [] {
      if bytes[0] < 0x80 {
        DecodedNext(bytes, bytes[0], 1);
      } else if Need(bytes[0]) == 0 || Follow(bytes) < Need(bytes[0]) {
        DecodedNext(bytes, REPLACEMENT, 1 + Follow(bytes));
      } else {
        PointsBytes(bytes);
        DecodedNext(bytes, PointOf(bytes), 1 + Follow(bytes));
      }
    }
  }

  lemma {:induction false} DecodedNext(bytes: seq<Byte>, c: Scalar, n: nat)
    requires 1 <= n <= |bytes| && DecodeBytes(bytes) == UnitsOf(c) + DecodeBytes(bytes[n..])
    requires c != REPLACEMENT ==> EncodePoint(c) == bytes[..n]
    ensures WellFormed(DecodeBytes(bytes))
    ensures REPLACEMENT !in DecodeBytes(bytes) ==> EncodeText(DecodeBytes(bytes)) == bytes
    decreases |bytes|, 0
  {
    var tail := DecodeBytes(bytes[n..]);
    DecodedExactly(bytes[n..]);
    UnitsFirst(c, tail);
    WellFormedTail(UnitsOf(c) + tail);
    hide First, Width, EncodePoint, DecodeBytes, WellFormed, PairedAt;
    assert bytes == bytes[..n] + bytes[n..];
    if c == REPLACEMENT {
      assert REPLACEMENT == (UnitsOf(c) + tail)[0];
    } else {
      assert forall u :: u in tail ==> u in UnitsOf(c) + tail;
    }
  }

  lemma {:induction false} EncodedLength(text: Text)
    ensures |EncodeText(text)| <= 4 * |text|
  {
    if text != [] {
      EncodedLength(text[Width(text)..]);
    }
  }

  /** Text comes back from its bytes exactly when it is well formed and starts with no byte order mark. */
  lemma {:induction false} TextRoundTrip(text: Text)
    ensures DecodeText(EncodeText(text)) == text <==> WellFormed(text) && !StartsMarked(text)
    ensures |DecodeText(EncodeText(text))| == |text| - (if StartsMarked(text) then 1 else 0)
  {
    DecodeEncodeText(text);
    if StartsMarked(text) {
      ScrubbedExactly(text[1..]);
    } else {
      ScrubbedExactly(text);
    }
  }
}
