/** Base64 (section 4 of RFC 4648) as the client encodes and checks it. */
module Base64 {
  import opened Prelude

  type Byte = b: int | 0 <= b < 256

  /** The alphabet character of a 6-bit value. */
  function Digit(d: nat): char
    requires d < 64
  {
    if d < 26 then 'A' + d as char
    else if d < 52 then 'a' + (d - 26) as char
    else if d < 62 then '0' + (d - 52) as char
    else if d == 62 then '+' else '/'
  }

  predicate IsDigit(c: char) {
    'A' <= c <= 'Z' || 'a' <= c <= 'z' || '0' <= c <= '9' || c == '+' || c == '/'
  }

  function ValueOf(c: char): (d: nat)
    requires IsDigit(c)
    ensures d < 64 && Digit(d) == c
  {
    if 'A' <= c <= 'Z' then (c - 'A') as nat
    else if 'a' <= c <= 'z' then (c - 'a') as nat + 26
    else if '0' <= c <= '9' then (c - '0') as nat + 52
    else if c == '+' then 62 else 63
  }

  lemma {:induction false} DigitValue(d: nat)
    requires d < 64
    ensures IsDigit(Digit(d)) && ValueOf(Digit(d)) == d
  {
  }

  /** Three bytes become four characters, the last one or two padded. */
  function Encode(bytes: seq<Byte>): string {
    if bytes == [] then ""
    else if |bytes| == 1 then [Digit(bytes[0] / 4), Digit(bytes[0] % 4 * 16), '=', '=']
    else if |bytes| == 2 then [Digit(bytes[0] / 4), Digit(bytes[0] % 4 * 16 + bytes[1] / 16), Digit(bytes[1] % 16 * 4), '=']
    else
      [Digit(bytes[0] / 4), Digit(bytes[0] % 4 * 16 + bytes[1] / 16), Digit(bytes[1] % 16 * 4 + bytes[2] / 64), Digit(bytes[2] % 64)]
      + Encode(bytes[3..])
  }

  /** Groups of four digits, the last one possibly padded. */
  predicate IsBase64(text: string) {
    if text == "" then true
    else if |text| < 4 || !IsDigit(text[0]) || !IsDigit(text[1]) then false
    else if |text| == 4 then (text[2] == '=' && text[3] == '=') || (IsDigit(text[2]) && (IsDigit(text[3]) || text[3] == '='))
    else IsDigit(text[2]) && IsDigit(text[3]) && IsBase64(text[4..])
  }

  function Bytes(text: string): seq<Byte>
    requires IsBase64(text)
  {
    if text == "" then []
    else
      var a, b := ValueOf(text[0]), ValueOf(text[1]);
      var first: Byte := a * 4 + b / 16;
      if text[2] == '=' then [first]
      else
        var c := ValueOf(text[2]);
        var second: Byte := b % 16 * 16 + c / 4;
        if text[3] == '=' then [first, second]
        else
          var third: Byte := c % 4 * 64 + ValueOf(text[3]);
          [first, second, third] + Bytes(text[4..])
  }

  function Decode(text: string): Option<seq<Byte>> {
    if IsBase64(text) then Some(Bytes(text)) else None
  }

  /** The two 6-bit halves around a byte boundary give the bytes back. */
  lemma {:induction false} Boundary16(x: Byte, y: Byte)
    ensures var b := x % 4 * 16 + y / 16; b < 64 && x / 4 * 4 + b / 16 == x && b % 16 == y / 16
    ensures y / 16 * 16 + y % 16 == y
  {
    var q, r := y / 16, y % 16;
    assert y == 16 * q + r && 0 <= q < 16;
    var h, l := x / 4, x % 4;
    assert x == 4 * h + l && 0 <= l < 4;
    var b := l * 16 + q;
    assert b / 16 == l && b % 16 == q;
  }

  lemma {:induction false} Boundary64(y: Byte, z: Byte)
    ensures var c := y % 16 * 4 + z / 64; c < 64 && y / 16 * 16 + c / 4 == y && c % 4 * 64 + z % 64 == z
  {
    var q, r := z / 64, z % 64;
    assert z == 64 * q + r && 0 <= q < 4;
    var h, l := y / 16, y % 16;
    assert y == 16 * h + l && 0 <= l < 16;
    var c := l * 4 + q;
    assert c / 4 == l && c % 4 == q;
  }

  /** Decoding undoes encoding, for all bytes. */
  lemma {:induction false} DecodeEncode(bytes: seq<Byte>)
    ensures Decode(Encode(bytes)) == Some(bytes)
  {
    if bytes == [] {
    } else if |bytes| == 1 {
      EncodeOne(bytes);
    } else if |bytes| == 2 {
      EncodeTwo(bytes);
    } else {
      DecodeEncode(bytes[3..]);
      EncodeThree(bytes);
    }
  }

  lemma {:induction false} EncodeOne(bytes: seq<Byte>)
    requires |bytes| == 1
    ensures Decode(Encode(bytes)) == Some(bytes)
  {
    Boundary16(bytes[0], 0);
    DigitValue(bytes[0] / 4);
    DigitValue(bytes[0] % 4 * 16);
    hide Digit, ValueOf;
    assert bytes == [bytes[0]];
    assert Encode(bytes) == [Digit(bytes[0] / 4), Digit(bytes[0] % 4 * 16), '=', '='];
  }

  lemma {:induction false} EncodeTwo(bytes: seq<Byte>)
    requires |bytes| == 2
    ensures Decode(Encode(bytes)) == Some(bytes)
  {
    hide *;
    var x, y := bytes[0], bytes[1];
    Boundary16(x, y);
    Boundary64(y, 0);
    TwoDigits(bytes);
    ThreeCharacters(x / 4, x % 4 * 16 + y / 16, y % 16 * 4);
    assert bytes == [x, y];
  }

  lemma {:induction false} TwoDigits(bytes: seq<Byte>)
    requires |bytes| == 2
    ensures var x, y := bytes[0], bytes[1];
            && x / 4 < 64 && x % 4 * 16 + y / 16 < 64 && y % 16 * 4 < 64
            && Encode(bytes) == [Digit(x / 4), Digit(x % 4 * 16 + y / 16), Digit(y % 16 * 4), '=']
  {
    hide Digit;
  }

  lemma {:induction false} ThreeCharacters(a: nat, b: nat, c: nat)
    requires a < 64 && b < 64 && c < 64
    ensures a * 4 + b / 16 < 256 && b % 16 * 16 + c / 4 < 256
    ensures Decode([Digit(a), Digit(b), Digit(c), '=']) == Some([a * 4 + b / 16, b % 16 * 16 + c / 4])
  {
    DigitValue(a);
    DigitValue(b);
    DigitValue(c);
    hide Digit, ValueOf;
    var text := [Digit(a), Digit(b), Digit(c), '='];
    assert text[2] != '=' && IsBase64(text);
    assert ValueOf(text[0]) == a && ValueOf(text[1]) == b && ValueOf(text[2]) == c;
  }

  lemma {:induction false} EncodeThree(bytes: seq<Byte>)
    requires |bytes| >= 3 && Decode(Encode(bytes[3..])) == Some(bytes[3..])
    ensures Decode(Encode(bytes)) == Some(bytes)
  {
    hide Encode, Bytes, IsBase64, Digit;
    ThreeDigits(bytes);
    var x, y, z := bytes[0], bytes[1], bytes[2];
    Boundary16(x, y);
    Boundary64(y, z);
    assert bytes == [x, y, z] + bytes[3..];
    FourDigits(x / 4, x % 4 * 16 + y / 16, y % 16 * 4 + z / 64, z % 64, Encode(bytes[3..]));
  }

  lemma {:induction false} ThreeDigits(bytes: seq<Byte>)
    requires |bytes| >= 3 && Decode(Encode(bytes[3..])) == Some(bytes[3..])
    ensures var x, y, z := bytes[0], bytes[1], bytes[2];
            && x / 4 < 64 && x % 4 * 16 + y / 16 < 64 && y % 16 * 4 + z / 64 < 64 && z % 64 < 64
            && Encode(bytes) == [Digit(x / 4), Digit(x % 4 * 16 + y / 16), Digit(y % 16 * 4 + z / 64), Digit(z % 64)] + Encode(bytes[3..])
    ensures IsBase64(Encode(bytes[3..])) && Bytes(Encode(bytes[3..])) == bytes[3..]
  {
    hide Digit, IsBase64, Bytes;
  }

  /** Four digits in front of decodable text decode to three bytes. */
  lemma {:induction false} FourDigits(a: nat, b: nat, c: nat, d: nat, rest: string)
    requires a < 64 && b < 64 && c < 64 && d < 64 && IsBase64(rest)
    ensures var text := [Digit(a), Digit(b), Digit(c), Digit(d)] + rest;
            IsBase64(text) && Bytes(text) == [a * 4 + b / 16, b % 16 * 16 + c / 4, c % 4 * 64 + d] + Bytes(rest)
  {
    DigitValue(a);
    DigitValue(b);
    DigitValue(c);
    DigitValue(d);
    hide Digit, ValueOf;
    var text := [Digit(a), Digit(b), Digit(c), Digit(d)] + rest;
    assert text[4..] == rest;
    assert text[0] == Digit(a) && text[1] == Digit(b) && text[2] == Digit(c) && text[3] == Digit(d);
  }

  /** Encoded text has no other characters. */
  lemma {:induction false} EncodeChars(bytes: seq<Byte>)
    ensures forall i :: 0 <= i < |Encode(bytes)| ==> IsDigit(Encode(bytes)[i]) || Encode(bytes)[i] == '='
  {
    if |bytes| > 2 {
      EncodeChars(bytes[3..]);
      DigitValue(bytes[0] / 4);
      DigitValue(bytes[0] % 4 * 16 + bytes[1] / 16);
      DigitValue(bytes[1] % 16 * 4 + bytes[2] / 64);
      DigitValue(bytes[2] % 64);
    } else if |bytes| == 2 {
      DigitValue(bytes[0] / 4);
      DigitValue(bytes[0] % 4 * 16 + bytes[1] / 16);
      DigitValue(bytes[1] % 16 * 4);
    } else if |bytes| == 1 {
      DigitValue(bytes[0] / 4);
      DigitValue(bytes[0] % 4 * 16);
    }
  }
}
