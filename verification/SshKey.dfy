/**
 * OpenSSH key files: SSH wire strings (section 5 of RFC 4251), the PEM armour, the
 * writer of a fresh Ed25519 key and the reader of its public key line. The key material
 * comes as parameters.
 */
module SshKey {
  import opened Prelude
  import opened Base64
  import opened Utf8

  const DASHES: string := "-----"
  const BEGIN_LABEL: string := "BEGIN OPENSSH PRIVATE KEY"
  const PEM_BEGIN: string := DASHES + BEGIN_LABEL + DASHES
  const PEM_END: string := DASHES + "END OPENSSH PRIVATE KEY" + DASHES
  const PEM_COLUMNS: nat := 70

  /** The bytes of ASCII text. */
  function Ascii(text: string): (bytes: seq<Byte>)
    requires forall i :: 0 <= i < |text| ==> text[i] < 128 as char
    ensures |bytes| == |text|
    ensures forall i :: 0 <= i < |text| ==> bytes[i] == text[i] as int
  {
    seq(|text|, i requires 0 <= i < |text| => text[i] as int)
  }

  const MAGIC: seq<Byte> := Ascii("openssh-key-v1") + [0]
  const ED25519: Text := Ascii("ssh-ed25519")
  const NONE: Text := Ascii("none")
  const SPACE: Text := Ascii(" ")

  // ---- SSH wire format ----

  /** A 32-bit big-endian number, wrapping as the writer does. */
  function Uint32(value: nat): (bytes: seq<Byte>)
    ensures |bytes| == 4
  {
    var q1 := value / 256;
    var q2 := q1 / 256;
    var q3 := q2 / 256;
    [q3 % 256, q2 % 256, q1 % 256, value % 256]
  }

  function BigEndian(a: nat, b: nat, c: nat, d: nat): nat {
    ((a * 256 + b) * 256 + c) * 256 + d
  }

  function ReadUint32(rest: seq<Byte>): Option<nat> {
    if |rest| < 4 then None else Some(BigEndian(rest[0], rest[1], rest[2], rest[3]))
  }

  const TWO_TO_THE_32: nat := 0x1_0000_0000

  lemma {:induction false} Uint32RoundTrip(value: nat, rest: seq<Byte>)
    requires value < TWO_TO_THE_32
    ensures ReadUint32(Uint32(value) + rest) == Some(value)
  {
    var q1 := value / 256;
    var q2 := q1 / 256;
    var q3 := q2 / 256;
    assert value == q1 * 256 + value % 256 && q1 == q2 * 256 + q1 % 256 && q2 == q3 * 256 + q2 % 256;
    assert q3 < 256;
  }

  function SshString(value: seq<Byte>): seq<Byte> {
    Uint32(|value|) + value
  }

  function SshText(text: Text): seq<Byte> {
    SshString(EncodeText(text))
  }

  /** A string at the front, and what comes after it. */
  function TakeString(rest: seq<Byte>): Option<(seq<Byte>, seq<Byte>)> {
    var length := ReadUint32(rest);
    if length.None? || 4 + length.value > |rest| then None
    else Some((rest[4..4 + length.value], rest[4 + length.value..]))
  }

  lemma {:induction false} StringRoundTrip(value: seq<Byte>, rest: seq<Byte>)
    requires |value| < TWO_TO_THE_32
    ensures TakeString(SshString(value) + rest) == Some((value, rest))
  {
    Uint32RoundTrip(|value|, value + rest);
    assert SshString(value) + rest == Uint32(|value|) + (value + rest);
    assert (SshString(value) + rest)[4..4 + |value|] == value;
    assert (SshString(value) + rest)[4 + |value|..] == rest;
  }

  /** What a reader has left at an offset; past the end there is nothing. */
  function RestAt(bytes: seq<Byte>, offset: nat): seq<Byte> {
    if offset <= |bytes| then bytes[offset..] else []
  }

  /** A cursor over wire-format bytes. */
  class SshReader {
    const bytes: seq<Byte>
    var offset: nat

    constructor (bytes: seq<Byte>)
      ensures this.bytes == bytes && offset == 0 && Rest() == bytes
    {
      this.bytes, offset := bytes, 0;
      new;
      assert bytes[0..] == bytes;
    }

    function Rest(): seq<Byte>
      reads this
    {
      RestAt(bytes, offset)
    }

    method Uint32() returns (value: Option<nat>)
      modifies this
      ensures value == ReadUint32(old(Rest()))
      ensures if value.Some? then offset == old(offset) + 4 <= |bytes| && Rest() == old(Rest())[4..] else offset == old(offset)
    {
      if offset + 4 > |bytes| {
        return None;
      }
      value := Some(BigEndian(bytes[offset], bytes[offset + 1], bytes[offset + 2], bytes[offset + 3]));
      offset := offset + 4;
    }

    method String() returns (value: Option<seq<Byte>>)
      modifies this
      ensures var taken := TakeString(old(Rest()));
              if taken.None? then value == None else value == Some(taken.value.0) && Rest() == taken.value.1
    {
      var length := this.Uint32();
      if length.None? || offset + length.value > |bytes| {
        return None;
      }
      value := Some(bytes[offset..offset + length.value]);
      assert value.value == old(Rest())[4..4 + length.value];
      offset := offset + length.value;
      assert bytes[offset..] == old(Rest())[4 + length.value..];
    }

    method Skip(length: nat)
      modifies this
      ensures Rest() == RestAt(old(Rest()), length)
    {
      offset := offset + length;
    }
  }

  // ---- PEM ----

  function Lines(text: string): seq<string> {
    if text == "" then [] else if |text| <= PEM_COLUMNS then [text] else [text[..PEM_COLUMNS]] + Lines(text[PEM_COLUMNS..])
  }

  function Join(lines: seq<string>): string {
    if lines == [] then "" else if |lines| == 1 then lines[0] else lines[0] + "\n" + Join(lines[1..])
  }

  function WrapPem(bytes: seq<Byte>): string {
    PEM_BEGIN + "\n" + Join(Lines(Encode(bytes))) + "\n" + PEM_END + "\n"
  }

  predicate OccursAt(text: string, pattern: string, i: nat) {
    i + |pattern| <= |text| && text[i..i + |pattern|] == pattern
  }

  /** Where a pattern first occurs. */
  function IndexOf(text: string, pattern: string): (index: Option<nat>)
    ensures index.Some? ==> OccursAt(text, pattern, index.value) && forall i :: 0 <= i < index.value ==> !OccursAt(text, pattern, i)
    ensures index.None? ==> forall i :: !OccursAt(text, pattern, i)
  {
    IndexFrom(text, pattern, 0)
  }

  function IndexFrom(text: string, pattern: string, from: nat): (index: Option<nat>)
    ensures index.Some? ==> from <= index.value && OccursAt(text, pattern, index.value) && forall i :: from <= i < index.value ==> !OccursAt(text, pattern, i)
    ensures index.None? ==> forall i :: from <= i ==> !OccursAt(text, pattern, i)
    decreases |text| - from
  {
    if OccursAt(text, pattern, from) then Some(from)
    else if from < |text| then IndexFrom(text, pattern, from + 1)
    else None
  }

  /** White space as a regular expression's `\s` has it. */
  predicate IsSpace(c: char) {
    || c in {' ', '\t', '\n', '\r', 11 as char, 12 as char}
    || c as int in {0xA0, 0x1680, 0x2028, 0x2029, 0x202F, 0x205F, 0x3000, 0xFEFF}
    || 0x2000 <= c as int <= 0x200A
  }

  function WithoutSpaces(text: string): string {
    if text == "" then "" else
      var n := |text| - 1;
      WithoutSpaces(text[..n]) + (if IsSpace(text[n]) then "" else [text[n]])
  }

  function UnwrapPem(pem: string): Option<seq<Byte>> {
    var start := IndexOf(pem, PEM_BEGIN);
    var end := IndexOf(pem, PEM_END);
    if start.None? || end.None? || end.value < start.value then None
    else
      // A slice between indices in the wrong order is empty.
      var from := start.value + |PEM_BEGIN|;
      Decode(WithoutSpaces(if from <= end.value then pem[from..end.value] else ""))
  }

  // ---- Writing a key ----

  /** The fresh key's parts: the seed, its public key and the random check value. */
  datatype KeyMaterial = KeyMaterial(seed: seq<Byte>, publicKey: seq<Byte>, check: seq<Byte>)

  datatype KeyPair = KeyPair(publicKey: Text, privateKey: string)

  function PublicBlob(key: KeyMaterial): seq<Byte> {
    SshText(ED25519) + SshString(key.publicKey)
  }

  /** Bytes 1, 2, 3, … up to the cipher's block size. */
  function Padding(length: nat): (padding: seq<Byte>) {
    seq((8 - length % 8) % 8, i requires 0 <= i < 8 => i + 1)
  }

  /** The part an unencrypted file holds in the clear: check ints, key type, public key, secret, comment. */
  function Fields(key: KeyMaterial, comment: Text): seq<Byte> {
    key.check + key.check + SshText(ED25519) + SshString(key.publicKey) + SshString(key.seed + key.publicKey) + SshText(comment)
  }

  function Section(key: KeyMaterial, comment: Text): seq<Byte> {
    Fields(key, comment) + Padding(|Fields(key, comment)|)
  }

  function File(key: KeyMaterial, comment: Text): seq<Byte> {
    MAGIC + SshText(NONE) + SshText(NONE) + SshText([]) + Uint32(1) + SshString(PublicBlob(key)) + SshString(Section(key, comment))
  }

  /** `keyType base64(blob)`, and the comment when there is one. */
  function Line(keyType: Text, blob: seq<Byte>, comment: Text): Text {
    EncodeIsAscii(blob);
    var line := keyType + SPACE + Ascii(Encode(blob));
    if comment == [] then line else line + SPACE + comment
  }

  lemma {:induction false} EncodeIsAscii(blob: seq<Byte>)
    ensures forall i :: 0 <= i < |Encode(blob)| ==> Encode(blob)[i] < 128 as char
  {
    EncodeChars(blob);
  }

  function Generate(key: KeyMaterial, comment: Text): KeyPair {
    KeyPair(Line(ED25519, PublicBlob(key), comment), WrapPem(File(key, comment)))
  }

  // ---- Reading a key ----

  /** The comment behind the two key fields of an Ed25519 section. */
  function ReadComment(section: seq<Byte>, keyType: Text): Option<Text> {
    var inner := TakeString(RestAt(section, 8));
    if inner.None? then None
    else if keyType != ED25519 then Some([])
    else
      var public := TakeString(inner.value.1);
      if public.None? then None else
      var secret := TakeString(public.value.1);
      if secret.None? then None else
      var comment := TakeString(secret.value.1);
      if comment.None? then None else Some(DecodeText(comment.value.0))
  }

  /** The public key line in a decoded file, or None where the reader throws. */
  function ReadPublicKey(file: seq<Byte>): Option<Text> {
    if !(MAGIC <= file) then None else
    var cipher := TakeString(file[|MAGIC|..]);
    if cipher.None? then None else
    var kdf := TakeString(cipher.value.1);
    if kdf.None? then None else
    var options := TakeString(kdf.value.1);
    if options.None? then None else
    var count := ReadUint32(options.value.1);
    if count.None? || count.value < 1 then None else
    var blob := TakeString(options.value.1[4..]);
    if blob.None? then None else
    var keyType := TakeString(blob.value.0);
    if keyType.None? then None else
    var kind := DecodeText(keyType.value.0);
    if DecodeText(cipher.value.0) != NONE then Some(Line(kind, blob.value.0, []))
    else
      var section := TakeString(blob.value.1);
      if section.None? then None else
      var comment := ReadComment(section.value.0, kind);
      if comment.None? then None else Some(Line(kind, blob.value.0, comment.value))
  }

  /** The reader itself, cursor by cursor. */
  method ReadPublicKeyLine(file: seq<Byte>) returns (line: Option<Text>)
    ensures line == ReadPublicKey(file)
  {
    hide TakeString, ReadUint32, RestAt, DecodeText, Line;
    if !(MAGIC <= file) { return None; }
    var reader := new SshReader(file[|MAGIC|..]);
    var cipher := reader.String();
    if cipher.None? { return None; }
    var kdf := reader.String();
    if kdf.None? { return None; }
    var options := reader.String();
    if options.None? { return None; }
    var count := reader.Uint32();
    if count.None? || count.value < 1 { return None; }
    var blob := reader.String();
    if blob.None? { return None; }
    var blobReader := new SshReader(blob.value);
    var keyType := blobReader.String();
    if keyType.None? { return None; }
    var kind := DecodeText(keyType.value);
    var comment: Text := [];
    if DecodeText(cipher.value) == NONE {
      var inner := reader.String();
      if inner.None? { return None; }
      var section := new SshReader(inner.value);
      section.Skip(8);
      var innerType := section.String();
      if innerType.None? { return None; }
      if kind == ED25519 {
        var public := section.String();
        if public.None? { return None; }
        var secret := section.String();
        if secret.None? { return None; }
        var text := section.String();
        if text.None? { return None; }
        comment := DecodeText(text.value);
      }
    }
    line := Some(Line(kind, blob.value, comment));
  }

  function SshPublicKeyFromPrivateKey(privateKey: string): Option<Text> {
    var file := UnwrapPem(privateKey);
    if file.None? then None else ReadPublicKey(file.value)
  }

  // ---- The round trip ----

  lemma {:induction false} TypeIsPlain()
    ensures DecodeText(EncodeText(ED25519)) == ED25519 && DecodeText(EncodeText(NONE)) == NONE
    ensures |EncodeText(ED25519)| < TWO_TO_THE_32 && |EncodeText(NONE)| < TWO_TO_THE_32
  {
    hide DecodeText, EncodeText;
    PlainText(ED25519);
    PlainText(NONE);
  }

  lemma {:induction false} PlainText(text: Text)
    requires |text| < 100 && forall i :: 0 <= i < |text| ==> text[i] < 128
    ensures DecodeText(EncodeText(text)) == text && |EncodeText(text)| < TWO_TO_THE_32
  {
    hide DecodeText, EncodeText;
    TextRoundTrip(text);
    EncodedLength(text);
  }

  /** Reading a written section gives its comment as its bytes decode. */
  lemma {:induction false} CommentRoundTrip(key: KeyMaterial, comment: Text)
    requires |key.check| == 4 && |Section(key, comment)| < TWO_TO_THE_32
    ensures ReadComment(Section(key, comment), ED25519) == Some(DecodeText(EncodeText(comment)))
  {
    hide TakeString, SshString, SshText, DecodeText, EncodeText, Section, ED25519, TWO_TO_THE_32;
    var secret := key.seed + key.publicKey;
    var padding := Padding(|Fields(key, comment)|);
    SectionShape(key, comment);
    SectionParts(key, comment);
    TextString(ED25519, SshString(key.publicKey) + (SshString(secret) + (SshText(comment) + padding)));
    StringRoundTrip(key.publicKey, SshString(secret) + (SshText(comment) + padding));
    StringRoundTrip(secret, SshText(comment) + padding);
    TextString(comment, padding);
  }

  lemma {:induction false} TextString(text: Text, rest: seq<Byte>)
    requires |EncodeText(text)| < TWO_TO_THE_32
    ensures TakeString(SshText(text) + rest) == Some((EncodeText(text), rest))
  {
    hide EncodeText;
    StringRoundTrip(EncodeText(text), rest);
  }

  /** Behind the check ints: the key type, the two key fields, the comment and the padding. */
  lemma {:induction false} SectionShape(key: KeyMaterial, comment: Text)
    requires |key.check| == 4
    ensures var padding := Padding(|Fields(key, comment)|);
            RestAt(Section(key, comment), 8) ==
            SshText(ED25519) + (SshString(key.publicKey) + (SshString(key.seed + key.publicKey) + (SshText(comment) + padding)))
  {
    hide SshString, SshText, ED25519, Padding;
    var padding := Padding(|Fields(key, comment)|);
    var rest := SshText(ED25519) + (SshString(key.publicKey) + (SshString(key.seed + key.publicKey) + (SshText(comment) + padding)));
    assert Section(key, comment) == key.check + key.check + rest;
    assert Section(key, comment)[8..] == rest;
  }

  lemma {:induction false} SectionParts(key: KeyMaterial, comment: Text)
    requires |Section(key, comment)| < TWO_TO_THE_32
    ensures |EncodeText(ED25519)| < TWO_TO_THE_32 && |key.publicKey| < TWO_TO_THE_32
    ensures |key.seed + key.publicKey| < TWO_TO_THE_32 && |EncodeText(comment)| < TWO_TO_THE_32
  {
    hide EncodeText;
  }

  /** Reading a written file gives the key line, its comment as its bytes decode. */
  lemma {:induction false} FileRoundTrip(key: KeyMaterial, comment: Text)
    requires |key.check| == 4 && |Section(key, comment)| < TWO_TO_THE_32
    ensures ReadPublicKey(File(key, comment)) == Some(Line(ED25519, PublicBlob(key), DecodeText(EncodeText(comment))))
  {
    hide Section, ReadComment, Line, TakeString, SshString, Uint32, ReadUint32, Ascii, DecodeText, EncodeText;
    var file := File(key, comment);
    var section := Section(key, comment);
    var blob := PublicBlob(key);
    var rest4 := SshString(section);
    var rest3 := SshString(blob) + rest4;
    var rest2 := SshText([]) + (Uint32(1) + rest3);
    var rest1 := SshText(NONE) + rest2;
    SectionIsLonger(key, comment);
    TypeIsPlain();
    NoText();
    assert file == MAGIC + (SshText(NONE) + rest1);
    assert file[|MAGIC|..] == SshText(NONE) + rest1;
    StringRoundTrip(EncodeText(NONE), rest1);
    StringRoundTrip(EncodeText(NONE), rest2);
    StringRoundTrip([], Uint32(1) + rest3);
    Uint32RoundTrip(1, rest3);
    assert (Uint32(1) + rest3)[4..] == rest3;
    StringRoundTrip(blob, rest4);
    StringRoundTrip(EncodeText(ED25519), SshString(key.publicKey));
    assert blob == SshText(ED25519) + SshString(key.publicKey);
    assert SshString(section) == SshString(section) + [];
    StringRoundTrip(section, []);
    CommentRoundTrip(key, comment);
  }

  lemma {:induction false} NoText()
    ensures EncodeText([]) == [] && |Uint32(1)| == 4
  {
  }

  lemma {:induction false} SectionIsLonger(key: KeyMaterial, comment: Text)
    ensures |PublicBlob(key)| <= |Section(key, comment)|
  {
    hide EncodeText;
  }

  lemma {:induction false} SpacesAppend(a: string, b: string)
    ensures WithoutSpaces(a + b) == WithoutSpaces(a) + WithoutSpaces(b)
  {
    if b == "" {
      assert a + b == a;
    } else {
      hide IsSpace;
      var n := |b| - 1;
      var all := a + b;
      var m := |all| - 1;
      SpacesAppend(a, b[..n]);
      assert all[..m] == a + b[..n] && all[m] == b[n];
      var last := if IsSpace(b[n]) then "" else [b[n]];
      assert WithoutSpaces(all) == WithoutSpaces(all[..m]) + last;
      assert WithoutSpaces(b) == WithoutSpaces(b[..n]) + last;
    }
  }

  predicate Solid(text: string) {
    forall i :: 0 <= i < |text| ==> !IsSpace(text[i])
  }

  lemma {:induction false} SolidStays(text: string)
    requires Solid(text)
    ensures WithoutSpaces(text) == text
  {
    if text != "" {
      var n := |text| - 1;
      SolidStays(text[..n]);
      assert text == text[..n] + [text[n]];
    }
  }

  /** Line breaks come off again. */
  lemma {:induction false} LinesJoin(text: string)
    requires Solid(text)
    ensures WithoutSpaces(Join(Lines(text))) == text
    decreases |text|
  {
    SolidStays(text);
    if |text| > PEM_COLUMNS {
      var head, tail := text[..PEM_COLUMNS], text[PEM_COLUMNS..];
      var body := Join(Lines(tail));
      LinesJoin(tail);
      SolidStays(head);
      JoinedLines(text);
      hide *;
      SpacesAppend(head, "\n" + body);
      SpacesAppend("\n", body);
      NewlineGoes();
      assert "" + tail == tail;
      assert text == head + tail;
    }
  }

  /** A long text's first line, then the lines of the rest. */
  lemma {:induction false} JoinedLines(text: string)
    requires |text| > PEM_COLUMNS
    ensures Join(Lines(text)) == text[..PEM_COLUMNS] + ("\n" + Join(Lines(text[PEM_COLUMNS..])))
  {
    var head, tail := text[..PEM_COLUMNS], text[PEM_COLUMNS..];
    var rest := Lines(tail);
    assert rest != [];
    assert Lines(text) == [head] + rest;
    assert ([head] + rest)[1..] == rest;
  }

  lemma {:induction false} NewlineGoes()
    ensures WithoutSpaces("\n") == ""
  {
    assert "\n"[..0] == "";
  }

  /** The armoured text between the marks: no dash in it. */
  lemma {:induction false} BodyHasNoDash(text: string)
    requires forall i :: 0 <= i < |text| ==> text[i] != '-'
    ensures forall i :: 0 <= i < |Join(Lines(text))| ==> Join(Lines(text))[i] != '-'
  {
    if |text| > PEM_COLUMNS {
      var head, tail := text[..PEM_COLUMNS], text[PEM_COLUMNS..];
      BodyHasNoDash(tail);
      JoinedLines(text);
    }
  }

  lemma {:induction false} Marks()
    ensures |PEM_BEGIN| == 35 && PEM_BEGIN[0] == '-' && PEM_BEGIN[5] == 'B' && forall i :: 5 <= i < 30 ==> PEM_BEGIN[i] != '-'
    ensures |PEM_END| == 33 && PEM_END[0] == '-' && PEM_END[5] == 'E' && forall i :: 0 <= i < 5 ==> PEM_END[i] == '-'
  {
    assert forall i :: 0 <= i < 5 ==> DASHES[i] == '-';
    forall i | 5 <= i < 30
      ensures PEM_BEGIN[i] != '-'
    {
      assert PEM_BEGIN[i] == BEGIN_LABEL[i - 5];
    }
  }

  lemma {:induction false} Differs(text: string, pattern: string, i: nat, j: nat)
    requires i + |pattern| <= |text| && j < |pattern| && text[i + j] != pattern[j]
    ensures !OccursAt(text, pattern, i)
  {
    assert text[i..i + |pattern|][j] == text[i + j];
  }

  /** The marks first occur where they were written. */
  lemma {:induction false} MarksAreFirst(before: string, body: string, after: string, pem: string)
    requires forall i :: 0 <= i < |before| ==> before[i] != '-'
    requires (forall i :: 0 <= i < |body| ==> body[i] != '-') && (body == "" || body[0] != 'E')
    requires pem == before + PEM_BEGIN + body + PEM_END + after
    ensures IndexOf(pem, PEM_BEGIN) == Some(|before|)
    ensures IndexOf(pem, PEM_END) == Some(|before| + |PEM_BEGIN| + |body|)
  {
    Marks();
    hide IndexOf, PEM_BEGIN, PEM_END;
    var b, k := |before|, |before| + |PEM_BEGIN| + |body|;
    assert pem[k..k + |PEM_END|] == PEM_END;
    assert pem[b..b + |PEM_BEGIN|] == PEM_BEGIN;
    assert OccursAt(pem, PEM_END, k) && OccursAt(pem, PEM_BEGIN, b);
    forall i | 0 <= i < b
      ensures !OccursAt(pem, PEM_BEGIN, i)
    {
      Differs(pem, PEM_BEGIN, i, 0);
    }
    forall i | 0 <= i < k
      ensures !OccursAt(pem, PEM_END, i)
    {
      Differs(pem, PEM_END, i, if b <= i < b + 5 then b + 5 - i else if b + 30 <= i < b + 35 then (if body == "" then 5 else b + 35 - i) else 0);
    }
  }

  /** What stands between the marks is read, whatever stands around them. */
  lemma {:induction false} UnwrapReads(before: string, body: string, after: string)
    requires forall i :: 0 <= i < |before| ==> before[i] != '-'
    requires (forall i :: 0 <= i < |body| ==> body[i] != '-') && (body == "" || body[0] != 'E')
    ensures UnwrapPem(before + PEM_BEGIN + body + PEM_END + after) == Decode(WithoutSpaces(body))
  {
    var pem := before + PEM_BEGIN + body + PEM_END + after;
    hide Decode, WithoutSpaces, IndexOf, PEM_BEGIN, PEM_END;
    MarksAreFirst(before, body, after, pem);
    Between(before, PEM_BEGIN, body, PEM_END, after);
  }

  lemma {:induction false} Between(a: string, b: string, c: string, d: string, e: string)
    ensures |a| + |b| + |c| <= |a + b + c + d + e|
    ensures (a + b + c + d + e)[|a| + |b|..|a| + |b| + |c|] == c
  {
  }

  lemma {:induction false} DigitsAreSolid(text: string)
    requires forall i :: 0 <= i < |text| ==> IsDigit(text[i]) || text[i] == '='
    ensures Solid(text)
  {
  }

  /** Unwrapping undoes wrapping, for all bytes. */
  lemma {:induction false} PemRoundTrip(bytes: seq<Byte>)
    ensures UnwrapPem(WrapPem(bytes)) == Some(bytes)
  {
    var text := Encode(bytes);
    var body := Join(Lines(text));
    EncodeChars(bytes);
    hide Encode, Lines, Join, WithoutSpaces, Decode, UnwrapPem, PEM_BEGIN, PEM_END;
    BodyHasNoDash(text);
    UnwrapReads("", "\n" + body + "\n", "\n");
    assert WrapPem(bytes) == "" + PEM_BEGIN + ("\n" + body + "\n") + PEM_END + "\n";
    SpacesAppend("\n" + body, "\n");
    SpacesAppend("\n", body);
    NewlineGoes();
    DigitsAreSolid(text);
    LinesJoin(text);
    assert WithoutSpaces("\n" + body + "\n") == text;
    DecodeEncode(bytes);
  }

  /** What is read back from a generated file: the key line, with the comment as its bytes decode. */
  lemma {:induction false} ReadBack(key: KeyMaterial, comment: Text)
    requires |key.check| == 4 && |Section(key, comment)| < TWO_TO_THE_32
    ensures SshPublicKeyFromPrivateKey(Generate(key, comment).privateKey) == Some(Line(ED25519, PublicBlob(key), DecodeText(EncodeText(comment))))
    ensures Generate(key, comment).publicKey == Line(ED25519, PublicBlob(key), comment)
  {
    hide Section, File, UnwrapPem, WrapPem, ReadPublicKey, Line, DecodeText, EncodeText, PublicBlob, ED25519, TWO_TO_THE_32;
    PemRoundTrip(File(key, comment));
    FileRoundTrip(key, comment);
  }

  /**
   * The public key line read back from a generated private key file is the generated one
   * exactly when the comment is well-formed text that begins with no byte order mark.
   */
  lemma {:induction false} KeyRoundTrip(key: KeyMaterial, comment: Text)
    requires |key.check| == 4 && |Section(key, comment)| < TWO_TO_THE_32
    ensures var pair := Generate(key, comment);
            SshPublicKeyFromPrivateKey(pair.privateKey) == Some(pair.publicKey) <==> WellFormed(comment) && !StartsMarked(comment)
  {
    hide *;
    ReadBack(key, comment);
    LineTellsComment(PublicBlob(key), DecodeText(EncodeText(comment)), comment);
    TextRoundTrip(comment);
  }

  // ---- What is written ----

  /** Wire strings one after the other, and what comes after them. */
  ghost predicate Holds(bytes: seq<Byte>, parts: seq<seq<Byte>>, end: seq<Byte>) {
    if parts == [] then bytes == end
    else TakeString(bytes).Some? && TakeString(bytes).value.0 == parts[0] && Holds(TakeString(bytes).value.1, parts[1..], end)
  }

  lemma {:induction false} HoldsNext(part: seq<Byte>, rest: seq<Byte>, parts: seq<seq<Byte>>, end: seq<Byte>)
    requires |part| < TWO_TO_THE_32 && Holds(rest, parts, end)
    ensures Holds(SshString(part) + rest, [part] + parts, end)
  {
    StringRoundTrip(part, rest);
    hide TakeString, SshString;
    assert ([part] + parts)[1..] == parts;
  }

  /** Some public key bytes: the key type and the key. */
  ghost predicate BlobOf(blob: seq<Byte>, key: KeyMaterial) {
    Holds(blob, [EncodeText(ED25519), key.publicKey], [])
  }

  /** One check value twice, the key type, the public key, the secret, the comment, and 1, 2, 3, … up to a multiple of 8. */
  ghost predicate SectionOf(section: seq<Byte>, key: KeyMaterial, comment: Text, padding: seq<Byte>) {
    && 8 <= |section| && section[..4] == section[4..8] == key.check
    && Holds(section[8..], [EncodeText(ED25519), key.publicKey, key.seed + key.publicKey, EncodeText(comment)], padding)
    && |section| % 8 == 0 && |padding| < 8 && forall i :: 0 <= i < |padding| ==> padding[i] == i + 1
  }

  /** No cipher, no key derivation, one key: its public part and its section, and nothing more. */
  ghost predicate FileOf(file: seq<Byte>, blob: seq<Byte>, section: seq<Byte>, keys: seq<Byte>) {
    && MAGIC <= file && Holds(file[|MAGIC|..], [EncodeText(NONE), EncodeText(NONE), []], keys)
    && ReadUint32(keys) == Some(1) && Holds(keys[4..], [blob, section], [])
  }

  /** Full lines, and a last one that is not empty. */
  predicate Folded(lines: seq<string>) {
    && (forall i :: 0 <= i < |lines| - 1 ==> |lines[i]| == PEM_COLUMNS)
    && (lines != [] ==> 1 <= |lines[|lines| - 1]| <= PEM_COLUMNS)
  }

  /** A file's base64, folded between the two marks. */
  predicate Armours(pem: string, lines: seq<string>, file: seq<Byte>) {
    && pem == PEM_BEGIN + "\n" + Join(lines) + "\n" + PEM_END + "\n"
    && Folded(lines) && Decode(WithoutSpaces(Join(lines))) == Some(file)
  }

  lemma {:induction false} LinesFold(text: string)
    ensures Folded(Lines(text))
    decreases |text|
  {
    if |text| > PEM_COLUMNS {
      var rest := Lines(text[PEM_COLUMNS..]);
      LinesFold(text[PEM_COLUMNS..]);
      assert rest != [] && Lines(text) == [text[..PEM_COLUMNS]] + rest;
    }
  }

  predicate Spells(codes: Text, text: string) {
    |codes| == |text| && forall i :: 0 <= i < |text| ==> codes[i] == text[i] as int
  }

  /** The key type, the blob as base64 and, when there is one, the comment: a space between any two. */
  ghost predicate LineOf(line: Text, blob: seq<Byte>, comment: Text) {
    exists codes, text ::
      && Spells(codes, text) && Decode(text) == Some(blob)
      && line == ED25519 + [32] + codes + if comment == [] then [] else [32] + comment
  }

  lemma {:induction false} SectionHolds(key: KeyMaterial, comment: Text)
    requires |key.check| == 4 && |Section(key, comment)| < TWO_TO_THE_32
    ensures SectionOf(Section(key, comment), key, comment, Padding(|Fields(key, comment)|))
  {
    hide SshString, SshText, EncodeText, ED25519, TWO_TO_THE_32, Holds;
    var section := Section(key, comment);
    SectionShape(key, comment);
    SectionParts(key, comment);
    FieldsHold(key, comment, Padding(|Fields(key, comment)|));
    assert section[..4] == key.check && section[4..8] == key.check;
  }

  lemma {:induction false} BlobHolds(key: KeyMaterial)
    requires |EncodeText(ED25519)| < TWO_TO_THE_32 && |key.publicKey| < TWO_TO_THE_32
    ensures BlobOf(PublicBlob(key), key)
  {
    hide SshString, EncodeText, ED25519, TWO_TO_THE_32, TakeString;
    var kind, public := EncodeText(ED25519), key.publicKey;
    HoldsNext(public, [], [], []);
    assert SshString(public) + [] == SshString(public) && [public] + [] == [public];
    HoldsNext(kind, SshString(public), [public], []);
  }

  /** What comes after the count of keys. */
  function KeysOf(blob: seq<Byte>, section: seq<Byte>): seq<Byte> {
    Uint32(1) + (SshString(blob) + SshString(section))
  }

  lemma {:induction false} FileHolds(key: KeyMaterial, comment: Text)
    requires |key.check| == 4 && |Section(key, comment)| < TWO_TO_THE_32
    ensures FileOf(File(key, comment), PublicBlob(key), Section(key, comment), KeysOf(PublicBlob(key), Section(key, comment)))
  {
    hide SshString, EncodeText, TakeString, Uint32, ReadUint32, Section, PublicBlob, ED25519, NONE, MAGIC, TWO_TO_THE_32;
    var blob, section := PublicBlob(key), Section(key, comment);
    var keys, none := KeysOf(blob, section), EncodeText(NONE);
    SectionIsLonger(key, comment);
    TypeIsPlain();
    NoText();
    SmallNumbers();
    HoldsNext([], keys, [], keys);
    HoldsNext(none, SshString([]) + keys, [[]], keys);
    HoldsNext(none, SshString(none) + (SshString([]) + keys), [none, []], keys);
    assert [none] + [[]] == [none, []] && [none] + [none, []] == [none, none, []];
    assert File(key, comment)[|MAGIC|..] == SshString(none) + (SshString(none) + (SshString([]) + keys));
    HoldsNext(section, [], [], []);
    assert SshString(section) + [] == SshString(section) && [section] + [] == [section];
    HoldsNext(blob, SshString(section), [section], []);
    Uint32RoundTrip(1, SshString(blob) + SshString(section));
    assert keys[4..] == SshString(blob) + SshString(section);
  }

  lemma {:induction false} SmallNumbers()
    ensures 1 < TWO_TO_THE_32
  {
  }

  lemma {:induction false} LineHolds(blob: seq<Byte>, comment: Text)
    ensures LineOf(Line(ED25519, blob, comment), blob, comment)
  {
    hide ED25519, Encode, Decode;
    DecodeEncode(blob);
    EncodeIsAscii(blob);
    assert SPACE == [32];
    assert Spells(Ascii(Encode(blob)), Encode(blob));
  }

  /** What a generated pair is, byte by byte. */
  lemma {:induction false} GeneratedMeans(key: KeyMaterial, comment: Text)
    requires |key.check| == 4 && |Section(key, comment)| < TWO_TO_THE_32
    ensures var pair := Generate(key, comment);
            var blob, section, file := PublicBlob(key), Section(key, comment), File(key, comment);
            && LineOf(pair.publicKey, blob, comment) && BlobOf(blob, key)
            && Armours(pair.privateKey, Lines(Encode(file)), file)
            && FileOf(file, blob, section, KeysOf(blob, section))
            && SectionOf(section, key, comment, Padding(|Fields(key, comment)|))
  {
    hide *;
    ReadBack(key, comment);
    LineHolds(PublicBlob(key), comment);
    SectionParts(key, comment);
    BlobHolds(key);
    FileHolds(key, comment);
    SectionHolds(key, comment);
    ArmourHolds(key, comment);
  }

  lemma {:induction false} ArmourHolds(key: KeyMaterial, comment: Text)
    ensures Armours(Generate(key, comment).privateKey, Lines(Encode(File(key, comment))), File(key, comment))
  {
    var file := File(key, comment);
    var text := Encode(file);
    hide File, Encode, Decode, Lines, Join, WithoutSpaces, Folded, PEM_BEGIN, PEM_END, Line, PublicBlob;
    EncodeChars(file);
    DigitsAreSolid(text);
    LinesJoin(text);
    LinesFold(text);
    DecodeEncode(file);
  }

  lemma {:induction false} FieldsHold(key: KeyMaterial, comment: Text, end: seq<Byte>)
    requires |EncodeText(ED25519)| < TWO_TO_THE_32 && |key.publicKey| < TWO_TO_THE_32
    requires |key.seed + key.publicKey| < TWO_TO_THE_32 && |EncodeText(comment)| < TWO_TO_THE_32
    ensures Holds(SshText(ED25519) + (SshString(key.publicKey) + (SshString(key.seed + key.publicKey) + (SshText(comment) + end))),
                  [EncodeText(ED25519), key.publicKey, key.seed + key.publicKey, EncodeText(comment)], end)
  {
    hide SshString, EncodeText, ED25519, TWO_TO_THE_32, TakeString;
    var kind, secret, text := EncodeText(ED25519), key.seed + key.publicKey, EncodeText(comment);
    HoldsNext(text, end, [], end);
    HoldsNext(secret, SshString(text) + end, [text], end);
    HoldsNext(key.publicKey, SshString(secret) + (SshString(text) + end), [secret, text], end);
    assert [key.publicKey] + [secret, text] == [key.publicKey, secret, text];
    HoldsNext(kind, SshString(key.publicKey) + (SshString(secret) + (SshString(text) + end)), [key.publicKey, secret, text], end);
    assert [kind] + [key.publicKey, secret, text] == [kind, key.publicKey, secret, text];
  }

  lemma {:induction false} LineTellsComment(blob: seq<Byte>, read: Text, comment: Text)
    ensures Line(ED25519, blob, read) == Line(ED25519, blob, comment) <==> read == comment
  {
    var line := Line(ED25519, blob, []);
    hide Ascii, Encode, ED25519;
    assert |SPACE| == 1;
    if read != [] && comment != [] && Line(ED25519, blob, read) == Line(ED25519, blob, comment) {
      assert (line + SPACE + read)[|line + SPACE|..] == read;
      assert (line + SPACE + comment)[|line + SPACE|..] == comment;
    }
  }

  const MARKED: Text := [MARK, 'a' as int]
  const BROKEN: Text := [0xD800]

  /** A comment of a byte order mark and one letter: the line comes back without the mark. */
  lemma {:induction false} MarkedCommentChanges(key: KeyMaterial)
    requires |key.check| == 4 && |key.seed| == 32 && |key.publicKey| == 32
    ensures var read := SshPublicKeyFromPrivateKey(Generate(key, MARKED).privateKey);
            read == Some(Line(ED25519, PublicBlob(key), ['a' as int])) && read != Some(Generate(key, MARKED).publicKey)
  {
    hide *;
    MarkedText();
    SmallSection(key, MARKED);
    ReadBack(key, MARKED);
    KeyRoundTrip(key, MARKED);
  }

  lemma {:induction false} MarkedText()
    ensures DecodeText(EncodeText(MARKED)) == ['a' as int] && StartsMarked(MARKED) && |MARKED| == 2
  {
    assert MARKED[1..] == ['a' as int] && WellFormed(['a' as int]);
    DecodeEncodeText(MARKED);
    ScrubbedExactly(['a' as int]);
  }

  /** A comment of one unpaired surrogate: the line comes back with its replacement. */
  lemma {:induction false} BrokenCommentChanges(key: KeyMaterial)
    requires |key.check| == 4 && |key.seed| == 32 && |key.publicKey| == 32
    ensures var read := SshPublicKeyFromPrivateKey(Generate(key, BROKEN).privateKey);
            read == Some(Line(ED25519, PublicBlob(key), [REPLACEMENT])) && read != Some(Generate(key, BROKEN).publicKey)
  {
    hide *;
    BrokenText();
    SmallSection(key, BROKEN);
    ReadBack(key, BROKEN);
    KeyRoundTrip(key, BROKEN);
  }

  lemma {:induction false} BrokenText()
    ensures DecodeText(EncodeText(BROKEN)) == [REPLACEMENT] && !WellFormed(BROKEN) && |BROKEN| == 1
  {
    assert !PairedAt(BROKEN, 0);
    DecodeEncodeText(BROKEN);
    assert Scrubbed(BROKEN) == [REPLACEMENT] + Scrubbed(BROKEN[1..]);
  }

  lemma {:induction false} SmallSection(key: KeyMaterial, comment: Text)
    requires |key.check| == 4 && |key.seed| == 32 && |key.publicKey| == 32 && |comment| <= 2
    ensures |Section(key, comment)| < TWO_TO_THE_32
  {
    EncodedLength(comment);
    EncodedLength(ED25519);
    hide EncodeText;
  }
}
