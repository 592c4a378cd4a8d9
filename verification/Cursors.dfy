/** The text of a snapshot page cursor (platform_read_authority.go): a JSON object in unpadded URL base64 after "page_"
    (section 5 of RFC 4648). */
module Cursors {
  import opened Prelude

  type Byte = b: int | 0 <= b < 256

  // ----- base64 -----

  type Sextet = n: int | 0 <= n < 64

  function Digit(n: Sextet): char {
    if n < 26 then 'A' + n as char
    else if n < 52 then 'a' + (n - 26) as char
    else if n < 62 then '0' + (n - 52) as char
    else if n == 62 then '-' else '_'
  }

  function Value(c: char): Option<Sextet> {
    if 'A' <= c <= 'Z' then Some(c as int - 'A' as int)
    else if 'a' <= c <= 'z' then Some(c as int - 'a' as int + 26)
    else if '0' <= c <= '9' then Some(c as int - '0' as int + 52)
    else if c == '-' then Some(62)
    else if c == '_' then Some(63)
    else None
  }

  lemma DigitValue(n: Sextet)
    ensures Value(Digit(n)) == Some(n)
  {
  }

  predicate AllDigits(s: string) {
    forall i :: 0 <= i < |s| ==> Value(s[i]).Some?
  }

  /** Three bytes as four sextets. */
  function S0(x: Byte): Sextet { x / 4 }
  function S1(x: Byte, y: Byte): Sextet { x % 4 * 16 + y / 16 }
  function S2(y: Byte, z: Byte): Sextet { y % 16 * 4 + z / 64 }
  function S3(z: Byte): Sextet { z % 64 }

  /** And back. */
  function B0(a: Sextet, b: Sextet): Byte { a * 4 + b / 16 }
  function B1(b: Sextet, c: Sextet): Byte { b % 16 * 16 + c / 4 }
  function B2(c: Sextet, d: Sextet): Byte { c % 4 * 64 + d }

  lemma Regroup(x: Byte, y: Byte, z: Byte)
    ensures B0(S0(x), S1(x, y)) == x && B1(S1(x, y), S2(y, z)) == y && B2(S2(y, z), S3(z)) == z
  {
  }

  /** RawURLEncoding.EncodeToString */
  function Encode64(bs: seq<Byte>): string {
    if bs == [] then ""
    else if |bs| == 1 then [Digit(S0(bs[0])), Digit(S1(bs[0], 0))]
    else if |bs| == 2 then [Digit(S0(bs[0])), Digit(S1(bs[0], bs[1])), Digit(S2(bs[1], 0))]
    else [Digit(S0(bs[0])), Digit(S1(bs[0], bs[1])), Digit(S2(bs[1], bs[2])), Digit(S3(bs[2]))] + Encode64(bs[3..])
  }

  /** The decoder on digits alone; the unused bits of the last digit are ignored, as the lenient decoder does. */
  function DecodeDigits(s: string): Option<seq<Byte>>
    requires AllDigits(s)
  {
    if s == [] then Some([])
    else if |s| == 1 then None
    else
      var a, b := Value(s[0]).value, Value(s[1]).value;
      if |s| == 2 then Some([B0(a, b)])
      else
        var c := Value(s[2]).value;
        if |s| == 3 then Some([B0(a, b), B1(b, c)])
        else
          match DecodeDigits(s[4..])
          case None => None
          case Some(rest) => Some([B0(a, b), B1(b, c), B2(c, Value(s[3]).value)] + rest)
  }

  function WithoutBreaks(s: string): string {
    if s == [] then []
    else (if s[0] == '\r' || s[0] == '\n' then [] else [s[0]]) + WithoutBreaks(s[1..])
  }

  /** RawURLEncoding.DecodeString, which skips line breaks. */
  function Decode64(s: string): Option<seq<Byte>> {
    var digits := WithoutBreaks(s);
    if AllDigits(digits) then DecodeDigits(digits) else None
  }

  lemma {:induction false} NoBreaks(s: string)
    requires AllDigits(s)
    ensures WithoutBreaks(s) == s
  {
    if s != [] { NoBreaks(s[1..]); }
  }

  function Group(x: Byte, y: Byte, z: Byte): string {
    [Digit(S0(x)), Digit(S1(x, y)), Digit(S2(y, z)), Digit(S3(z))]
  }

  lemma GroupDecodes(x: Byte, y: Byte, z: Byte, rest: string)
    requires AllDigits(rest) && DecodeDigits(rest).Some?
    ensures AllDigits(Group(x, y, z) + rest) && DecodeDigits(Group(x, y, z) + rest) == Some([x, y, z] + DecodeDigits(rest).value)
  {
    hide Digit, Value, S0, S1, S2, S3, B0, B1, B2;
    Regroup(x, y, z);
    DigitValue(S0(x));
    DigitValue(S1(x, y));
    DigitValue(S2(y, z));
    DigitValue(S3(z));
    assert (Group(x, y, z) + rest)[4..] == rest;
  }

  lemma TailDecodes(bs: seq<Byte>)
    requires |bs| < 3
    ensures AllDigits(Encode64(bs)) && DecodeDigits(Encode64(bs)) == Some(bs)
  {
    hide Digit, Value, S0, S1, S2, S3, B0, B1, B2;
    if bs != [] {
      var y: Byte := if |bs| > 1 then bs[1] else 0;
      Regroup(bs[0], y, 0);
      DigitValue(S0(bs[0]));
      DigitValue(S1(bs[0], y));
      DigitValue(S2(y, 0));
      assert bs == if |bs| == 1 then [bs[0]] else [bs[0], y];
    }
  }

  lemma {:induction false} DigitsRoundTrip(bs: seq<Byte>)
    ensures AllDigits(Encode64(bs)) && DecodeDigits(Encode64(bs)) == Some(bs)
    decreases |bs|
  {
    hide Digit, Value, S0, S1, S2, S3, AllDigits, DecodeDigits;
    if |bs| < 3 {
      TailDecodes(bs);
    } else {
      DigitsRoundTrip(bs[3..]);
      GroupDecodes(bs[0], bs[1], bs[2], Encode64(bs[3..]));
      assert Encode64(bs) == Group(bs[0], bs[1], bs[2]) + Encode64(bs[3..]);
      assert bs == [bs[0], bs[1], bs[2]] + bs[3..];
    }
  }

  /** Base64 decoding undoes encoding. */
  lemma Base64RoundTrip(bs: seq<Byte>)
    ensures Decode64(Encode64(bs)) == Some(bs)
  {
    DigitsRoundTrip(bs);
    NoBreaks(Encode64(bs));
  }

  // ----- text as bytes -----

  /** Letters, digits, "_" and "-": all a cursor's fields are made of, so JSON escapes nothing and every character is one byte. */
  predicate Plain(s: string) {
    AllDigits(s)
  }

  function Bytes(s: string): seq<Byte> {
    seq(|s|, i requires 0 <= i < |s| => (s[i] as int % 256) as Byte)
  }

  function Text(bs: seq<Byte>): string {
    seq(|bs|, i requires 0 <= i < |bs| => bs[i] as char)
  }

  predicate Ascii(s: string) {
    forall i :: 0 <= i < |s| ==> s[i] as int < 128
  }

  lemma TextRoundTrip(s: string)
    requires Ascii(s)
    ensures Text(Bytes(s)) == s
  {
  }

  // ----- decimals -----

  function Decimal(n: nat): string {
    (if n < 10 then "" else Decimal(n / 10)) + ['0' + (n % 10) as char]
  }

  predicate IsNumeral(c: char) {
    '0' <= c <= '9'
  }

  function Number(s: string): nat
    requires forall i :: 0 <= i < |s| ==> IsNumeral(s[i])
  {
    if s == [] then 0
    else
      assert IsNumeral(s[|s| - 1]);
      Number(s[..|s| - 1]) * 10 + (s[|s| - 1] as int - '0' as int)
  }

  /** A JSON integer without sign: no leading zero. */
  predicate IsDecimal(s: string) {
    s != [] && (forall i :: 0 <= i < |s| ==> IsNumeral(s[i])) && (|s| > 1 ==> s[0] != '0')
  }

  lemma {:induction false} DecimalRoundTrip(n: nat)
    ensures IsDecimal(Decimal(n)) && Number(Decimal(n)) == n
    ensures n > 0 ==> Decimal(n)[0] != '0'
  {
    if n >= 10 {
      DecimalRoundTrip(n / 10);
      assert Decimal(n)[..|Decimal(n)| - 1] == Decimal(n / 10);
    } else {
      assert Decimal(n)[..0] == "";
    }
  }

  // ----- the object -----

  datatype PageFields = PageFields(snapshot: string, consumer: string, kind: string, ordinal: nat)

  const OPENING := "{\"snapshot_id\":\""
  const TO_CONSUMER := "\",\"consumer\":\""
  const TO_KIND := "\",\"entity_kind\":\""
  const TO_ORDINAL := "\",\"ordinal\":"

  /** json.Marshal of the cursor's struct, for plain fields. */
  function Marshal(f: PageFields): string {
    OPENING + (f.snapshot + (TO_CONSUMER + (f.consumer + (TO_KIND + (f.kind + (TO_ORDINAL + (Decimal(f.ordinal) + "}")))))))
  }

  function After(prefix: string, text: string): Option<string> {
    if prefix <= text then Some(text[|prefix|..]) else None
  }

  /** A text up to its first quote, and the rest from there. */
  function Quoted(text: string): (string, string) {
    if text == [] || text[0] == '"' then ("", text)
    else
      var (value, rest) := Quoted(text[1..]);
      ([text[0]] + value, rest)
  }

  /** Reads the spelling `Marshal` writes. */
  function Unmarshal(text: string): Option<PageFields> {
    match After(OPENING, text)
    case None => None
    case Some(t0) =>
      var (snapshot, r0) := Quoted(t0);
      match After(TO_CONSUMER, r0)
      case None => None
      case Some(t1) =>
        var (consumer, r1) := Quoted(t1);
        match After(TO_KIND, r1)
        case None => None
        case Some(t2) =>
          var (kind, r2) := Quoted(t2);
          match After(TO_ORDINAL, r2)
          case None => None
          case Some(t3) =>
            if t3 != [] && t3[|t3| - 1] == '}' && IsDecimal(t3[..|t3| - 1]) then
              Some(PageFields(snapshot, consumer, kind, Number(t3[..|t3| - 1])))
            else None
  }

  predicate PlainFields(f: PageFields) {
    Plain(f.snapshot) && Plain(f.consumer) && Plain(f.kind)
  }

  lemma AfterPrefix(prefix: string, text: string)
    ensures After(prefix, prefix + text) == Some(text)
  {
    assert (prefix + text)[|prefix|..] == text;
  }

  lemma {:induction false} QuotedPlain(value: string, rest: string)
    requires Plain(value) && rest != [] && rest[0] == '"'
    ensures Quoted(value + rest) == (value, rest)
    decreases |value|
  {
    if value == [] {
      assert value + rest == rest;
    } else {
      assert Value(value[0]).Some?;
      QuotedPlain(value[1..], rest);
      assert (value + rest)[1..] == value[1..] + rest;
      assert [value[0]] + value[1..] == value;
    }
  }

  /** Reading undoes writing. */
  lemma JsonRoundTrip(f: PageFields)
    requires PlainFields(f)
    ensures Unmarshal(Marshal(f)) == Some(f)
  {
    hide After, Quoted, Decimal, Number, IsDecimal, Plain;
    var t3 := Decimal(f.ordinal) + "}";
    var r2 := TO_ORDINAL + t3;
    var t2 := f.kind + r2;
    var r1 := TO_KIND + t2;
    var t1 := f.consumer + r1;
    var r0 := TO_CONSUMER + t1;
    var t0 := f.snapshot + r0;
    AfterPrefix(OPENING, t0);
    QuotedPlain(f.snapshot, r0);
    AfterPrefix(TO_CONSUMER, t1);
    QuotedPlain(f.consumer, r1);
    AfterPrefix(TO_KIND, t2);
    QuotedPlain(f.kind, r2);
    AfterPrefix(TO_ORDINAL, t3);
    DecimalRoundTrip(f.ordinal);
    assert t3[..|t3| - 1] == Decimal(f.ordinal);
  }

  lemma {:induction false} NumberRoundTrip(s: string)
    requires IsDecimal(s)
    ensures Decimal(Number(s)) == s && (s[0] != '0' ==> Number(s) > 0)
  {
    var n := |s| - 1;
    assert IsNumeral(s[n]) && s == s[..n] + [s[n]];
    if n > 0 {
      NumberRoundTrip(s[..n]);
      assert Number(s) / 10 == Number(s[..n]);
    } else {
      assert s[..n] == [];
    }
  }

  lemma Prepended(text: string, value: string, rest: string)
    requires text != [] && value + rest == text[1..]
    ensures ([text[0]] + value) + rest == text
  {
    assert [text[0]] + (value + rest) == text;
  }

  lemma {:induction false} QuotedSplits(text: string)
    ensures Quoted(text).0 + Quoted(text).1 == text
    decreases |text|
  {
    if text != [] && text[0] != '"' {
      QuotedSplits(text[1..]);
      Prepended(text, Quoted(text[1..]).0, Quoted(text[1..]).1);
    }
  }

  /** And only what was written is read. */
  lemma JsonExact(text: string)
    requires Unmarshal(text).Some?
    ensures Marshal(Unmarshal(text).value) == text
  {
    hide Quoted, Decimal, Number, IsDecimal;
    var t0 := After(OPENING, text).value;
    var (snapshot, r0) := Quoted(t0);
    var t1 := After(TO_CONSUMER, r0).value;
    var (consumer, r1) := Quoted(t1);
    var t2 := After(TO_KIND, r1).value;
    var (kind, r2) := Quoted(t2);
    var t3 := After(TO_ORDINAL, r2).value;
    QuotedSplits(t0);
    QuotedSplits(t1);
    QuotedSplits(t2);
    NumberRoundTrip(t3[..|t3| - 1]);
    assert text == OPENING + t0 && r0 == TO_CONSUMER + t1 && r1 == TO_KIND + t2 && r2 == TO_ORDINAL + t3;
    assert t3 == t3[..|t3| - 1] + "}";
  }

  lemma MarshalAscii(f: PageFields)
    requires PlainFields(f)
    ensures Ascii(Marshal(f))
  {
    DecimalRoundTrip(f.ordinal);
    hide Decimal, Number;
    assert Ascii(f.snapshot) && Ascii(f.consumer) && Ascii(f.kind) && Ascii(Decimal(f.ordinal));
    assert Ascii(OPENING) && Ascii(TO_CONSUMER) && Ascii(TO_KIND) && Ascii(TO_ORDINAL) && Ascii("}");
  }

  // ----- cursors -----

  const PREFIX := "page_"

  function Write(f: PageFields): string {
    PREFIX + Encode64(Bytes(Marshal(f)))
  }

  function Read(text: string): Option<PageFields> {
    match After(PREFIX, text)
    case None => None
    case Some(encoded) =>
      match Decode64(encoded)
      case None => None
      case Some(bs) => Unmarshal(Text(bs))
  }

  /** A cursor written for plain fields reads back as them, and is not blank. */
  lemma CursorRoundTrip(f: PageFields)
    requires PlainFields(f)
    ensures Read(Write(f)) == Some(f) && Trim(Write(f)) != ""
  {
    hide Marshal, Unmarshal, Encode64, Decode64, Bytes, Text, PlainFields;
    AfterPrefix(PREFIX, Encode64(Bytes(Marshal(f))));
    Base64RoundTrip(Bytes(Marshal(f)));
    MarshalAscii(f);
    TextRoundTrip(Marshal(f));
    JsonRoundTrip(f);
    assert Write(f)[0] == 'p';
    TrimRightShape(Write(f));
  }

  /** So different positions have different cursors. */
  lemma CursorsDiffer(f: PageFields, g: PageFields)
    requires PlainFields(f) && PlainFields(g) && f != g
    ensures Write(f) != Write(g)
  {
    hide Write, Read, PlainFields;
    CursorRoundTrip(f);
    CursorRoundTrip(g);
  }
}
