/**
 The percent codec of request paths (section 2.1 of RFC 3986) and the splitting
 and joining of paths it works on.
 */
module UriCodec {
  import opened Basics
  import opened Utf8Text

  const SLASH: Byte := 47
  const PERCENT: Byte := 37

  // ----- splitting and joining

  function Split(s: Text): (parts: seq<Text>)
    ensures parts != []
  {
    if s == [] then [[]]
    else
      var rest := Split(s[1..]);
      if s[0] == SLASH then [[]] + rest else [[s[0]] + rest[0]] + rest[1..]
  }

  function Join(parts: seq<Text>): Text {
    if parts == [] then []
    else if |parts| == 1 then parts[0]
    else parts[0] + [SLASH] + Join(parts[1..])
  }

  predicate NoSlash(parts: seq<Text>) {
    forall i :: 0 <= i < |parts| ==> SLASH !in parts[i]
  }

  lemma {:induction false} SplitPart(a: Text)
    requires SLASH !in a
    ensures Split(a) == [a]
  {
    if a != [] {
      SplitPart(a[1..]);
      assert [a[0]] + a[1..] == a;
    }
  }

  lemma {:induction false} SplitHead(a: Text, b: Text)
    requires SLASH !in a
    ensures Split(a + [SLASH] + b) == [a] + Split(b)
  {
    var s := a + [SLASH] + b;
    if a == [] {
      assert s[1..] == b;
    } else {
      SplitHead(a[1..], b);
      assert s[1..] == a[1..] + [SLASH] + b;
      assert [a[0]] + a[1..] == a;
    }
  }

  /** Joining parts and splitting again gives the parts back. */
  lemma {:induction false} SplitJoin(parts: seq<Text>)
    requires parts != [] && NoSlash(parts)
    ensures Split(Join(parts)) == parts
    decreases |parts|
  {
    if |parts| == 1 {
      SplitPart(parts[0]);
    } else {
      SplitJoin(parts[1..]);
      SplitHead(parts[0], Join(parts[1..]));
    }
  }

  /** And the other way round. */
  lemma {:induction false} JoinSplit(s: Text)
    ensures Join(Split(s)) == s && NoSlash(Split(s))
  {
    if s != [] {
      JoinSplit(s[1..]);
      var rest := Split(s[1..]);
      var parts := Split(s);
      if s[0] == SLASH {
        assert parts[1..] == rest;
        assert Join(parts) == [] + [SLASH] + s[1..];
      } else {
        assert parts[1..] == rest[1..];
        if |rest| > 1 {
          assert Join(rest) == rest[0] + [SLASH] + Join(rest[1..]);
        }
        assert Join(parts) == [s[0]] + s[1..];
      }
    }
  }

  // ----- percent encoding

  predicate IsUnreserved(b: Byte) {
    || 48 <= b <= 57 || 65 <= b <= 90 || 97 <= b <= 122
    || b == 45 || b == 46 || b == 95 || b == 126
  }

  function HexDigit(d: nat): Byte
    requires d < 16
  {
    if d < 10 then 48 + d else 55 + d
  }

  function HexValue(b: Byte): Option<nat> {
    if 48 <= b <= 57 then Some(b - 48)
    else if 65 <= b <= 70 then Some(b - 55)
    else if 97 <= b <= 102 then Some(b - 87)
    else None
  }

  function EncodeByte(b: Byte): Text {
    if IsUnreserved(b) then [b] else [PERCENT, HexDigit(b / 16), HexDigit(b % 16)]
  }

  function EncodePart(s: Text): Text {
    if s == [] then [] else EncodeByte(s[0]) + EncodePart(s[1..])
  }

  function EncodeParts(parts: seq<Text>): seq<Text> {
    seq(|parts|, i requires 0 <= i < |parts| => EncodePart(parts[i]))
  }

  /** `encode_uri`: every part on its own, the slashes kept. */
  function EncodeUri(s: Text): Text {
    Join(EncodeParts(Split(s)))
  }

  predicate IsEscape(s: Text) {
    |s| >= 3 && s[0] == PERCENT && HexValue(s[1]).Some? && HexValue(s[2]).Some?
  }

  function PercentDecode(s: Text): Text {
    if s == [] then []
    else if IsEscape(s) then [16 * HexValue(s[1]).value + HexValue(s[2]).value] + PercentDecode(s[3..])
    else [s[0]] + PercentDecode(s[1..])
  }

  /** `decode_uri`: fails only when the bytes are not UTF-8. */
  function DecodeUri(s: Text): Option<Text> {
    var decoded := PercentDecode(s);
    if Utf8(decoded) then Some(decoded) else None
  }

  // ----- what is written and what is read

  predicate IsBetween(b: Byte, low: char, high: char) {
    low as int <= b <= high as int
  }

  /** Letters, digits and four marks are left as they are; every other byte becomes
      a percent sign and two digits, capital where they are letters. */
  lemma EncodedByte(b: Byte)
    ensures
      if || IsBetween(b, 'A', 'Z') || IsBetween(b, 'a', 'z') || IsBetween(b, '0', '9')
         || b == '-' as int || b == '.' as int || b == '_' as int || b == '~' as int
      then EncodeByte(b) == [b]
      else
        && |EncodeByte(b)| == 3 && EncodeByte(b)[0] == '%' as int
        && HexValue(EncodeByte(b)[1]) == Some(b / 16) && HexValue(EncodeByte(b)[2]) == Some(b % 16)
        && forall i :: 1 <= i < 3 ==> IsBetween(EncodeByte(b)[i], '0', '9') || IsBetween(EncodeByte(b)[i], 'A', 'F')
  {
  }

  /** Exactly the digits and the first six letters, of either case, are hexadecimal digits. */
  lemma HexDigits(b: Byte)
    ensures
      if IsBetween(b, '0', '9') then HexValue(b) == Some(b - '0' as int)
      else if IsBetween(b, 'A', 'F') then HexValue(b) == Some(10 + b - 'A' as int)
      else if IsBetween(b, 'a', 'f') then HexValue(b) == Some(10 + b - 'a' as int)
      else HexValue(b) == None
  {
  }

  /** A percent sign and two hexadecimal digits are read as one byte; a percent sign
      with anything else after it stands for itself, like every other byte. */
  lemma DecodedByte(s: Text)
    requires s != []
    ensures
      if s[0] == '%' as int && |s| >= 3 && HexValue(s[1]).Some? && HexValue(s[2]).Some?
      then PercentDecode(s) == [16 * HexValue(s[1]).value + HexValue(s[2]).value] + PercentDecode(s[3..])
      else PercentDecode(s) == [s[0]] + PercentDecode(s[1..])
  {
  }

  // ----- the round trip

  lemma EncodeFirst(s: Text)
    requires s != []
    ensures EncodeUri(s) == (if s[0] == SLASH then [SLASH] else EncodeByte(s[0])) + EncodeUri(s[1..])
  {
    var rest := Split(s[1..]);
    var encoded := EncodeParts(rest);
    var all := EncodeParts(Split(s));
    if s[0] == SLASH {
      assert all[1..] == encoded && all[0] == [];
    } else {
      assert all[1..] == encoded[1..];
      assert ([s[0]] + rest[0])[1..] == rest[0];
      assert all[0] == EncodeByte(s[0]) + encoded[0];
      if |rest| > 1 {
        assert Join(encoded) == encoded[0] + [SLASH] + Join(encoded[1..]);
        assert Join(all) == all[0] + [SLASH] + Join(all[1..]);
      }
    }
  }

  lemma DecodeFirst(b: Byte, rest: Text)
    ensures PercentDecode(EncodeByte(b) + rest) == [b] + PercentDecode(rest)
    ensures PercentDecode([SLASH] + rest) == [SLASH] + PercentDecode(rest)
  {
    var s := EncodeByte(b) + rest;
    if IsUnreserved(b) {
      assert s[1..] == rest;
    } else {
      assert s[3..] == rest && IsEscape(s);
    }
    assert ([SLASH] + rest)[1..] == rest;
  }

  lemma {:induction false} DecodeEncode(s: Text)
    ensures PercentDecode(EncodeUri(s)) == s
  {
    if s == [] {
      assert EncodeParts(Split([])) == [[]];
    } else {
      EncodeFirst(s);
      DecodeEncode(s[1..]);
      DecodeFirst(s[0], EncodeUri(s[1..]));
      assert [s[0]] + s[1..] == s;
    }
  }

  /** Decoding undoes encoding, for all text. */
  lemma UriRoundTrip(s: Text)
    requires Utf8(s)
    ensures DecodeUri(EncodeUri(s)) == Some(s)
  {
    DecodeEncode(s);
  }

  /** So different texts never share an encoding. */
  lemma EncodingIsInjective(s: Text, t: Text)
    requires EncodeUri(s) == EncodeUri(t)
    ensures s == t
  {
    DecodeEncode(s);
    DecodeEncode(t);
  }
}
