/** UTF-8 text as bytes (section 4 of RFC 3629) and its character boundaries. */
module Utf8Text {

  type Byte = b: nat | b < 256

  type Text = seq<Byte>

  predicate IsTail(b: Byte) {
    0x80 <= b <= 0xBF
  }

  /** The length of the character a byte starts, or zero if it starts none. */
  function CharLength(lead: Byte): nat {
    if lead <= 0x7F then 1
    else if 0xC2 <= lead <= 0xDF then 2
    else if 0xE0 <= lead <= 0xEF then 3
    else if 0xF0 <= lead <= 0xF4 then 4
    else 0
  }

  predicate SecondFits(lead: Byte, second: Byte) {
    && IsTail(second)
    && (lead == 0xE0 ==> second >= 0xA0) && (lead == 0xED ==> second <= 0x9F)
    && (lead == 0xF0 ==> second >= 0x90) && (lead == 0xF4 ==> second <= 0x8F)
  }

  predicate StartsWithChar(s: Text) {
    s != [] && var n := CharLength(s[0]);
    && 0 < n <= |s|
    && (n > 1 ==> SecondFits(s[0], s[1]))
    && forall i :: 1 <= i < n ==> IsTail(s[i])
  }

  predicate Utf8(s: Text)
    decreases |s|
  {
    s == [] || (StartsWithChar(s) && Utf8(s[CharLength(s[0])..]))
  }

  /** `is_char_boundary`. */
  predicate IsBoundary(s: Text, i: nat) {
    i == 0 || i == |s| || (i < |s| && !IsTail(s[i]))
  }

  /** The last boundary at or before `i`. */
  function Floor(s: Text, i: nat): (r: nat)
    ensures r <= i && IsBoundary(s, r)
  {
    if IsBoundary(s, i) then i else Floor(s, i - 1)
  }

  lemma {:induction false} BoundarySplits(s: Text, i: nat)
    requires Utf8(s) && i <= |s| && IsBoundary(s, i)
    ensures Utf8(s[..i]) && Utf8(s[i..])
    decreases |s|
  {
    if i == 0 || i == |s| {
      assert s[..0] == [] && s[0..] == s && s[..|s|] == s && s[|s|..] == [];
    } else {
      var n := CharLength(s[0]);
      assert i >= n;
      assert IsBoundary(s[n..], i - n) by {
        assert i < |s| ==> s[n..][i - n] == s[i];
      }
      BoundarySplits(s[n..], i - n);
      assert s[..i][n..] == s[n..][..i - n] && s[i..] == s[n..][i - n..];
    }
  }

  lemma CharStaysFirst(a: Text, b: Text)
    requires StartsWithChar(a)
    ensures StartsWithChar(a + b) && (a + b)[0] == a[0]
  {
    assert forall i :: 0 <= i < |a| ==> (a + b)[i] == a[i];
  }

  lemma {:induction false} Utf8Concat(a: Text, b: Text)
    requires Utf8(a) && Utf8(b)
    ensures Utf8(a + b)
    decreases |a|
  {
    if a == [] {
      assert a + b == b;
    } else {
      var n := CharLength(a[0]);
      CharStaysFirst(a, b);
      Utf8Concat(a[n..], b);
      assert (a + b)[n..] == a[n..] + b;
    }
  }

  lemma {:induction false} AsciiIsText(s: Text)
    requires forall i :: 0 <= i < |s| ==> s[i] <= 0x7F
    ensures Utf8(s)
    decreases |s|
  {
    if s != [] {
      AsciiIsText(s[1..]);
    }
  }

  // ----- text is the encoding of scalar values

  predicate IsScalar(c: nat) {
    c < 0xD800 || 0xE000 <= c < 0x110000
  }

  function EncodeScalar(c: nat): Text
    requires IsScalar(c)
  {
    if c < 0x80 then [c]
    else if c < 0x800 then [0xC0 + c / 64, 0x80 + c % 64]
    else if c < 0x10000 then [0xE0 + c / 64 / 64, 0x80 + c / 64 % 64, 0x80 + c % 64]
    else [0xF0 + c / 64 / 64 / 64, 0x80 + c / 64 / 64 % 64, 0x80 + c / 64 % 64, 0x80 + c % 64]
  }

  predicate AreScalars(cs: seq<nat>) {
    forall i :: 0 <= i < |cs| ==> IsScalar(cs[i])
  }

  function EncodeScalars(cs: seq<nat>): Text
    requires AreScalars(cs)
  {
    if cs == [] then [] else EncodeScalar(cs[0]) + EncodeScalars(cs[1..])
  }

  function DecodeChar(s: Text): nat
    requires StartsWithChar(s)
  {
    var n := CharLength(s[0]);
    if n == 1 then s[0]
    else if n == 2 then Shift(s[0] - 0xC0, s[1])
    else if n == 3 then Shift(Shift(s[0] - 0xE0, s[1]), s[2])
    else Shift(Shift(Shift(s[0] - 0xF0, s[1]), s[2]), s[3])
  }

  function Shift(bits: nat, b: Byte): nat
    requires IsTail(b)
  {
    bits * 64 + (b - 0x80)
  }

  lemma ShiftBack(bits: nat, b: Byte)
    requires IsTail(b)
    ensures Shift(bits, b) / 64 == bits && 0x80 + Shift(bits, b) % 64 == b
  {
  }

  lemma ScalarIsChar(c: nat)
    requires IsScalar(c)
    ensures StartsWithChar(EncodeScalar(c)) && CharLength(EncodeScalar(c)[0]) == |EncodeScalar(c)|
  {
  }

  lemma CharIsScalar(s: Text)
    requires StartsWithChar(s)
    ensures IsScalar(DecodeChar(s)) && EncodeScalar(DecodeChar(s)) == s[..CharLength(s[0])]
  {
    var n := CharLength(s[0]);
    if n == 2 {
      ShiftBack(s[0] - 0xC0, s[1]);
    } else if n == 3 {
      ThreeByteChar(s);
    } else if n == 4 {
      FourByteChar(s);
    }
  }

  lemma ThreeByteChar(s: Text)
    requires StartsWithChar(s) && CharLength(s[0]) == 3
    ensures IsScalar(DecodeChar(s)) && EncodeScalar(DecodeChar(s)) == s[..3]
  {
    var two := Shift(s[0] - 0xE0, s[1]);
    ShiftBack(s[0] - 0xE0, s[1]);
    ShiftBack(two, s[2]);
    assert 0x20 <= two < 0x400 && !(0x360 <= two < 0x380);
  }

  lemma FourByteChar(s: Text)
    requires StartsWithChar(s) && CharLength(s[0]) == 4
    ensures IsScalar(DecodeChar(s)) && EncodeScalar(DecodeChar(s)) == s[..4]
  {
    var two := Shift(s[0] - 0xF0, s[1]);
    var three := Shift(two, s[2]);
    ShiftBack(s[0] - 0xF0, s[1]);
    ShiftBack(two, s[2]);
    ShiftBack(three, s[3]);
    assert 0x10 <= two < 0x110;
    assert 0x400 <= three < 0x4400;
  }

  lemma {:induction false} EncodedIsUtf8(cs: seq<nat>)
    requires AreScalars(cs)
    ensures Utf8(EncodeScalars(cs))
  {
    if cs != [] {
      var first, rest := EncodeScalar(cs[0]), EncodeScalars(cs[1..]);
      ScalarIsChar(cs[0]);
      EncodedIsUtf8(cs[1..]);
      CharStaysFirst(first, rest);
      assert (first + rest)[|first|..] == rest;
    }
  }

  lemma {:induction false} Utf8IsEncoded(s: Text) returns (cs: seq<nat>)
    requires Utf8(s)
    ensures AreScalars(cs) && EncodeScalars(cs) == s
    decreases |s|
  {
    if s == [] {
      cs := [];
    } else {
      var n := CharLength(s[0]);
      CharIsScalar(s);
      var rest := Utf8IsEncoded(s[n..]);
      cs := [DecodeChar(s)] + rest;
      assert cs[1..] == rest && cs[0] == DecodeChar(s);
      assert s == s[..n] + s[n..];
    }
  }

  /** The byte strings accepted as text are exactly the encodings of scalar values. */
  lemma Utf8IsExact(s: Text)
    ensures Utf8(s) <==> exists cs :: AreScalars(cs) && EncodeScalars(cs) == s
  {
    if Utf8(s) {
      var cs := Utf8IsEncoded(s);
    }
    if cs :| AreScalars(cs) && EncodeScalars(cs) == s {
      EncodedIsUtf8(cs);
    }
  }

  // ----- boundaries

  /** In text the boundaries are exactly the places where it can be cut into two texts. */
  lemma BoundaryIsExact(s: Text, i: nat)
    requires Utf8(s) && i <= |s|
    ensures IsBoundary(s, i) <==> Utf8(s[..i]) && Utf8(s[i..])
  {
    if IsBoundary(s, i) {
      BoundarySplits(s, i);
    } else {
      assert s[i..][0] == s[i] && CharLength(s[i]) == 0;
    }
  }

  lemma {:induction false} FloorIsLast(s: Text, i: nat, j: nat)
    requires Floor(s, i) < j <= i
    ensures !IsBoundary(s, j)
  {
    if j < i {
      FloorIsLast(s, i - 1, j);
    }
  }

  /** Cutting at the last boundary loses at most three bytes. */
  lemma FloorIsNear(s: Text, i: nat)
    requires Utf8(s) && i <= |s|
    ensures i <= Floor(s, i) + 3
  {
    var r := Floor(s, i);
    BoundarySplits(s, r);
    if r < |s| {
      var n := CharLength(s[r]);
      assert s[r..][0] == s[r] && StartsWithChar(s[r..]);
      if i > r + 3 {
        CharEndsAtBoundary(s, r);
        FloorIsLast(s, i, r + n);
      }
    }
  }

  lemma CharEndsAtBoundary(s: Text, r: nat)
    requires r < |s| && Utf8(s[r..])
    ensures r + CharLength(s[r]) <= |s| && IsBoundary(s, r + CharLength(s[r]))
  {
    var n := CharLength(s[r]);
    assert s[r..][0] == s[r];
    if r + n < |s| {
      assert s[r..][n..][0] == s[r + n];
    }
  }
}
