/**
 Bounded log lines: text is cut only at character boundaries, and marked with a
 suffix when it had to be cut.
 */
module LogLine {
  import opened Basics
  import opened Utf8Text

  const MAX_LOG_ENTRY_BYTES: nat := 16384
  const SUFFIX: Text := [46, 46, 46, 91, 116, 114, 117, 110, 99, 97, 116, 101, 100, 93] // "...[truncated]"
  const CONTENT_LIMIT: nat := MAX_LOG_ENTRY_BYTES - 14

  lemma SuffixIsText()
    ensures Utf8(SUFFIX) && |SUFFIX| == 14
  {
    AsciiIsText(SUFFIX);
  }

  // ----- truncation of a whole entry

  method FloorBoundary(s: Text, i: nat) returns (end: nat)
    requires i <= |s|
    ensures end == Floor(s, i)
  {
    end := i;
    while !IsBoundary(s, end)
      invariant end <= i && Floor(s, end) == Floor(s, i)
      decreases end
    {
      end := end - 1;
    }
  }

  function Truncated(s: Text): Text {
    if |s| <= MAX_LOG_ENTRY_BYTES then s else s[..Floor(s, CONTENT_LIMIT)] + SUFFIX
  }

  /** Text that fits stays; longer text keeps everything up to its last boundary
      within 16370 bytes, all but at most three of them, and ends in the mark. */
  lemma TruncationIsLatest(s: Text)
    requires Utf8(s)
    ensures |s| <= 16384 ==> Truncated(s) == s
    ensures |s| > 16384 ==>
      var kept := |Truncated(s)| - 14;
      && 16367 <= kept <= 16370 && IsBoundary(s, kept) && Truncated(s)[..kept] == s[..kept]
      && (forall i :: kept < i <= 16370 ==> !IsBoundary(s, i))
      && (forall i :: 0 <= i < 14 ==> Truncated(s)[kept + i] == "...[truncated]"[i] as int)
  {
    if |s| > MAX_LOG_ENTRY_BYTES {
      FloorIsNear(s, CONTENT_LIMIT);
      forall i: nat | Floor(s, CONTENT_LIMIT) < i <= CONTENT_LIMIT ensures !IsBoundary(s, i) {
        FloorIsLast(s, CONTENT_LIMIT, i);
      }
      SuffixIsMark();
    }
  }

  lemma SuffixIsMark()
    ensures |SUFFIX| == 14 && |"...[truncated]"| == 14
    ensures forall i :: 0 <= i < 14 ==> SUFFIX[i] == "...[truncated]"[i] as int
  {
  }

  method TruncateLogEntry(s: Text) returns (r: Text)
    requires Utf8(s)
    ensures r == Truncated(s) && Utf8(r) && |r| <= MAX_LOG_ENTRY_BYTES
  {
    if |s| <= MAX_LOG_ENTRY_BYTES {
      return s;
    }
    var end := FloorBoundary(s, CONTENT_LIMIT);
    BoundarySplits(s, end);
    SuffixIsText();
    Utf8Concat(s[..end], SUFFIX);
    r := s[..end] + SUFFIX;
  }

  // ----- the incremental line

  datatype Line = Line(value: Text, truncated: bool)

  /** What stays of the buffered text, and what of the piece that no longer fits. */
  function Overflowed(buffered: Text, piece: Text): Text {
    var kept := if |buffered| > CONTENT_LIMIT then buffered[..Floor(buffered, CONTENT_LIMIT)] else buffered;
    kept + piece[..Floor(piece, Min(|piece|, CONTENT_LIMIT - |kept|))] + SUFFIX
  }

  function Push(line: Line, piece: Text): Line {
    if line.truncated then line
    else if |line.value| + |piece| <= MAX_LOG_ENTRY_BYTES then Line(line.value + piece, false)
    else Line(Overflowed(line.value, piece), true)
  }

  function PushAll(pieces: seq<Text>): Line {
    if pieces == [] then Line([], false) else Push(PushAll(pieces[..|pieces| - 1]), pieces[|pieces| - 1])
  }

  function Concat(pieces: seq<Text>): Text {
    if pieces == [] then [] else Concat(pieces[..|pieces| - 1]) + pieces[|pieces| - 1]
  }

  lemma OverflowedIsText(buffered: Text, piece: Text)
    requires Utf8(buffered) && Utf8(piece)
    ensures Utf8(Overflowed(buffered, piece)) && |Overflowed(buffered, piece)| <= MAX_LOG_ENTRY_BYTES
  {
    var cut := Floor(buffered, CONTENT_LIMIT);
    if |buffered| > CONTENT_LIMIT {
      BoundarySplits(buffered, cut);
    }
    var kept := if |buffered| > CONTENT_LIMIT then buffered[..cut] else buffered;
    var end := Floor(piece, Min(|piece|, CONTENT_LIMIT - |kept|));
    BoundarySplits(piece, end);
    SuffixIsText();
    Utf8Concat(kept, piece[..end]);
    Utf8Concat(kept + piece[..end], SUFFIX);
  }

  method Overflow(buffered: Text, piece: Text) returns (value: Text)
    ensures value == Overflowed(buffered, piece)
  {
    value := buffered;
    if |value| > CONTENT_LIMIT {
      var cut := FloorBoundary(value, CONTENT_LIMIT);
      value := value[..cut];
    }
    var end := FloorBoundary(piece, Min(|piece|, CONTENT_LIMIT - |value|));
    value := value + piece[..end] + SUFFIX;
  }

  class BoundedLogLine {
    var value: Text
    var truncated: bool
    ghost var pieces: seq<Text>

    ghost predicate Valid()
      reads this
    {
      Line(value, truncated) == PushAll(pieces) && Utf8(value) && |value| <= MAX_LOG_ENTRY_BYTES
    }

    constructor ()
      ensures Valid() && pieces == []
    {
      value, truncated, pieces := [], false, [];
    }

    method PushStr(piece: Text)
      requires Valid() && Utf8(piece)
      modifies this
      ensures Valid() && pieces == old(pieces) + [piece]
    {
      ghost var all := pieces + [piece];
      assert all[..|pieces|] == pieces;
      pieces := all;
      if truncated {
        return;
      }
      if |piece| <= SaturatingSub(MAX_LOG_ENTRY_BYTES, |value|) {
        Utf8Concat(value, piece);
        value := value + piece;
        return;
      }
      OverflowedIsText(value, piece);
      value := Overflow(value, piece);
      truncated := true;
    }
  }

  // ----- what the line is, over all its pieces

  /** Whether nothing of the piece is squeezed into the bytes that cutting the
      buffered text at a character boundary set free. */
  predicate NoRefill(buffered: Text, piece: Text) {
    || |buffered| <= CONTENT_LIMIT
    || IsBoundary(buffered, CONTENT_LIMIT)
    || piece == [] || CharLength(piece[0]) > CONTENT_LIMIT - Floor(buffered, CONTENT_LIMIT)
  }

  lemma {:induction false} FloorOfPrefix(a: Text, b: Text, i: nat)
    requires i < |a|
    ensures Floor(a + b, i) == Floor(a, i)
  {
    assert IsBoundary(a + b, i) == IsBoundary(a, i);
    if !IsBoundary(a, i) {
      FloorOfPrefix(a, b, i - 1);
    }
  }

  lemma {:induction false} FloorPastPrefix(a: Text, b: Text, i: nat)
    requires Utf8(b) && i < |b|
    ensures Floor(a + b, |a| + i) == |a| + Floor(b, i)
  {
    assert (a + b)[|a| + i] == b[i];
    if i == 0 {
      assert !IsTail(b[0]);
    } else if !IsBoundary(b, i) {
      FloorPastPrefix(a, b, i - 1);
    }
  }

  /** A cut inside the first character leaves nothing of it; a later one leaves all of it. */
  lemma {:induction false} FloorWithinFirstChar(s: Text, i: nat)
    requires Utf8(s) && s != [] && i <= |s|
    ensures Floor(s, i) == 0 <==> i < CharLength(s[0])
  {
    var n := CharLength(s[0]);
    if i < n {
      if i > 0 {
        FloorWithinFirstChar(s, i - 1);
      }
    } else {
      FloorReaches(s, i, n);
    }
  }

  lemma FloorReaches(s: Text, i: nat, n: nat)
    requires Utf8(s) && s != [] && n == CharLength(s[0]) <= i <= |s|
    ensures Floor(s, i) >= n
    decreases i
  {
    if i == n {
      assert n < |s| ==> StartsWithChar(s[n..]) && s[n..][0] == s[n];
    } else if !IsBoundary(s, i) {
      FloorReaches(s, i - 1, n);
    }
  }

  lemma FittingBufferIsTruncated(buffered: Text, piece: Text)
    requires Utf8(piece) && |buffered| <= CONTENT_LIMIT && MAX_LOG_ENTRY_BYTES < |buffered + piece|
    ensures Overflowed(buffered, piece) == Truncated(buffered + piece)
  {
    var room := CONTENT_LIMIT - |buffered|;
    var end := Floor(piece, room);
    FloorPastPrefix(buffered, piece, room);
    PrefixOfConcat(buffered, piece, end);
    assert Min(|piece|, room) == room;
    assert Overflowed(buffered, piece) == buffered + piece[..end] + SUFFIX;
    assert Floor(buffered + piece, CONTENT_LIMIT) == |buffered| + end;
  }

  lemma PrefixOfConcat(a: Text, b: Text, n: nat)
    requires n <= |b|
    ensures (a + b)[..|a| + n] == a + b[..n]
  {
  }

  lemma LongBufferIsTruncated(buffered: Text, piece: Text)
    requires CONTENT_LIMIT < |buffered| && MAX_LOG_ENTRY_BYTES < |buffered + piece|
    ensures Truncated(buffered + piece) == buffered[..Floor(buffered, CONTENT_LIMIT)] + SUFFIX
  {
    FloorOfPrefix(buffered, piece, CONTENT_LIMIT);
    var cut := Floor(buffered, CONTENT_LIMIT);
    assert (buffered + piece)[..cut] == buffered[..cut];
  }

  /** One overflowing push agrees with truncating everything, exactly when nothing is refilled. */
  lemma OverflowIsTruncation(buffered: Text, piece: Text)
    requires Utf8(buffered) && Utf8(piece) && |buffered| <= MAX_LOG_ENTRY_BYTES < |buffered + piece|
    ensures Overflowed(buffered, piece) == Truncated(buffered + piece) <==> NoRefill(buffered, piece)
  {
    if |buffered| <= CONTENT_LIMIT {
      FittingBufferIsTruncated(buffered, piece);
    } else {
      LongBufferIsTruncated(buffered, piece);
      RefillIsVisible(buffered, piece, Floor(buffered, CONTENT_LIMIT));
    }
  }

  lemma RefillIsVisible(buffered: Text, piece: Text, cut: nat)
    requires Utf8(buffered) && Utf8(piece) && piece != [] && CONTENT_LIMIT < |buffered|
    requires cut == Floor(buffered, CONTENT_LIMIT)
    ensures Overflowed(buffered, piece) == buffered[..cut] + SUFFIX <==> NoRefill(buffered, piece)
  {
    var end := Floor(piece, Min(|piece|, CONTENT_LIMIT - cut));
    FloorWithinFirstChar(piece, Min(|piece|, CONTENT_LIMIT - cut));
    assert |Overflowed(buffered, piece)| == cut + end + |SUFFIX|;
    if end == 0 {
      assert buffered[..cut] + piece[..0] + SUFFIX == buffered[..cut] + SUFFIX;
    }
    assert CharLength(piece[0]) <= |piece|;
  }

  lemma {:induction false} LineOfFittingPieces(pieces: seq<Text>)
    ensures |Concat(pieces)| <= MAX_LOG_ENTRY_BYTES ==> PushAll(pieces) == Line(Concat(pieces), false)
  {
    if pieces != [] {
      LineOfFittingPieces(pieces[..|pieces| - 1]);
    }
  }

  lemma {:induction false} LineAfterOverflow(before: seq<Text>, piece: Text, after: seq<Text>)
    requires |Concat(before)| <= MAX_LOG_ENTRY_BYTES < |Concat(before) + piece|
    ensures PushAll(before + [piece] + after) == Line(Overflowed(Concat(before), piece), true)
    ensures Concat(before) + piece <= Concat(before + [piece] + after)
    decreases |after|
  {
    var all := before + [piece] + after;
    if after == [] {
      LineOfFittingPieces(before);
      assert all[..|before|] == before;
    } else {
      var n := |after| - 1;
      LineAfterOverflow(before, piece, after[..n]);
      assert all[..|all| - 1] == before + [piece] + after[..n];
    }
  }

  lemma TruncationOfExtension(a: Text, b: Text)
    requires MAX_LOG_ENTRY_BYTES < |a| && a <= b
    ensures Truncated(b) == Truncated(a)
  {
    FloorOfPrefix(a, b[|a|..], CONTENT_LIMIT);
    assert a + b[|a|..] == b;
  }

  /** For every sequence of pieces: the line is their concatenation when that
      fits, and else its truncation, exactly unless the push that overflows
      refills freed bytes. */
  lemma LineIsTruncatedConcatenation(before: seq<Text>, piece: Text, after: seq<Text>)
    requires Utf8(Concat(before)) && Utf8(piece)
    requires |Concat(before)| <= MAX_LOG_ENTRY_BYTES < |Concat(before) + piece|
    ensures PushAll(before) == Line(Concat(before), false)
    ensures PushAll(before + [piece] + after).value == Truncated(Concat(before + [piece] + after)) <==>
      NoRefill(Concat(before), piece)
  {
    LineOfFittingPieces(before);
    LineAfterOverflow(before, piece, after);
    TruncationOfExtension(Concat(before) + piece, Concat(before + [piece] + after));
    OverflowIsTruncation(Concat(before), piece);
  }

  function Repeat(b: Byte, n: nat): Text {
    seq(n, _ => b)
  }

  /** Plain text up to the last byte before the limit, then a two-byte character across it. */
  function Straddling(): Text {
    Repeat(97, CONTENT_LIMIT - 1) + [0xC3, 0xA9]
  }

  lemma StraddlingIsText()
    ensures Utf8(Straddling()) && |Straddling()| == CONTENT_LIMIT + 1
    ensures Floor(Straddling(), CONTENT_LIMIT) == CONTENT_LIMIT - 1 && !IsBoundary(Straddling(), CONTENT_LIMIT)
  {
    AsciiIsText(Repeat(97, CONTENT_LIMIT - 1));
    var accent: Text := [0xC3, 0xA9];
    assert StartsWithChar(accent) && accent[2..] == [];
    Utf8Concat(Repeat(97, CONTENT_LIMIT - 1), accent);
    assert Straddling()[CONTENT_LIMIT] == 0xA9 && Straddling()[CONTENT_LIMIT - 1] == 0xC3;
  }

  lemma LineOfTwo(buffered: Text, piece: Text)
    requires |buffered| <= MAX_LOG_ENTRY_BYTES < |buffered + piece|
    ensures PushAll([buffered, piece]).value == Overflowed(buffered, piece)
  {
    assert [buffered][..0] == [] && [] + buffered == buffered;
    assert PushAll([buffered]) == Line(buffered, false);
    assert [buffered, piece][..1] == [buffered];
  }

  /** A line where the two differ: plain text takes the byte that cutting the character set free. */
  lemma RefillHappens(piece: Text)
    requires piece == Repeat(98, 14)
    ensures PushAll([Straddling(), piece]).value != Truncated(Straddling() + piece)
  {
    StraddlingIsText();
    AsciiIsText(piece);
    assert !NoRefill(Straddling(), piece);
    OverflowIsTruncation(Straddling(), piece);
    LineOfTwo(Straddling(), piece);
  }
}
