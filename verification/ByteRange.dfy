/**
 Byte ranges of downloads (sections 14.1.2 and 15.3.7 of RFC 9110): parsing the
 field, choosing the response, and streaming the body in short reads.
 */
module ByteRange {
  import opened Basics

  const BUF_SIZE: nat := 65536

  datatype ParsedRange = Ignore | Satisfiable(start: nat, end: nat) | Unsatisfiable

  // ----- text

  /** The part before and after the first occurrence of `c`. */
  function SplitOnce(s: string, c: char): Option<(string, string)> {
    if s == [] then None
    else if s[0] == c then Some(([], s[1..]))
    else
      match SplitOnce(s[1..], c)
      case None => None
      case Some(parts) => Some(([s[0]] + parts.0, parts.1))
  }

  /** Of the white space Rust trims, a header value can hold only these two. */
  predicate IsSpace(c: char) {
    c == ' ' || c == '\t'
  }

  function TrimStart(s: string): string {
    if s != [] && IsSpace(s[0]) then TrimStart(s[1..]) else s
  }

  function TrimEnd(s: string): string {
    if s != [] && IsSpace(s[|s| - 1]) then TrimEnd(s[..|s| - 1]) else s
  }

  function Lower(c: char): char {
    if 'A' <= c <= 'Z' then (c as int - 'A' as int + 'a' as int) as char else c
  }

  predicate EqualsIgnoringCase(s: string, lower: string) {
    |s| == |lower| && forall i :: 0 <= i < |s| ==> Lower(s[i]) == lower[i]
  }

  predicate IsDigit(c: char) {
    '0' <= c <= '9'
  }

  predicate AllDigits(s: string) {
    forall i :: 0 <= i < |s| ==> IsDigit(s[i])
  }

  function Value(digits: string): nat
    requires AllDigits(digits)
  {
    if digits == [] then 0 else 10 * Value(digits[..|digits| - 1]) + (digits[|digits| - 1] as int - '0' as int)
  }

  /** Rust's `u64` parser: one leading plus sign is accepted. */
  function ParseU64(s: string): Option<nat> {
    var digits := if s != [] && s[0] == '+' then s[1..] else s;
    if digits == [] || !AllDigits(digits) || Value(digits) > U64_MAX then None else Some(Value(digits))
  }

  function Digit(d: nat): char
    requires d < 10
  {
    ('0' as int + d) as char
  }

  function Print(n: nat): string {
    if n < 10 then [Digit(n)] else Print(n / 10) + [Digit(n % 10)]
  }

  // ----- the field

  function ParseRange(field: string, size: nat): (r: ParsedRange)
    ensures r.Satisfiable? ==> r.start <= r.end < size
  {
    match SplitOnce(field, '=')
    case None => Unsatisfiable
    case Some(parts) =>
      if !EqualsIgnoringCase(parts.0, "bytes") then Ignore
      else if ',' in parts.1 then Unsatisfiable
      else
        match SplitOnce(TrimEnd(TrimStart(parts.1)), '-')
        case None => Unsatisfiable
        case Some(ends) => ParseEnds(ends.0, ends.1, size)
  }

  function ParseEnds(start: string, end: string, size: nat): (r: ParsedRange)
    ensures r.Satisfiable? ==> r.start <= r.end < size
    ensures r != Ignore
  {
    if start == [] then
      match ParseU64(end)
      case None => Unsatisfiable
      case Some(length) =>
        if length == 0 || size == 0 then Unsatisfiable else Satisfiable(size - Min(length, size), size - 1)
    else
      match ParseU64(start)
      case None => Unsatisfiable
      case Some(first) =>
        if first >= size then Unsatisfiable
        else if end == [] then Satisfiable(first, size - 1)
        else
          match ParseU64(end)
          case None => Unsatisfiable
          case Some(last) => if first > last then Unsatisfiable else Satisfiable(first, Min(last, size - 1))
  }

  // ----- printing and parsing numbers

  lemma {:induction false} PrintIsDigits(n: nat)
    ensures AllDigits(Print(n)) && Print(n) != [] && Value(Print(n)) == n
  {
    if n < 10 {
      assert Print(n)[..0] == [];
    } else {
      PrintIsDigits(n / 10);
      assert Print(n)[..|Print(n)| - 1] == Print(n / 10);
    }
  }

  /** Exactly the numbers of 64 bits survive being printed and parsed. */
  lemma ParsePrint(n: nat)
    ensures ParseU64(Print(n)) == if n <= U64_MAX then Some(n) else None
  {
    PrintIsDigits(n);
  }

  lemma {:induction false} SplitAtFirst(a: string, c: char, b: string)
    requires c !in a
    ensures SplitOnce(a + [c] + b, c) == Some((a, b))
  {
    if a != [] {
      SplitAtFirst(a[1..], c, b);
      assert (a + [c] + b)[1..] == a[1..] + [c] + b;
      assert a == [a[0]] + a[1..];
    } else {
      assert a + [c] + b == [c] + b;
    }
  }

  lemma NoTrim(s: string)
    requires s == [] || (!IsSpace(s[0]) && !IsSpace(s[|s| - 1]))
    ensures TrimEnd(TrimStart(s)) == s
  {
  }

  lemma PrintedRange(start: string, end: string, size: nat)
    requires AllDigits(start) && AllDigits(end)
    ensures ParseRange("bytes=" + start + "-" + end, size) == ParseEnds(start, end, size)
  {
    var ends := start + "-" + end;
    assert "bytes=" + start + "-" + end == "bytes" + ['='] + ends;
    SplitAtFirst("bytes", '=', ends);
    assert forall c :: c in ends ==> IsDigit(c) || c == '-';
    NoTrim(ends);
    SplitAtFirst(start, '-', end);
  }

  /** What the three printed forms of a single range give, for numbers of any
      size: beyond 64 bits the field is refused. */
  lemma RangeForms(a: nat, b: nat, size: nat)
    ensures ParseRange("bytes=" + Print(a) + "-" + Print(b), size) ==
      if a <= b <= U64_MAX && a < size then Satisfiable(a, Min(b, size - 1)) else Unsatisfiable
    ensures ParseRange("bytes=" + Print(a) + "-" + "", size) ==
      if a <= U64_MAX && a < size then Satisfiable(a, size - 1) else Unsatisfiable
    ensures ParseRange("bytes=" + "" + "-" + Print(b), size) ==
      if 0 < b <= U64_MAX && size > 0 then Satisfiable(size - Min(b, size), size - 1) else Unsatisfiable
  {
    ParsePrint(a);
    ParsePrint(b);
    PrintIsDigits(a);
    PrintIsDigits(b);
    PrintedRange(Print(a), Print(b), size);
    PrintedRange(Print(a), "", size);
    PrintedRange("", Print(b), size);
  }

  // ----- agreement with the standard

  /** One or more digits, of any length. */
  predicate IsNumber(s: string) {
    s != [] && AllDigits(s)
  }

  /** What section 14.1.2 says of the two ends of a single range: digits only,
      numbers without a limit. A range that is no range is refused. */
  function StandardEnds(start: string, end: string, size: nat): ParsedRange {
    if start == [] then
      if IsNumber(end) && Value(end) > 0 && size > 0 then Satisfiable(size - Min(Value(end), size), size - 1)
      else Unsatisfiable
    else if !IsNumber(start) || (end != [] && !IsNumber(end)) || Value(start) >= size then Unsatisfiable
    else if end == [] then Satisfiable(Value(start), size - 1)
    else if Value(start) > Value(end) then Unsatisfiable
    else Satisfiable(Value(start), Min(Value(end), size - 1))
  }

  predicate HasPlus(s: string) {
    s != [] && s[0] == '+'
  }

  function WithoutPlus(s: string): string {
    if HasPlus(s) then s[1..] else s
  }

  /** A sign the grammar does not have, on ends that would otherwise select something within 64 bits. */
  predicate SignedEndSelects(start: string, end: string, size: nat) {
    && (HasPlus(start) || HasPlus(end))
    && var first, last := WithoutPlus(start), WithoutPlus(end);
    && (end != [] ==> IsNumber(last) && Value(last) <= U64_MAX)
    && (if start == [] then end != [] && Value(last) > 0 && size > 0
        else IsNumber(first) && Value(first) < size && (end != [] ==> Value(first) <= Value(last)))
  }

  /** A last position or suffix length beyond 64 bits, on a range that the standard satisfies. */
  predicate LongEndSelects(start: string, end: string, size: nat) {
    && IsNumber(end) && Value(end) > U64_MAX
    && if start == [] then size > 0 else IsNumber(start) && Value(start) < size
  }

  /** The parser gives what the standard says, except exactly in these two cases. */
  lemma ParserFollowsTheStandard(start: string, end: string, size: nat)
    requires size <= U64_MAX
    ensures ParseEnds(start, end, size) == StandardEnds(start, end, size) <==>
      !SignedEndSelects(start, end, size) && !LongEndSelects(start, end, size)
  {
    NumbersParse(start);
    NumbersParse(end);
  }

  /** The number parser: digits within 64 bits, with or without one plus sign. */
  lemma NumbersParse(s: string)
    ensures ParseU64(s).Some? <==> IsNumber(WithoutPlus(s)) && Value(WithoutPlus(s)) <= U64_MAX
    ensures ParseU64(s).Some? ==> ParseU64(s).value == Value(WithoutPlus(s))
    ensures IsNumber(s) ==> !HasPlus(s)
  {
  }

  /** Both exceptions occur. */
  lemma PlusSignIsAccepted(size: nat)
    requires 1 < size
    ensures ParseEnds("+1", "", size) == Satisfiable(1, size - 1) && StandardEnds("+1", "", size) == Unsatisfiable
  {
    assert "+1"[1..] == "1" && "1"[..0] == "";
    assert Value("1") == 1;
  }

  lemma LongLastPositionIsRefused(n: nat, size: nat)
    requires n > U64_MAX && size > 0
    ensures ParseRange("bytes=" + Print(0) + "-" + Print(n), size) == Unsatisfiable
    ensures StandardEnds(Print(0), Print(n), size) == Satisfiable(0, Min(n, size - 1))
  {
    RangeForms(0, n, size);
    PrintIsDigits(0);
    PrintIsDigits(n);
  }

  // ----- the whole field

  predicate IsBytesUnit(unit: string) {
    && |unit| == 5
    && (unit[0] == 'b' || unit[0] == 'B') && (unit[1] == 'y' || unit[1] == 'Y') && (unit[2] == 't' || unit[2] == 'T')
    && (unit[3] == 'e' || unit[3] == 'E') && (unit[4] == 's' || unit[4] == 'S')
  }

  predicate IsBlank(s: string) {
    forall i :: 0 <= i < |s| ==> s[i] == ' ' || s[i] == '\t'
  }

  /** The field has to name a unit. A unit other than bytes, in whatever letter case,
      makes the server ignore the field; several ranges, or none, are refused. */
  lemma FieldWithoutOneRange(unit: string, rest: string, size: nat)
    requires '=' !in unit
    ensures ParseRange(unit, size) == Unsatisfiable
    ensures !IsBytesUnit(unit) ==> ParseRange(unit + "=" + rest, size) == Ignore
    ensures IsBytesUnit(unit) && (',' in rest || '-' !in rest) ==> ParseRange(unit + "=" + rest, size) == Unsatisfiable
  {
    NoSplit(unit, '=');
    SplitAtFirst(unit, '=', rest);
    UnitIsBytes(unit);
    if '-' !in rest {
      TrimKeepsOut(rest, '-');
      NoSplit(TrimEnd(TrimStart(rest)), '-');
    }
  }

  lemma UnitIsBytes(unit: string)
    ensures EqualsIgnoringCase(unit, "bytes") <==> IsBytesUnit(unit)
  {
    var bytes := "bytes";
    assert bytes[0] == 'b' && bytes[1] == 'y' && bytes[2] == 't' && bytes[3] == 'e' && bytes[4] == 's';
    if EqualsIgnoringCase(unit, bytes) {
      assert Lower(unit[0]) == 'b' && Lower(unit[1]) == 'y' && Lower(unit[2]) == 't';
      assert Lower(unit[3]) == 'e' && Lower(unit[4]) == 's';
    }
  }

  lemma {:induction false} NoSplit(s: string, c: char)
    requires c !in s
    ensures SplitOnce(s, c) == None
  {
    if s != [] {
      NoSplit(s[1..], c);
    }
  }

  lemma {:induction false} TrimStartKeepsOut(s: string, c: char)
    requires c !in s
    ensures c !in TrimStart(s)
  {
    if s != [] {
      TrimStartKeepsOut(s[1..], c);
    }
  }

  lemma {:induction false} TrimEndKeepsOut(s: string, c: char)
    requires c !in s
    ensures c !in TrimEnd(s)
  {
    if s != [] {
      TrimEndKeepsOut(s[..|s| - 1], c);
    }
  }

  lemma TrimKeepsOut(s: string, c: char)
    requires c !in s
    ensures c !in TrimEnd(TrimStart(s))
  {
    TrimStartKeepsOut(s, c);
    TrimEndKeepsOut(TrimStart(s), c);
  }

  /** One range in bytes, with blanks around it, is what its two ends say. */
  lemma FieldWithOneRange(unit: string, before: string, start: string, end: string, after: string, size: nat)
    requires IsBytesUnit(unit) && IsBlank(before) && IsBlank(after)
    requires '-' !in start && ',' !in start && ',' !in end
    requires (start != [] ==> !IsBlank([start[0]])) && (end != [] ==> !IsBlank([end[|end| - 1]]))
    ensures ParseRange(unit + "=" + (before + (start + "-" + end) + after), size) == ParseEnds(start, end, size)
  {
    var core := start + "-" + end;
    var rest := before + core + after;
    assert '=' !in unit;
    SplitAtFirst(unit, '=', rest);
    UnitIsBytes(unit);
    assert ',' !in rest;
    assert core[0] == if start != [] then start[0] else '-';
    assert core[|core| - 1] == if end != [] then end[|end| - 1] else '-';
    Trimmed(before, core, after);
    SplitAtFirst(start, '-', end);
  }

  lemma {:induction false} TrimmedStart(before: string, rest: string)
    requires IsBlank(before) && rest != [] && !IsSpace(rest[0])
    ensures TrimStart(before + rest) == rest
  {
    if before == [] {
      assert before + rest == rest;
    } else {
      TrimmedStart(before[1..], rest);
      assert (before + rest)[1..] == before[1..] + rest;
    }
  }

  lemma {:induction false} TrimmedEnd(core: string, after: string)
    requires IsBlank(after) && core != [] && !IsSpace(core[|core| - 1])
    ensures TrimEnd(core + after) == core
    decreases |after|
  {
    if after == [] {
      assert core + after == core;
    } else {
      TrimmedEnd(core, after[..|after| - 1]);
      assert (core + after)[..|core + after| - 1] == core + after[..|after| - 1];
    }
  }

  lemma Trimmed(before: string, core: string, after: string)
    requires IsBlank(before) && IsBlank(after)
    requires core != [] && !IsSpace(core[0]) && !IsSpace(core[|core| - 1])
    ensures TrimEnd(TrimStart(before + core + after)) == core
  {
    assert before + core + after == before + (core + after);
    TrimmedStart(before, core + after);
    TrimmedEnd(core, after);
  }

  // ----- streaming

  type Byte = nat

  /** What one positioned read gives: up to `limit` bytes, or an error. */
  datatype Read = Bytes(limit: nat) | Failed | TimedOut

  datatype StreamEnd = Complete | Broken

  function Concat(chunks: seq<seq<Byte>>): seq<Byte> {
    if chunks == [] then [] else Concat(chunks[..|chunks| - 1]) + chunks[|chunks| - 1]
  }

  /** The first `n` bytes from `start`, as far as there are any. */
  function Slice(content: seq<Byte>, start: nat, n: nat): seq<Byte> {
    if start + n <= |content| then content[start..start + n] else if start <= |content| then content[start..] else []
  }

  lemma SliceGrows(content: seq<Byte>, start: nat, n: nat, more: nat)
    requires start + n + more <= |content|
    ensures Slice(content, start, n) + content[start + n..start + n + more] == Slice(content, start, n + more)
  {
  }

  lemma ConcatGrows(chunks: seq<seq<Byte>>, chunk: seq<Byte>)
    ensures Concat(chunks + [chunk]) == Concat(chunks) + chunk
  {
    assert (chunks + [chunk])[..|chunks|] == chunks;
  }

  /** `gated_file_body`, driven to its end. */
  method StreamBody(content: seq<Byte>, start: nat, length: nat, outcomes: nat -> Read)
    returns (chunks: seq<seq<Byte>>, end: StreamEnd)
    ensures |Concat(chunks)| <= length && Concat(chunks) == Slice(content, start, |Concat(chunks)|)
    ensures end.Complete? <==> |Concat(chunks)| == length
    ensures forall i :: 0 <= i < |chunks| ==> 0 < |chunks[i]| <= BUF_SIZE
    ensures start + length <= |content| && (forall k: nat :: outcomes(k).Bytes? && outcomes(k).limit > 0) ==>
      end.Complete?
    ensures start + length <= |content| && (forall k: nat :: outcomes(k).Bytes? && outcomes(k).limit >= 65536) ==>
      forall i :: 0 <= i < |chunks| - 1 ==> |chunks[i]| == 65536
  {
    chunks := [];
    ghost var sent: seq<Byte> := [];
    ghost var generous :=
      start + length <= |content| && forall k: nat :: outcomes(k).Bytes? && outcomes(k).limit >= 65536;
    var offset, remaining := start, length;
    var k := 0;
    while remaining > 0
      invariant 0 <= k && 0 <= remaining <= length && offset == start + (length - remaining)
      invariant sent == Concat(chunks) && |sent| == length - remaining && sent == Slice(content, start, |sent|)
      invariant forall i :: 0 <= i < |chunks| ==> 0 < |chunks[i]| <= BUF_SIZE
      invariant generous ==> forall i :: 0 <= i < |chunks| - (if remaining == 0 then 1 else 0) ==> |chunks[i]| == 65536
      decreases remaining
    {
      var chunkSize := Min(remaining, BUF_SIZE);
      var read := outcomes(k);
      k := k + 1;
      if !read.Bytes? {
        return chunks, Broken;
      }
      var available := if offset < |content| then |content| - offset else 0;
      var n := Min(Min(chunkSize, available), read.limit);
      if n == 0 {
        return chunks, Broken;
      }
      var buffer := content[offset..offset + n];
      ConcatGrows(chunks, buffer);
      SliceGrows(content, start, |sent|, n);
      sent := sent + buffer;
      chunks := chunks + [buffer];
      offset, remaining := offset + n, remaining - n;
    }
    end := Complete;
  }

  // ----- choosing the response

  datatype Status = OK | PartialContent | RangeNotSatisfiable

  /** `bytes first-last/size`, or with an asterisk for the range. */
  datatype ContentRange = Selected(first: nat, last: nat, size: nat) | Unselected(size: nat)

  datatype Response = Response(status: Status, contentRange: Option<ContentRange>, contentLength: Option<nat>)

  /** The first field decides whether ranges are ignored; a second one makes a byte range unsatisfiable.
      `None` is a field value that is not text. */
  function SelectRange(fields: seq<Option<string>>, useRange: bool, size: nat): (r: Option<ParsedRange>)
    ensures r.Some? && r.value.Satisfiable? ==> |fields| == 1 && r.value.start <= r.value.end < size
  {
    if !useRange || fields == [] then None
    else
      var parsed := if fields[0].Some? then ParseRange(fields[0].value, size) else Unsatisfiable;
      Some(if parsed.Ignore? then Ignore else if |fields| > 1 then Unsatisfiable else parsed)
  }

  /** The selected bytes start where Content-Range says, and a complete body has
      exactly the declared length; a broken one is a strict prefix. */
  ghost predicate SentFaithfully(
      content: seq<Byte>, size: nat, r: Response, sent: seq<Byte>, end: StreamEnd, headOnly: bool)
  {
    match r.status
    case RangeNotSatisfiable =>
      r.contentRange == Some(Unselected(size)) && r.contentLength.None? && sent == [] && end.Complete?
    case OK => r.contentRange.None? && r.contentLength == Some(size) && IsSent(content, 0, size, sent, end, headOnly)
    case PartialContent =>
      && r.contentRange.Some? && r.contentRange.value.Selected?
      && var range := r.contentRange.value;
      && range.first <= range.last < range.size == size
      && r.contentLength == Some(range.last - range.first + 1)
      && IsSent(content, range.first, r.contentLength.value, sent, end, headOnly)
  }

  ghost predicate IsSent(content: seq<Byte>, start: nat, length: nat, sent: seq<Byte>, end: StreamEnd, headOnly: bool) {
    && sent == Slice(content, start, |sent|)
    && (headOnly ==> sent == [] && end.Complete?)
    && (!headOnly ==> |sent| <= length && (end.Complete? <==> |sent| == length))
  }

  /** The tail of `send_open_file_with_gate`, for a file of `size` bytes when its length
      was read. `hasValidators` is false only when the file has no usable time stamp. */
  method SendFile(content: seq<Byte>, size: nat, fields: seq<Option<string>>, headOnly: bool, hasValidators: bool,
                  hasIfRange: bool, outcomes: nat -> Read)
    returns (r: Response, body: seq<seq<Byte>>, end: StreamEnd)
    ensures SentFaithfully(content, size, r, Concat(body), end, headOnly)
    ensures headOnly || (hasValidators && hasIfRange) || fields == [] ==> r.status.OK?
    ensures !headOnly && !(hasValidators && hasIfRange) && fields != [] ==>
      if fields[0].None? then r.status.RangeNotSatisfiable?
      else
        match ParseRange(fields[0].value, size)
        case Ignore => r.status.OK?
        case Unsatisfiable => r.status.RangeNotSatisfiable?
        case Satisfiable(first, last) =>
          if |fields| > 1 then r.status.RangeNotSatisfiable?
          else r.status.PartialContent? && r.contentRange == Some(Selected(first, last, size))
  {
    var useRange := !headOnly && (!hasValidators || (fields != [] && !hasIfRange));
    var range := SelectRange(fields, useRange, size);
    body, end := [], Complete;
    if range.Some? && range.value.Satisfiable? {
      var start, rangeSize := range.value.start, range.value.end - range.value.start + 1;
      r := Response(PartialContent, Some(Selected(start, range.value.end, size)), Some(rangeSize));
      body, end := StreamBody(content, start, rangeSize, outcomes);
    } else if range.Some? && range.value.Unsatisfiable? {
      r := Response(RangeNotSatisfiable, Some(Unselected(size)), None);
    } else {
      r := Response(OK, None, Some(size));
      if headOnly {
        return;
      }
      body, end := StreamBody(content, 0, size, outcomes);
    }
  }
}
