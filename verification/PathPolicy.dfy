/**
 The two lexical path parsers: the lenient one of the HTTP router, which
 decodes and normalises, and the strict one of the browser API.
 A rooted path is the list of its components, the served root first.
 */
module PathPolicy {
  import opened Basics
  import opened Utf8Text
  import opened UriCodec

  const COMPONENT_LIMIT: nat := 255
  const RELATIVE_LIMIT: nat := 4095
  const DOT: Text := [46]
  const DOT_DOT: Text := [46, 46]
  const CONTROL_COMPONENT: Text := [95, 95, 100, 117, 102, 115, 95, 95] // "__dufs__"

  datatype Policy = Policy(root: seq<Text>, assets: Text, isInternal: Text -> bool)

  predicate IsReserved(policy: Policy, component: Text) {
    component == CONTROL_COMPONENT || component == policy.assets
  }

  /** A name that may stand in a path of either parser. */
  predicate IsName(policy: Policy, part: Text) {
    && part != [] && part != DOT && part != DOT_DOT
    && |part| <= COMPONENT_LIMIT && !policy.isInternal(part)
  }

  // ----- the router

  function TrimStart(s: Text): Text {
    if s != [] && s[0] == SLASH then TrimStart(s[1..]) else s
  }

  function TrimEnd(s: Text): Text {
    if s != [] && s[|s| - 1] == SLASH then TrimEnd(s[..|s| - 1]) else s
  }

  /** The normal components of a relative path: empty and inner "." parts do not
      count, and anything else that is not a name is refused. */
  function NormalParts(policy: Policy, parts: seq<Text>): Option<seq<Text>> {
    if parts == [] then Some([])
    else
      match NormalParts(policy, parts[..|parts| - 1])
      case None => None
      case Some(names) =>
        var part := parts[|parts| - 1];
        if part == [] || part == DOT then Some(names)
        else if IsName(policy, part) then Some(names + [part])
        else None
  }

  /** A leading "." is a component of its own, which is not a normal one. */
  function RouteParts(policy: Policy, path: Text): Option<seq<Text>> {
    var parts := Split(path);
    if parts[0] == DOT then None else NormalParts(policy, parts)
  }

  function Canonical(route: Text): Text {
    [SLASH] + EncodeUri(route)
  }

  function ParseRoute(policy: Policy, raw: Text): Option<Text> {
    match DecodeUri(raw)
    case None => None
    case Some(path) =>
      if 0 in path then None
      else
        match RouteParts(policy, TrimEnd(TrimStart(path)))
        case None => None
        case Some(names) =>
          var route := Join(names);
          if |route| > RELATIVE_LIMIT then None
          else if IsReserved(policy, Split(route)[0]) && raw != Canonical(route) then None
          else Some(route)
  }

  function ResolveRoute(policy: Policy, route: Text): seq<Text> {
    if route == [] then policy.root else policy.root + Split(route)
  }

  /** `parse_route` with its component loop. */
  method ParseRouteLoop(policy: Policy, raw: Text) returns (route: Option<Text>)
    ensures route == ParseRoute(policy, raw)
  {
    var decoded := DecodeUri(raw);
    if decoded.None? || 0 in decoded.value {
      return None;
    }
    var parts := Split(TrimEnd(TrimStart(decoded.value)));
    if parts[0] == DOT {
      return None;
    }
    var names: seq<Text> := [];
    assert parts[..|parts|] == parts;
    for i := 0 to |parts|
      invariant NormalParts(policy, parts[..i]) == Some(names)
    {
      assert parts[..i + 1][..i] == parts[..i];
      if parts[i] == [] || parts[i] == DOT {
        continue;
      }
      if !IsName(policy, parts[i]) {
        RefusedStaysRefused(policy, parts, i + 1, |parts|);
        return None;
      }
      names := names + [parts[i]];
    }
    var normalized := Join(names);
    if |normalized| > RELATIVE_LIMIT {
      return None;
    }
    if IsReserved(policy, Split(normalized)[0]) && raw != Canonical(normalized) {
      return None;
    }
    return Some(normalized);
  }

  lemma {:induction false} RefusedStaysRefused(policy: Policy, parts: seq<Text>, i: nat, n: nat)
    requires i <= n <= |parts| && NormalParts(policy, parts[..i]).None?
    ensures NormalParts(policy, parts[..n]).None?
    decreases n
  {
    if i < n {
      RefusedStaysRefused(policy, parts, i, n - 1);
      assert parts[..n][..n - 1] == parts[..n - 1];
    }
  }

  // ----- the browser API

  predicate IsTargetPart(policy: Policy, parts: seq<Text>, i: nat)
    requires i < |parts|
  {
    && parts[i] != [] && parts[i] != ['.' as int] && parts[i] != ['.' as int, '.' as int]
    && |parts[i]| <= 255 && !policy.isInternal(parts[i])
    && (i == 0 ==> parts[0] != CONTROL_COMPONENT && parts[0] != policy.assets)
  }

  /** `parse_browser_target`: exactly the paths written out in normal form. */
  method ParseBrowserTarget(policy: Policy, value: Text) returns (target: Option<seq<Text>>)
    ensures target.Some? <==> IsTarget(policy, value)
    ensures target.Some? ==> target.value == policy.root + Split(value[1..])
  {
    if value == [] || value[0] != SLASH {
      return None;
    }
    var relative := value[1..];
    if relative == [] || |relative| > RELATIVE_LIMIT || 0 in relative {
      return None;
    }
    var parts := Split(relative);
    var resolved := policy.root;
    for i := 0 to |parts|
      invariant resolved == policy.root + parts[..i]
      invariant forall k :: 0 <= k < i ==> IsTargetPart(policy, parts, k)
    {
      if parts[i] == [] || parts[i] == DOT || parts[i] == DOT_DOT || |parts[i]| > COMPONENT_LIMIT
         || policy.isInternal(parts[i]) || (i == 0 && IsReserved(policy, parts[i])) {
        assert !IsTargetPart(policy, parts, i);
        return None;
      }
      resolved := resolved + [parts[i]];
    }
    assert parts[..|parts|] == parts;
    target := Some(resolved);
  }

  ghost predicate IsTarget(policy: Policy, value: Text) {
    && 1 < |value| <= 4096 && value[0] == '/' as int && 0 !in value[1..]
    && forall i :: 0 <= i < |Split(value[1..])| ==> IsTargetPart(policy, Split(value[1..]), i)
  }

  // ----- names survive normalisation

  ghost predicate AreNames(policy: Policy, parts: seq<Text>) {
    forall i :: 0 <= i < |parts| ==> IsName(policy, parts[i])
  }

  lemma {:induction false} NamesAreNormal(policy: Policy, parts: seq<Text>)
    requires AreNames(policy, parts)
    ensures NormalParts(policy, parts) == Some(parts)
  {
    if parts != [] {
      NamesAreNormal(policy, parts[..|parts| - 1]);
      assert parts[..|parts| - 1] + [parts[|parts| - 1]] == parts;
    }
  }

  lemma {:induction false} NormalPartsAreNames(policy: Policy, parts: seq<Text>)
    requires NormalParts(policy, parts).Some? && NoSlash(parts)
    ensures AreNames(policy, NormalParts(policy, parts).value) && NoSlash(NormalParts(policy, parts).value)
    ensures forall p :: p in NormalParts(policy, parts).value ==> p in parts
  {
    if parts != [] {
      NormalPartsAreNames(policy, parts[..|parts| - 1]);
    }
  }

  lemma {:induction false} JoinEnds(parts: seq<Text>)
    requires parts != [] && NoSlash(parts) && forall i :: 0 <= i < |parts| ==> parts[i] != []
    ensures Join(parts) != [] && Join(parts)[0] != SLASH && Join(parts)[|Join(parts)| - 1] != SLASH
    decreases |parts|
  {
    if |parts| > 1 {
      JoinEnds(parts[1..]);
    }
  }

  /** A slash in front is all that trimming has to remove. */
  lemma TrimmedJoin(parts: seq<Text>)
    requires NoSlash(parts) && forall i :: 0 <= i < |parts| ==> parts[i] != []
    ensures TrimEnd(TrimStart([SLASH] + Join(parts))) == Join(parts)
  {
    var s := [SLASH] + Join(parts);
    assert s[1..] == Join(parts);
    if parts != [] {
      JoinEnds(parts);
    }
  }

  lemma NamesAreRouteParts(policy: Policy, names: seq<Text>)
    requires AreNames(policy, names) && NoSlash(names)
    ensures RouteParts(policy, Join(names)) == Some(names)
  {
    if names == [] {
      assert Split([])[..0] == [];
      assert NormalParts(policy, [[]]) == Some([]);
    } else {
      SplitJoin(names);
      NamesAreNormal(policy, names);
    }
  }

  /** The canonical spelling of any list of names is accepted and means those names. */
  lemma CanonicalSpellingIsAccepted(policy: Policy, names: seq<Text>)
    requires AreNames(policy, names) && NoSlash(names) && Utf8(Join(names)) && 0 !in Join(names)
    requires |Join(names)| <= RELATIVE_LIMIT
    ensures ParseRoute(policy, Canonical(Join(names))) == Some(Join(names))
  {
    var route := Join(names);
    var path := [SLASH] + route;
    assert path[1..] == route;
    EncodeFirst(path);
    AsciiIsText([SLASH]);
    Utf8Concat([SLASH], route);
    UriRoundTrip(path);
    assert EncodeUri(path) == Canonical(route);
    TrimmedJoin(names);
    NamesAreRouteParts(policy, names);
  }

  // ----- the two parsers agree

  lemma TargetIsNames(policy: Policy, value: Text)
    requires IsTarget(policy, value)
    ensures AreNames(policy, Split(value[1..]))
  {
    var names := Split(value[1..]);
    forall i | 0 <= i < |names| ensures IsName(policy, names[i]) {
      assert IsTargetPart(policy, names, i);
    }
  }

  lemma EncodedTarget(value: Text)
    requires Utf8(value) && value != [] && value[0] == SLASH
    ensures EncodeUri(value) == Canonical(value[1..]) && Utf8(value[1..])
  {
    EncodeFirst(value);
    assert CharLength(SLASH) == 1;
  }

  /** Every browser target, once encoded, is routed to the same rooted path. */
  lemma BrowserTargetIsRouted(policy: Policy, value: Text)
    requires Utf8(value) && IsTarget(policy, value)
    ensures ParseRoute(policy, EncodeUri(value)) == Some(value[1..])
    ensures ResolveRoute(policy, value[1..]) == policy.root + Split(value[1..])
  {
    TargetIsNames(policy, value);
    EncodedTarget(value);
    JoinSplit(value[1..]);
    CanonicalSpellingIsAccepted(policy, Split(value[1..]));
  }

  // ----- one spelling per reserved route

  /** Parts of text are text. */
  lemma {:induction false} PartsAreText(s: Text)
    requires Utf8(s)
    ensures forall i :: 0 <= i < |Split(s)| ==> Utf8(Split(s)[i])
    decreases |s|
  {
    if SLASH in s {
      var k := FirstSlash(s);
      var a, b := s[..k], s[k + 1..];
      assert s == a + [SLASH] + b;
      assert !IsTail(SLASH);
      BoundarySplits(s, k);
      assert s[k..][1..] == b && s[k..][0] == SLASH;
      SplitHead(a, b);
      PartsAreText(b);
    } else {
      SplitPart(s);
    }
  }

  function FirstSlash(s: Text): (k: nat)
    requires SLASH in s
    ensures k < |s| && s[k] == SLASH && SLASH !in s[..k]
  {
    if s[0] == SLASH then 0 else 1 + FirstSlash(s[1..])
  }

  lemma {:induction false} JoinIsText(parts: seq<Text>)
    requires forall i :: 0 <= i < |parts| ==> Utf8(parts[i]) && 0 !in parts[i]
    ensures Utf8(Join(parts)) && 0 !in Join(parts)
    decreases |parts|
  {
    if |parts| > 1 {
      JoinIsText(parts[1..]);
      AsciiIsText([SLASH]);
      Utf8Concat(parts[0], [SLASH]);
      Utf8Concat(parts[0] + [SLASH], Join(parts[1..]));
    }
  }

  lemma {:induction false} TrimStartIsText(s: Text)
    requires Utf8(s) && 0 !in s
    ensures Utf8(TrimStart(s)) && 0 !in TrimStart(s)
    decreases |s|
  {
    if s != [] && s[0] == SLASH {
      TrimStartIsText(s[1..]);
    }
  }

  lemma {:induction false} TrimEndIsText(s: Text)
    requires Utf8(s) && 0 !in s
    ensures Utf8(TrimEnd(s)) && 0 !in TrimEnd(s)
    decreases |s|
  {
    if s != [] && s[|s| - 1] == SLASH {
      BoundarySplits(s, |s| - 1);
      TrimEndIsText(s[..|s| - 1]);
    }
  }

  /** What an accepted spelling means: a list of names, in text without NUL. */
  lemma RouteIsJoinedNames(policy: Policy, raw: Text) returns (names: seq<Text>)
    requires ParseRoute(policy, raw).Some?
    ensures ParseRoute(policy, raw) == Some(Join(names)) && AreNames(policy, names) && NoSlash(names)
    ensures Utf8(Join(names)) && 0 !in Join(names) && |Join(names)| <= RELATIVE_LIMIT
  {
    var path := DecodeUri(raw).value;
    TrimStartIsText(path);
    TrimEndIsText(TrimStart(path));
    var trimmed := TrimEnd(TrimStart(path));
    names := RouteParts(policy, trimmed).value;
    var parts := Split(trimmed);
    JoinSplit(trimmed);
    NormalPartsAreNames(policy, parts);
    PartsAreText(trimmed);
    forall i | 0 <= i < |names| ensures Utf8(names[i]) && 0 !in names[i] {
      assert names[i] in parts;
      var k :| 0 <= k < |parts| && parts[k] == names[i];
      PartIsWithin(trimmed, k);
    }
    JoinIsText(names);
  }

  lemma {:induction false} PartIsWithin(s: Text, k: nat)
    requires k < |Split(s)|
    ensures forall b :: b in Split(s)[k] ==> b in s
    decreases |s|
  {
    if s != [] {
      var rest := Split(s[1..]);
      if s[0] == SLASH {
        if k > 0 {
          PartIsWithin(s[1..], k - 1);
        }
      } else {
        PartIsWithin(s[1..], k);
        assert k > 0 ==> Split(s)[k] == rest[k];
      }
    }
  }

  /** Every accepted route has its canonical spelling, and a route in a reserved
      namespace has no other. */
  lemma ReservedRouteHasOneSpelling(policy: Policy, raw: Text, route: Text)
    requires ParseRoute(policy, raw) == Some(route)
    ensures ParseRoute(policy, Canonical(route)) == Some(route)
    ensures IsReserved(policy, Split(route)[0]) ==> raw == Canonical(route)
  {
    var names := RouteIsJoinedNames(policy, raw);
    CanonicalSpellingIsAccepted(policy, names);
  }

  // ----- what the router accepts

  lemma ControlComponentIsNamed()
    ensures |CONTROL_COMPONENT| == 8 && |"__dufs__"| == 8
    ensures forall i :: 0 <= i < 8 ==> CONTROL_COMPONENT[i] == "__dufs__"[i] as int
  {
  }

  /** An accepted route is text of at most 4095 bytes whose components are real
      names: none is empty, a dot or two dots, longer than 255 bytes, internal, or
      holds a slash or NUL. So its path is the root and these names below it. */
  lemma RouteStaysBelowRoot(policy: Policy, raw: Text, route: Text)
    requires ParseRoute(policy, raw) == Some(route)
    ensures |route| <= 4095 && 0 !in route && Utf8(route)
    ensures route != [] ==> forall i :: 0 <= i < |Split(route)| ==>
      var part := Split(route)[i];
      && part != [] && part != ['.' as int] && part != ['.' as int, '.' as int] && |part| <= 255
      && !policy.isInternal(part) && '/' as int !in part
    ensures ResolveRoute(policy, route) == policy.root + if route == [] then [] else Split(route)
  {
    var names := RouteIsJoinedNames(policy, raw);
    if names != [] {
      SplitJoin(names);
      forall i | 0 <= i < |names| ensures IsName(policy, names[i]) && SLASH !in names[i] {
      }
    }
  }

  predicate IsSkipped(part: Text) {
    part == [] || part == ['.' as int]
  }

  /** Empty parts and single dots are skipped, other names kept in order, and
      anything else refuses the whole path. */
  lemma {:induction false} NormalPartsByPart(policy: Policy, parts: seq<Text>, last: Text)
    ensures NormalParts(policy, []) == Some([])
    ensures NormalParts(policy, parts + [last]) ==
      if NormalParts(policy, parts).None? then None
      else if IsSkipped(last) then NormalParts(policy, parts)
      else if last == ['.' as int, '.' as int] || |last| > 255 || policy.isInternal(last) then None
      else Some(NormalParts(policy, parts).value + [last])
  {
    assert (parts + [last])[..|parts|] == parts;
  }

  predicate AreSlashes(s: Text) {
    forall i :: 0 <= i < |s| ==> s[i] == SLASH
  }

  lemma {:induction false} TrimmedStart(before: Text, rest: Text)
    requires AreSlashes(before) && (rest != [] ==> rest[0] != SLASH)
    ensures TrimStart(before + rest) == rest
  {
    if before == [] {
      assert before + rest == rest;
    } else {
      TrimmedStart(before[1..], rest);
      assert (before + rest)[1..] == before[1..] + rest;
    }
  }

  lemma {:induction false} TrimmedEnd(core: Text, after: Text)
    requires AreSlashes(after) && (core != [] ==> core[|core| - 1] != SLASH)
    ensures TrimEnd(core + after) == core
    decreases |after|
  {
    if after == [] {
      assert core + after == core;
    } else {
      TrimmedEnd(core, after[..|after| - 1]);
      assert (core + after)[..|core + after| - 1] == core + after[..|after| - 1];
    }
  }

  /** What a spelling is routed to: it has to decode to text without NUL; slashes
      around it do not matter, and a leading dot is not a name. */
  lemma RouteBySpelling(policy: Policy, raw: Text, before: Text, core: Text, after: Text)
    requires DecodeUri(raw) == Some(before + core + after) && AreSlashes(before) && AreSlashes(after)
    requires core != [] && core[0] != SLASH && core[|core| - 1] != SLASH
    ensures
      var names := NormalParts(policy, Split(core));
      ParseRoute(policy, raw) ==
        if 0 in core || Split(core)[0] == ['.' as int] || names.None? || |Join(names.value)| > 4095 then None
        else
          var first := if names.value == [] then [] else names.value[0];
          if (first == CONTROL_COMPONENT || first == policy.assets) && raw != [SLASH] + EncodeUri(Join(names.value))
          then None
          else Some(Join(names.value))
  {
    var path := before + core + after;
    assert path == before + (core + after);
    TrimmedStart(before, core + after);
    TrimmedEnd(core, after);
    assert 0 in path <==> 0 in core;
    if NormalParts(policy, Split(core)).Some? {
      JoinSplit(core);
      NormalPartsAreNames(policy, Split(core));
      FirstOfRoute(policy, NormalParts(policy, Split(core)).value);
    }
  }

  lemma FirstOfRoute(policy: Policy, names: seq<Text>)
    requires AreNames(policy, names) && NoSlash(names)
    ensures Split(Join(names))[0] == if names == [] then [] else names[0]
  {
    if names != [] {
      SplitJoin(names);
    }
  }
}
