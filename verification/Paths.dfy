/** Canonicalization of policy paths and scopes: private_shield/paths.py. */
module Paths {
  import opened Common

  datatype PathError =
    | NulByte | Absolute | DriveLetter | Traversal | Colon | GlobInPath | TrailingDotOrSpace | ReservedName

  // ----- Strings -----

  function Replaced(s: string): (r: string)
    ensures |r| == |s|
    ensures forall i :: 0 <= i < |s| ==> r[i] == if s[i] == '\\' then '/' else s[i]
  {
    seq(|s|, i requires 0 <= i < |s| => if s[i] == '\\' then '/' else s[i])
  }

  // split("/")
  function Split(s: string): (segments: seq<string>)
    ensures segments != []
  {
    if s == "" then [""]
    else
      var rest := Split(s[1..]);
      if s[0] == '/' then [""] + rest else [[s[0]] + rest[0]] + rest[1..]
  }

  // "/".join
  function Join(segments: seq<string>): string {
    if segments == [] then ""
    else if |segments| == 1 then segments[0]
    else segments[0] + "/" + Join(segments[1..])
  }

  function Stem(segment: string): string {
    if segment == "" || segment[0] == '.' then "" else [segment[0]] + Stem(segment[1..])
  }

  function Upper(s: string): string {
    seq(|s|, i requires 0 <= i < |s| => if 'a' <= s[i] <= 'z' then s[i] - 'a' + 'A' else s[i])
  }

  predicate IsReserved(stem: string) {
    || stem in {"CON", "PRN", "AUX", "NUL"}
    || (|stem| == 4 && stem[..3] in {"COM", "LPT"} && '1' <= stem[3] <= '9')
  }

  predicate IsDrivePath(s: string) {
    |s| >= 2 && ('A' <= s[0] <= 'Z' || 'a' <= s[0] <= 'z') && s[1] == ':'
  }

  // ----- Segments -----

  predicate Skipped(segment: string) {
    segment == "" || segment == "."
  }

  predicate HasGlob(segment: string) {
    '*' in segment || '?' in segment || '[' in segment
  }

  function SegmentError(segment: string, allowGlob: bool): Option<PathError> {
    if segment == ".." then Some(Traversal)
    else if ':' in segment then Some(Colon)
    else if !allowGlob && HasGlob(segment) then Some(GlobInPath)
    else if segment != "" && segment[|segment| - 1] in {'.', ' '} then Some(TrailingDotOrSpace)
    else if IsReserved(Upper(Stem(segment))) then Some(ReservedName)
    else None
  }

  // The segments that are kept, or the first error.
  function Kept(segments: seq<string>, allowGlob: bool): Result<seq<string>, PathError> {
    if segments == [] then Ok([])
    else if Skipped(segments[0]) then Kept(segments[1..], allowGlob)
    else
      var e := SegmentError(segments[0], allowGlob);
      if e.Some? then Err(e.value)
      else
        var rest := Kept(segments[1..], allowGlob);
        if rest.Err? then rest else Ok([segments[0]] + rest.value)
  }

  function Canonicalized(raw: string, allowGlob: bool): Result<string, PathError> {
    if '\0' in raw then Err(NulByte)
    else
      var value := Replaced(raw);
      if value != "" && value[0] == '/' then Err(Absolute)
      else if IsDrivePath(value) then Err(DriveLetter)
      else
        var kept := Kept(Split(value), allowGlob);
        if kept.Err? then Err(kept.error) else Ok(Join(kept.value))
  }

  function CanonicalPath(raw: string): Result<string, PathError> {
    Canonicalized(raw, false)
  }

  function CanonicalScope(raw: string): Result<string, PathError> {
    if raw == "*" then Ok("*") else Canonicalized(raw, true)
  }

  function Prepended(prefix: seq<string>, r: Result<seq<string>, PathError>): Result<seq<string>, PathError> {
    if r.Err? then r else Ok(prefix + r.value)
  }

  lemma KeptAdvances(prefix: seq<string>, segments: seq<string>, i: nat, allowGlob: bool)
    requires i < |segments| && !Skipped(segments[i]) && SegmentError(segments[i], allowGlob).None?
    ensures Prepended(prefix, Kept(segments[i..], allowGlob)) ==
            Prepended(prefix + [segments[i]], Kept(segments[i + 1..], allowGlob))
  {
    assert segments[i..][1..] == segments[i + 1..];
    var rest := Kept(segments[i + 1..], allowGlob);
    if rest.Ok? {
      assert prefix + ([segments[i]] + rest.value) == prefix + [segments[i]] + rest.value;
    }
  }

  method Canonicalize(raw: string, allowGlob: bool) returns (r: Result<string, PathError>)
    ensures r == Canonicalized(raw, allowGlob)
  {
    if '\0' in raw {
      return Err(NulByte);
    }
    var value := Replaced(raw);
    if value != "" && value[0] == '/' {
      return Err(Absolute);
    }
    if IsDrivePath(value) {
      return Err(DriveLetter);
    }
    var segments := Split(value);
    var canonical: seq<string> := [];
    assert segments[0..] == segments;
    assert Kept(segments, allowGlob).Ok? ==> [] + Kept(segments, allowGlob).value == Kept(segments, allowGlob).value;
    for i := 0 to |segments|
      invariant Kept(segments, allowGlob) == Prepended(canonical, Kept(segments[i..], allowGlob))
    {
      var segment := segments[i];
      assert segments[i..][1..] == segments[i + 1..];
      if Skipped(segment) {
        continue;
      }
      var e := SegmentError(segment, allowGlob);
      if e.Some? {
        return Err(e.value);
      }
      KeptAdvances(canonical, segments, i, allowGlob);
      canonical := canonical + [segment];
    }
    assert canonical + [] == canonical;
    return Ok(Join(canonical));
  }

  // ----- When a path is accepted, and as what -----

  predicate Admissible(segment: string, allowGlob: bool) {
    Skipped(segment) || SegmentError(segment, allowGlob).None?
  }

  lemma {:induction false} KeptIff(segments: seq<string>, allowGlob: bool)
    ensures Kept(segments, allowGlob).Ok? <==> forall i :: 0 <= i < |segments| ==> Admissible(segments[i], allowGlob)
  {
    if segments != [] {
      KeptIff(segments[1..], allowGlob);
      assert forall i :: 1 <= i < |segments| ==> segments[i] == segments[1..][i - 1];
    }
  }

  // What a segment has to be, character by character.
  predicate IsFine(segment: string, allowGlob: bool) {
    || segment == "" || segment == "."
    || (&& segment != ".."
        && ':' !in segment
        && (allowGlob || ('*' !in segment && '?' !in segment && '[' !in segment))
        && segment[|segment| - 1] != '.' && segment[|segment| - 1] != ' '
        && !NamesDevice(segment))
  }

  const DEVICES := [
    "CON", "PRN", "AUX", "NUL",
    "COM1", "COM2", "COM3", "COM4", "COM5", "COM6", "COM7", "COM8", "COM9",
    "LPT1", "LPT2", "LPT3", "LPT4", "LPT5", "LPT6", "LPT7", "LPT8", "LPT9"]

  // The same text but for the case of its ASCII letters.
  predicate SameInAnyCase(s: string, upper: string) {
    && |s| == |upper|
    && forall i :: 0 <= i < |s| ==> s[i] == upper[i] || ('A' <= upper[i] <= 'Z' && s[i] == upper[i] - 'A' + 'a')
  }

  // The text before the first dot, or all of it, is the name of a device.
  predicate StemEnds(segment: string, k: nat) {
    k <= |segment| && '.' !in segment[..k] && (k == |segment| || segment[k] == '.')
  }

  predicate NamesDevice(segment: string) {
    exists k, d :: 0 <= k <= |segment| && 0 <= d < |DEVICES| && StemEnds(segment, k) && SameInAnyCase(segment[..k], DEVICES[d])
  }

  lemma {:induction false} StemIsPrefix(segment: string)
    ensures |Stem(segment)| <= |segment| && Stem(segment) == segment[..|Stem(segment)|]
    ensures StemEnds(segment, |Stem(segment)|)
  {
    if segment != "" && segment[0] != '.' {
      StemIsPrefix(segment[1..]);
      var n := |Stem(segment[1..])|;
      assert segment[..n + 1] == [segment[0]] + segment[1..][..n];
    }
  }

  lemma StemEndsOnce(segment: string, j: nat, k: nat)
    requires StemEnds(segment, j) && StemEnds(segment, k)
    ensures j == k
  {
    if j < k { DotWithin(segment, j, k); }
    if k < j { DotWithin(segment, k, j); }
  }

  lemma DotWithin(segment: string, j: nat, k: nat)
    requires j < k <= |segment| && segment[j] == '.'
    ensures '.' in segment[..k]
  {
    assert segment[..k][j] == '.';
  }

  lemma UpperIff(s: string, upper: string)
    requires forall i :: 0 <= i < |upper| ==> !('a' <= upper[i] <= 'z')
    ensures Upper(s) == upper <==> SameInAnyCase(s, upper)
  {
    assert Upper(s) == upper <==> |s| == |upper| && forall i :: 0 <= i < |s| ==> Upper(s)[i] == upper[i];
  }

  lemma ReservedIff(stem: string)
    ensures IsReserved(stem) <==> stem in DEVICES
  {
    if |stem| == 4 && stem[..3] in {"COM", "LPT"} {
      NumberedIff(stem[..3], stem[3]);
      assert stem == stem[..3] + [stem[3]];
    }
    ShortOrNumbered(stem);
  }

  lemma NumberedIff(port: string, digit: char)
    requires port in {"COM", "LPT"}
    ensures '1' <= digit <= '9' <==> port + [digit] in DEVICES
  {
    var stem := port + [digit];
    assert stem[..3] == port && stem[3] == digit;
    assert digit in {'1', '2', '3', '4', '5', '6', '7', '8', '9'} <==> '1' <= digit <= '9';
    var n := if port == "COM" then 3 else 12;
    if '1' <= digit <= '9' {
      var k := n + (digit - '0') as int;
      assert DEVICES[k][..3] == port && DEVICES[k][3] == digit && |DEVICES[k]| == 4;
      assert stem == DEVICES[k];
    }
    if stem in DEVICES {
      var k :| 0 <= k < |DEVICES| && DEVICES[k] == stem;
      assert '1' <= DEVICES[k][3] <= '9';
    }
  }

  lemma ShortOrNumbered(stem: string)
    ensures stem in DEVICES ==>
              stem in {"CON", "PRN", "AUX", "NUL"} || (|stem| == 4 && stem[..3] in {"COM", "LPT"})
  {
    if stem in DEVICES {
      var k :| 0 <= k < |DEVICES| && DEVICES[k] == stem;
      if k >= 4 { assert stem[..3] == if k <= 12 then "COM" else "LPT"; }
    }
  }

  lemma DevicesAreUpper()
    ensures forall d, i :: 0 <= d < |DEVICES| && 0 <= i < |DEVICES[d]| ==> !('a' <= DEVICES[d][i] <= 'z')
  {
  }

  lemma NamesDeviceIff(segment: string)
    ensures IsReserved(Upper(Stem(segment))) <==> NamesDevice(segment)
  {
    var stem := Stem(segment);
    StemIsPrefix(segment);
    ReservedIff(Upper(stem));
    DevicesAreUpper();
    if Upper(stem) in DEVICES {
      var d :| 0 <= d < |DEVICES| && DEVICES[d] == Upper(stem);
      UpperIff(stem, DEVICES[d]);
    }
    if NamesDevice(segment) {
      var k, d :| 0 <= k <= |segment| && 0 <= d < |DEVICES| && StemEnds(segment, k) &&
                  SameInAnyCase(segment[..k], DEVICES[d]);
      StemEndsOnce(segment, k, |stem|);
      UpperIff(stem, DEVICES[d]);
      assert DEVICES[d] in DEVICES;
    }
  }

  lemma FineIff(segment: string, allowGlob: bool)
    ensures Admissible(segment, allowGlob) <==> IsFine(segment, allowGlob)
  {
    NamesDeviceIff(segment);
  }

  lemma {:induction false} SplitAddsNoChar(s: string, c: char)
    ensures forall i :: 0 <= i < |Split(s)| ==> '/' !in Split(s)[i]
    ensures c !in s ==> forall i :: 0 <= i < |Split(s)| ==> c !in Split(s)[i]
  {
    if s != "" { SplitAddsNoChar(s[1..], c); }
  }

  lemma {:induction false} SplitKeepsChar(s: string, c: char) returns (i: nat)
    requires c in s && c != '/'
    ensures i < |Split(s)| && c in Split(s)[i]
  {
    if c == s[0] {
      i := 0;
    } else {
      i := SplitKeepsChar(s[1..], c);
      if s[0] == '/' { i := i + 1; }
    }
  }

  // A raw path is accepted exactly when it has no NUL, does not start at a root, and every segment is fine; the check for
  // drive letters refuses nothing the check for colons would let through.
  lemma AcceptedIff(raw: string, allowGlob: bool)
    ensures Canonicalized(raw, allowGlob).Ok? <==>
            && '\0' !in raw
            && !(raw != "" && raw[0] in {'/', '\\'})
            && forall i :: 0 <= i < |Split(Replaced(raw))| ==> IsFine(Split(Replaced(raw))[i], allowGlob)
  {
    var value := Replaced(raw);
    KeptIff(Split(value), allowGlob);
    forall i | 0 <= i < |Split(value)| ensures Admissible(Split(value)[i], allowGlob) <==> IsFine(Split(value)[i], allowGlob) {
      FineIff(Split(value)[i], allowGlob);
    }
    if IsDrivePath(value) {
      assert ':' in value;
      var i := SplitKeepsChar(value, ':');
      assert !Admissible(Split(value)[i], allowGlob);
      assert Canonicalized(raw, allowGlob).Err?;
    } else if '\0' !in raw && !(value != "" && value[0] == '/') {
      assert Canonicalized(raw, allowGlob).Ok? <==> Kept(Split(value), allowGlob).Ok?;
    }
  }

  // ----- What is kept, and why something is refused -----

  const SKIPPED := (segment: string) => segment == "" || segment == "."

  lemma {:induction false} KeptOfMore(segments: seq<string>, x: string, allowGlob: bool)
    requires Kept(segments + [x], allowGlob).Ok?
    ensures Kept(segments, allowGlob).Ok?
    ensures Kept(segments + [x], allowGlob).value ==
            Kept(segments, allowGlob).value + if Skipped(x) then [] else [x]
  {
    if segments == [] {
      assert ([] + [x])[1..] == [];
    } else {
      assert (segments + [x])[1..] == segments[1..] + [x];
      KeptOfMore(segments[1..], x, allowGlob);
    }
  }

  lemma {:induction false} KeptAreSifted(segments: seq<string>, allowGlob: bool)
    requires Kept(segments, allowGlob).Ok?
    ensures Sifted(segments, SKIPPED, Kept(segments, allowGlob).value)
  {
    if segments == [] {
      NothingSifted(SKIPPED);
    } else {
      var front, x := segments[..|segments| - 1], segments[|segments| - 1];
      assert segments == front + [x];
      KeptOfMore(front, x, allowGlob);
      KeptAreSifted(front, allowGlob);
      assert SKIPPED(x) == Skipped(x);
      SiftOne(front, segments, SKIPPED, Kept(front, allowGlob).value, Kept(segments, allowGlob).value, x);
    }
  }

  function SegmentsOf(path: string): seq<string> {
    if path == "" then [] else Split(path)
  }

  // The segments of the canonical form are those of the raw path, in order, but for the empty ones and the dots.
  lemma CanonicalSegmentsAreSifted(raw: string, allowGlob: bool)
    requires Canonicalized(raw, allowGlob).Ok?
    ensures Sifted(Split(Replaced(raw)), SKIPPED, SegmentsOf(Canonicalized(raw, allowGlob).value))
  {
    KeptAreSifted(Split(Replaced(raw)), allowGlob);
    SegmentsOfCanonical(raw, allowGlob);
  }

  // What each error says of its segment.  Of several it is the first in this order.
  predicate Because(segment: string, e: PathError, allowGlob: bool) {
    var colon := ':' in segment;
    var glob := !allowGlob && ('*' in segment || '?' in segment || '[' in segment);
    var trailing := segment != "" && (segment[|segment| - 1] == '.' || segment[|segment| - 1] == ' ');
    match e
    case Traversal => segment == ".."
    case Colon => colon
    case GlobInPath => glob && !colon
    case TrailingDotOrSpace => segment !in {".", ".."} && trailing && !colon && !glob
    case ReservedName => NamesDevice(segment) && !colon && !glob && !trailing
    case _ => false
  }

  // The first segment that is not fine.
  predicate FirstFault(segments: seq<string>, k: nat, allowGlob: bool) {
    k < |segments| && !IsFine(segments[k], allowGlob) && forall j :: 0 <= j < k ==> IsFine(segments[j], allowGlob)
  }

  lemma {:induction false} KeptErrIsFirst(segments: seq<string>, allowGlob: bool) returns (k: nat)
    requires Kept(segments, allowGlob).Err?
    ensures FirstFault(segments, k, allowGlob) && Because(segments[k], Kept(segments, allowGlob).error, allowGlob)
  {
    FineIff(segments[0], allowGlob);
    NamesDeviceIff(segments[0]);
    if IsFine(segments[0], allowGlob) {
      k := KeptErrIsFirst(segments[1..], allowGlob);
      assert forall j :: 1 <= j < |segments| ==> segments[j] == segments[1..][j - 1];
      k := k + 1;
    } else {
      k := 0;
    }
  }

  // Why a raw path is refused: the first of the reasons that applies.
  lemma RefusedBecause(raw: string, allowGlob: bool)
    requires Canonicalized(raw, allowGlob).Err?
    ensures
      var e := Canonicalized(raw, allowGlob).error;
      var rooted := raw != "" && raw[0] in {'/', '\\'};
      var drive := |raw| >= 2 && raw[1] == ':' && ('A' <= raw[0] <= 'Z' || 'a' <= raw[0] <= 'z');
      && (e == NulByte <==> '\0' in raw)
      && (e == Absolute <==> rooted && '\0' !in raw)
      && (e == DriveLetter <==> drive && '\0' !in raw)
      && (e !in {NulByte, Absolute, DriveLetter} ==>
            exists k :: 0 <= k < |Split(Replaced(raw))| && FirstFault(Split(Replaced(raw)), k, allowGlob) &&
                        Because(Split(Replaced(raw))[k], e, allowGlob))
  {
    var value := Replaced(raw);
    if Canonicalized(raw, allowGlob).error !in {NulByte, Absolute, DriveLetter} {
      var k := KeptErrIsFirst(Split(value), allowGlob);
    } else if Kept(Split(value), allowGlob).Err? {
      var k := KeptErrIsFirst(Split(value), allowGlob);
    }
  }

  // No accepted resource path holds a glob character.
  lemma ResourcePathsHaveNoGlob(raw: string, c: char)
    requires Canonicalized(raw, false).Ok? && c in {'*', '?', '['}
    ensures c !in raw && c !in Canonicalized(raw, false).value
  {
    var value := Replaced(raw);
    AcceptedIff(raw, false);
    SegmentsAreClean(raw, false);
    var kept := Kept(Split(value), false).value;
    forall i | 0 <= i < |kept| ensures c !in kept[i] { assert Clean(kept[i], false); }
    JoinHasOnly(kept, c);
    if c in value { var i := SplitKeepsChar(value, c); }
    forall i | 0 <= i < |raw| ensures raw[i] != c { assert value[i] in value; }
  }

  // ----- Idempotence -----

  // A segment that canonicalization keeps and that no separator can split.
  predicate Clean(segment: string, allowGlob: bool) {
    !Skipped(segment) && SegmentError(segment, allowGlob).None? && '/' !in segment && '\\' !in segment && '\0' !in segment
  }

  predicate AllClean(segments: seq<string>, allowGlob: bool) {
    forall i :: 0 <= i < |segments| ==> Clean(segments[i], allowGlob)
  }

  lemma {:induction false} KeptAreClean(segments: seq<string>, allowGlob: bool)
    requires Kept(segments, allowGlob).Ok?
    requires forall i :: 0 <= i < |segments| ==>
               '/' !in segments[i] && '\\' !in segments[i] && '\0' !in segments[i]
    ensures AllClean(Kept(segments, allowGlob).value, allowGlob)
  {
    if segments != [] {
      KeptAreClean(segments[1..], allowGlob);
    }
  }

  lemma {:induction false} CleanAreKept(segments: seq<string>, allowGlob: bool)
    requires AllClean(segments, allowGlob)
    ensures Kept(segments, allowGlob) == Ok(segments)
  {
    if segments != [] {
      assert Clean(segments[0], allowGlob);
      assert forall i :: 1 <= i < |segments| ==> segments[1..][i - 1] == segments[i];
      CleanAreKept(segments[1..], allowGlob);
      assert [segments[0]] + segments[1..] == segments;
    }
  }

  lemma {:induction false} SplitOfPrefix(segment: string, rest: string)
    requires '/' !in segment
    ensures Split(segment + "/" + rest) == [segment] + Split(rest)
    ensures Split(segment) == [segment]
  {
    if segment == "" {
      assert segment + "/" + rest == "/" + rest;
      assert ("/" + rest)[1..] == rest;
    } else {
      SplitOfPrefix(segment[1..], rest);
      assert (segment + "/" + rest)[1..] == segment[1..] + "/" + rest;
      assert [segment[0]] + segment[1..] == segment;
    }
  }

  lemma {:induction false} SplitOfJoin(segments: seq<string>)
    requires segments != [] && forall i :: 0 <= i < |segments| ==> '/' !in segments[i]
    ensures Split(Join(segments)) == segments
  {
    if |segments| == 1 {
      SplitOfPrefix(segments[0], "");
    } else {
      SplitOfJoin(segments[1..]);
      SplitOfPrefix(segments[0], Join(segments[1..]));
    }
  }

  lemma {:induction false} JoinHasOnly(segments: seq<string>, c: char)
    requires c != '/' && forall i :: 0 <= i < |segments| ==> c !in segments[i]
    ensures c !in Join(segments)
  {
    if |segments| > 1 { JoinHasOnly(segments[1..], c); }
  }

  lemma CleanJoinIsFixed(segments: seq<string>, allowGlob: bool)
    requires AllClean(segments, allowGlob)
    ensures Canonicalized(Join(segments), allowGlob) == Ok(Join(segments))
  {
    var path := Join(segments);
    JoinHasOnly(segments, '\\');
    JoinHasOnly(segments, '\0');
    JoinHasOnly(segments, ':');
    assert Replaced(path) == path;
    CleanAreKept(segments, allowGlob);
    if segments == [] {
      assert Split(path) == [""] && Kept([""][1..], allowGlob) == Ok([]);
    } else {
      assert Clean(segments[0], allowGlob);
      assert path[0] == segments[0][0];
      SplitOfJoin(segments);
    }
  }

  lemma SegmentsAreClean(raw: string, allowGlob: bool)
    requires Canonicalized(raw, allowGlob).Ok?
    ensures AllClean(Kept(Split(Replaced(raw)), allowGlob).value, allowGlob)
  {
    var value := Replaced(raw);
    SplitAddsNoChar(value, '\\');
    SplitAddsNoChar(value, '\0');
    KeptAreClean(Split(value), allowGlob);
  }

  lemma SegmentsOfCanonical(raw: string, allowGlob: bool)
    requires Canonicalized(raw, allowGlob).Ok?
    ensures SegmentsOf(Canonicalized(raw, allowGlob).value) == Kept(Split(Replaced(raw)), allowGlob).value
  {
    var kept := Kept(Split(Replaced(raw)), allowGlob).value;
    SegmentsAreClean(raw, allowGlob);
    if kept != [] {
      assert forall i :: 0 <= i < |kept| ==> Clean(kept[i], allowGlob);
      assert kept[0] != "" && Join(kept) != "";
      SplitOfJoin(kept);
    }
  }

  // Splitting loses nothing.
  lemma {:induction false} JoinOfSplit(s: string)
    ensures Join(Split(s)) == s
  {
    if s != "" {
      var rest := Split(s[1..]);
      JoinOfSplit(s[1..]);
      assert s == [s[0]] + s[1..];
      if s[0] == '/' {
        assert ([""] + rest)[1..] == rest && "" + "/" + Join(rest) == "/" + Join(rest);
      } else {
        JoinOfFirst(s[0], rest);
      }
    }
  }

  lemma JoinOfFirst(c: char, segments: seq<string>)
    requires segments != []
    ensures Join([[c] + segments[0]] + segments[1..]) == [c] + Join(segments)
  {
    var longer := [[c] + segments[0]] + segments[1..];
    assert longer[1..] == segments[1..];
    if |segments| > 1 {
      assert [c] + segments[0] + "/" + Join(segments[1..]) == [c] + (segments[0] + "/" + Join(segments[1..]));
    }
  }

  // Canonicalizing a canonical path or scope changes nothing.
  lemma CanonicalizationIsIdempotent(raw: string, allowGlob: bool)
    requires Canonicalized(raw, allowGlob).Ok?
    ensures var r := Canonicalized(raw, allowGlob).value;
            Canonicalized(r, allowGlob) == Ok(r)
  {
    SegmentsAreClean(raw, allowGlob);
    CleanJoinIsFixed(Kept(Split(Replaced(raw)), allowGlob).value, allowGlob);
  }

  lemma ScopeCanonicalizationIsIdempotent(raw: string)
    requires CanonicalScope(raw).Ok?
    ensures CanonicalScope(CanonicalScope(raw).value) == CanonicalScope(raw)
  {
    if raw != "*" { CanonicalizationIsIdempotent(raw, true); }
  }

  // No accepted path leaves its namespace: its segments are proper names.
  lemma CanonicalSegmentsAreNames(raw: string, allowGlob: bool)
    requires Canonicalized(raw, allowGlob).Ok? && Canonicalized(raw, allowGlob).value != ""
    ensures
      var segments := Split(Canonicalized(raw, allowGlob).value);
      forall i :: 0 <= i < |segments| ==>
        segments[i] != "" && segments[i] != "." && segments[i] != ".." && ':' !in segments[i]
  {
    var kept := Kept(Split(Replaced(raw)), allowGlob).value;
    SegmentsAreClean(raw, allowGlob);
    assert forall i :: 0 <= i < |kept| ==> Clean(kept[i], allowGlob);
    SplitOfJoin(kept);
  }
}
