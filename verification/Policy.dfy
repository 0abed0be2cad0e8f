/** The scope matcher and the reference monitor of private_shield/policy.py, with the types of models.py it needs.

Whether one pattern segment matches one path segment (fnmatchcase) is a parameter. */
module Policy {
  import opened Common
  import opened Paths
  import opened Reals

  type SegmentMatcher = (string, string) -> bool

  // ----- Scope matching: the declarative meaning -----

  // The patterns cut the path into consecutive stretches: any stretch for `**`, one matching segment for any other.
  predicate CutsAt(parts: seq<string>, patterns: seq<string>, fn: SegmentMatcher, cuts: seq<nat>, i: nat)
    requires |cuts| == |patterns| + 1 && i < |patterns|
  {
    && cuts[i] <= cuts[i + 1] <= |parts|
    && (patterns[i] == "**" || (cuts[i + 1] == cuts[i] + 1 && fn(parts[cuts[i]], patterns[i])))
  }

  predicate Covers(parts: seq<string>, patterns: seq<string>, fn: SegmentMatcher, cuts: seq<nat>) {
    && |cuts| == |patterns| + 1
    && cuts[0] == 0 && cuts[|patterns|] == |parts|
    && forall i :: 0 <= i < |patterns| ==> CutsAt(parts, patterns, fn, cuts, i)
  }

  ghost predicate Matches(parts: seq<string>, patterns: seq<string>, fn: SegmentMatcher) {
    exists cuts: seq<nat> :: Covers(parts, patterns, fn, cuts)
  }

  ghost predicate InScope(candidate: string, scope: string, fn: SegmentMatcher) {
    scope == "*" || Matches(SegmentsOf(candidate), SegmentsOf(scope), fn)
  }

  // ----- Scope matching: the table -----

  // Do the first `i` patterns match the first `j` segments?
  predicate Table(parts: seq<string>, patterns: seq<string>, fn: SegmentMatcher, i: nat, j: nat)
    requires i <= |patterns| && j <= |parts|
    decreases i, j
  {
    if i == 0 then j == 0
    else if patterns[i - 1] == "**" then
      Table(parts, patterns, fn, i - 1, j) || (j > 0 && Table(parts, patterns, fn, i, j - 1))
    else
      j > 0 && Table(parts, patterns, fn, i - 1, j - 1) && fn(parts[j - 1], patterns[i - 1])
  }

  // The table's row for the first `i` patterns.
  ghost predicate IsRow(parts: seq<string>, patterns: seq<string>, fn: SegmentMatcher, i: nat, row: seq<bool>)
    requires i <= |patterns|
  {
    |row| == |parts| + 1 && forall j :: 0 <= j <= |parts| ==> row[j] == Table(parts, patterns, fn, i, j)
  }

  // Lines 35-45: one turn of the outer loop.
  method NextRow(parts: seq<string>, ghost patterns: seq<string>, fn: SegmentMatcher, ghost i: nat, pattern: string,
                 matched: array<bool>)
    returns (following: array<bool>)
    requires i < |patterns| && pattern == patterns[i] && IsRow(parts, patterns, fn, i, matched[..])
    ensures fresh(following) && IsRow(parts, patterns, fn, i + 1, following[..])
  {
    ghost var row := matched[..];
    following := new bool[|parts| + 1](j => false);
    if pattern == "**" {
      following[0] := matched[0];
      for index := 1 to |parts| + 1
        invariant matched[..] == row
        invariant forall j :: 0 <= j < index ==> following[j] == Table(parts, patterns, fn, i + 1, j)
      {
        following[index] := matched[index] || following[index - 1];
      }
    } else {
      for index := 1 to |parts| + 1
        invariant matched[..] == row
        invariant forall j :: 0 <= j < index ==> following[j] == Table(parts, patterns, fn, i + 1, j)
      {
        following[index] := matched[index - 1] && fn(parts[index - 1], pattern);
      }
    }
  }

  method ScopeMatches(candidate: string, scope: string, fn: SegmentMatcher) returns (ok: bool)
    ensures ok <==> InScope(candidate, scope, fn)
  {
    if scope == "*" {
      return true;
    }
    var parts, patterns := SegmentsOf(candidate), SegmentsOf(scope);
    var matched := new bool[|parts| + 1](j => j == 0);
    for i := 0 to |patterns|
      invariant IsRow(parts, patterns, fn, i, matched[..])
    {
      matched := NextRow(parts, patterns, fn, i, patterns[i], matched);
    }
    ok := matched[|parts|];
    assert ok == matched[..][|parts|];
    TableIffMatches(parts, patterns, fn);
  }

  lemma {:induction false} TableGivesCuts(parts: seq<string>, patterns: seq<string>, fn: SegmentMatcher, i: nat, j: nat)
    returns (cuts: seq<nat>)
    requires i <= |patterns| && j <= |parts| && Table(parts, patterns, fn, i, j)
    ensures Covers(parts[..j], patterns[..i], fn, cuts)
    decreases i, j
  {
    if i == 0 {
      cuts := [0];
    } else if patterns[i - 1] == "**" && !Table(parts, patterns, fn, i - 1, j) {
      var shorter := TableGivesCuts(parts, patterns, fn, i, j - 1);
      cuts := shorter[i := j];
      forall k | 0 <= k < i ensures CutsAt(parts[..j], patterns[..i], fn, cuts, k) {
        assert CutsAt(parts[..j - 1], patterns[..i], fn, shorter, k);
      }
    } else {
      var before := if patterns[i - 1] == "**" then j else j - 1;
      var shorter := TableGivesCuts(parts, patterns, fn, i - 1, before);
      cuts := shorter + [j];
      forall k | 0 <= k < i ensures CutsAt(parts[..j], patterns[..i], fn, cuts, k) {
        if k < i - 1 { assert CutsAt(parts[..before], patterns[..i - 1], fn, shorter, k); }
      }
    }
  }

  lemma {:induction false} CutsGiveTable(
    parts: seq<string>, patterns: seq<string>, fn: SegmentMatcher, cuts: seq<nat>, i: nat)
    requires Covers(parts, patterns, fn, cuts) && i <= |patterns|
    ensures cuts[i] <= |parts| && Table(parts, patterns, fn, i, cuts[i])
  {
    if i > 0 {
      CutsGiveTable(parts, patterns, fn, cuts, i - 1);
      assert CutsAt(parts, patterns, fn, cuts, i - 1);
      if patterns[i - 1] == "**" { StarExtends(parts, patterns, fn, i, cuts[i - 1], cuts[i]); }
    }
  }

  lemma {:induction false} StarExtends(
    parts: seq<string>, patterns: seq<string>, fn: SegmentMatcher, i: nat, lo: nat, hi: nat)
    requires 0 < i <= |patterns| && patterns[i - 1] == "**" && lo <= hi <= |parts|
    requires Table(parts, patterns, fn, i - 1, lo)
    ensures Table(parts, patterns, fn, i, hi)
    decreases hi
  {
    if lo < hi { StarExtends(parts, patterns, fn, i, lo, hi - 1); }
  }

  // The rolling table decides the declarative matching relation, for all paths and patterns.
  lemma TableIffMatches(parts: seq<string>, patterns: seq<string>, fn: SegmentMatcher)
    ensures Table(parts, patterns, fn, |patterns|, |parts|) <==> Matches(parts, patterns, fn)
  {
    if Table(parts, patterns, fn, |patterns|, |parts|) {
      var cuts := TableGivesCuts(parts, patterns, fn, |patterns|, |parts|);
      assert parts[..|parts|] == parts && patterns[..|patterns|] == patterns;
    }
    if Matches(parts, patterns, fn) {
      var cuts: seq<nat> :| Covers(parts, patterns, fn, cuts);
      CutsGiveTable(parts, patterns, fn, cuts, |patterns|);
    }
  }

  // Without a `**`, a scope matches exactly the paths of its own depth, segment by segment: `*` never crosses a slash.
  lemma PlainScopeMatchesSegmentwise(parts: seq<string>, patterns: seq<string>, fn: SegmentMatcher)
    requires forall i :: 0 <= i < |patterns| ==> patterns[i] != "**"
    ensures Matches(parts, patterns, fn) <==>
            |parts| == |patterns| && forall i :: 0 <= i < |parts| ==> fn(parts[i], patterns[i])
  {
    if Matches(parts, patterns, fn) {
      var cuts: seq<nat> :| Covers(parts, patterns, fn, cuts);
      PlainCuts(parts, patterns, fn, cuts, |patterns|);
      forall i | 0 <= i < |parts| ensures fn(parts[i], patterns[i]) {
        PlainCuts(parts, patterns, fn, cuts, i);
        assert CutsAt(parts, patterns, fn, cuts, i);
      }
    }
    if |parts| == |patterns| && forall i :: 0 <= i < |parts| ==> fn(parts[i], patterns[i]) {
      var cuts: seq<nat> := seq(|patterns| + 1, i => i);
      forall i | 0 <= i < |patterns| ensures CutsAt(parts, patterns, fn, cuts, i) {
      }
      assert Covers(parts, patterns, fn, cuts);
    }
  }

  lemma {:induction false} PlainCuts(
    parts: seq<string>, patterns: seq<string>, fn: SegmentMatcher, cuts: seq<nat>, i: nat)
    requires forall i :: 0 <= i < |patterns| ==> patterns[i] != "**"
    requires Covers(parts, patterns, fn, cuts) && i <= |patterns|
    ensures cuts[i] == i
  {
    if i > 0 {
      PlainCuts(parts, patterns, fn, cuts, i - 1);
      assert CutsAt(parts, patterns, fn, cuts, i - 1);
    }
  }

  // ----- Scopes -----

  // The path and every scope canonicalize, and the path is in one of the scopes.
  ghost predicate ScopeAllowed(path: string, scopes: seq<string>, fn: SegmentMatcher) {
    && CanonicalPath(path).Ok?
    && (forall i :: 0 <= i < |scopes| ==> CanonicalScope(scopes[i]).Ok?)
    && exists i :: 0 <= i < |scopes| && InScope(CanonicalPath(path).value, CanonicalScope(scopes[i]).value, fn)
  }

  method CanonicalizeScope(raw: string) returns (r: Result<string, PathError>)
    ensures r == CanonicalScope(raw)
  {
    if raw == "*" {
      return Ok("*");
    }
    r := Canonicalize(raw, true);
  }

  method NormalizeScopes(scopes: seq<string>) returns (r: Result<seq<string>, PathError>)
    ensures r.Ok? <==> forall k :: 0 <= k < |scopes| ==> CanonicalScope(scopes[k]).Ok?
    ensures r.Ok? ==> |r.value| == |scopes| && forall k :: 0 <= k < |scopes| ==> CanonicalScope(scopes[k]) == Ok(r.value[k])
  {
    var normalized: seq<string> := [];
    for i := 0 to |scopes|
      invariant |normalized| == i
      invariant forall k :: 0 <= k < i ==> CanonicalScope(scopes[k]) == Ok(normalized[k])
    {
      var scope := CanonicalizeScope(scopes[i]);
      if scope.Err? {
        return Err(scope.error);
      }
      normalized := normalized + [scope.value];
    }
    return Ok(normalized);
  }

  lemma AllowedByNormalized(path: string, scopes: seq<string>, normalized: seq<string>, fn: SegmentMatcher)
    requires CanonicalPath(path).Ok? && |normalized| == |scopes|
    requires forall k :: 0 <= k < |scopes| ==> CanonicalScope(scopes[k]) == Ok(normalized[k])
    ensures ScopeAllowed(path, scopes, fn) <==>
            exists k :: 0 <= k < |normalized| && InScope(CanonicalPath(path).value, normalized[k], fn)
  {
    var p := CanonicalPath(path).value;
    forall k | 0 <= k < |scopes|
      ensures InScope(p, CanonicalScope(scopes[k]).value, fn) == InScope(p, normalized[k], fn)
    {
    }
    if k :| 0 <= k < |normalized| && InScope(p, normalized[k], fn) {
      assert InScope(p, CanonicalScope(scopes[k]).value, fn);
    }
  }

  method AnyScopeMatches(candidate: string, scopes: seq<string>, fn: SegmentMatcher) returns (ok: bool)
    ensures ok <==> exists k :: 0 <= k < |scopes| && InScope(candidate, scopes[k], fn)
  {
    for i := 0 to |scopes|
      invariant forall k :: 0 <= k < i ==> !InScope(candidate, scopes[k], fn)
    {
      var matches := ScopeMatches(candidate, scopes[i], fn);
      if matches {
        return true;
      }
    }
    return false;
  }

  method ScopeAllows(path: string, scopes: seq<string>, fn: SegmentMatcher) returns (ok: bool)
    ensures ok <==> ScopeAllowed(path, scopes, fn)
  {
    var candidate := Canonicalize(path, false);
    if candidate.Err? {
      return false;
    }
    var normalized := NormalizeScopes(scopes);
    if normalized.Err? {
      return false;
    }
    AllowedByNormalized(path, scopes, normalized.value, fn);
    ok := AnyScopeMatches(candidate.value, normalized.value, fn);
  }

  // A path and its canonical form, and scopes and theirs, get the same answer.
  lemma CanonicalFormsAreEquivalent(path: string, scopes: seq<string>, canonical: seq<string>, fn: SegmentMatcher)
    requires CanonicalPath(path).Ok? && |canonical| == |scopes|
    requires forall i :: 0 <= i < |scopes| ==> CanonicalScope(scopes[i]) == Ok(canonical[i])
    ensures ScopeAllowed(path, scopes, fn) == ScopeAllowed(CanonicalPath(path).value, canonical, fn)
  {
    CanonicalizationIsIdempotent(path, false);
    forall i | 0 <= i < |scopes| ensures CanonicalScope(canonical[i]) == CanonicalScope(scopes[i]) {
      ScopeCanonicalizationIsIdempotent(scopes[i]);
    }
    if ScopeAllowed(path, scopes, fn) {
      var i :| 0 <= i < |scopes| && InScope(CanonicalPath(path).value, CanonicalScope(scopes[i]).value, fn);
      assert CanonicalScope(canonical[i]) == CanonicalScope(scopes[i]);
    }
    if ScopeAllowed(CanonicalPath(path).value, canonical, fn) {
      var i :| 0 <= i < |canonical| && InScope(CanonicalPath(path).value, CanonicalScope(canonical[i]).value, fn);
      assert CanonicalScope(canonical[i]) == CanonicalScope(scopes[i]);
    }
  }

  // One malformed scope denies everything, whatever the others allow.
  lemma MalformedScopeDenies(path: string, scopes: seq<string>, k: nat, fn: SegmentMatcher)
    requires k < |scopes| && CanonicalScope(scopes[k]).Err?
    ensures !ScopeAllowed(path, scopes, fn)
  {
  }

  // One segment is a lone star, and the others are skipped.
  predicate OnlyStarAt(segments: seq<string>, k: nat)
    requires k < |segments|
  {
    segments[k] == "*" && forall i :: 0 <= i < |segments| && i != k ==> Skipped(segments[i])
  }

  predicate OnlyStar(segments: seq<string>) {
    exists k :: 0 <= k < |segments| && OnlyStarAt(segments, k)
  }

  lemma {:induction false} KeptIsEmptyIff(segments: seq<string>)
    ensures Kept(segments, true) == Ok([]) <==> forall i :: 0 <= i < |segments| ==> Skipped(segments[i])
  {
    if segments != [] {
      KeptIsEmptyIff(segments[1..]);
      assert forall i :: 1 <= i < |segments| ==> segments[1..][i - 1] == segments[i];
    }
  }

  lemma StarIsAdmissible()
    ensures !Skipped("*") && SegmentError("*", true).None?
  {
    assert Stem("*") == "*" && Upper("*") == "*";
  }

  lemma OnlyStarShifts(segments: seq<string>)
    requires segments != [] && Skipped(segments[0])
    ensures OnlyStar(segments) <==> OnlyStar(segments[1..])
  {
    var rest := segments[1..];
    assert forall i :: 0 <= i < |rest| ==> rest[i] == segments[i + 1];
    if k :| 0 <= k < |segments| && OnlyStarAt(segments, k) {
      assert OnlyStarAt(rest, k - 1);
    }
    if k :| 0 <= k < |rest| && OnlyStarAt(rest, k) {
      assert OnlyStarAt(segments, k + 1);
    }
  }

  lemma OnlyStarAtFirst(segments: seq<string>)
    requires segments != [] && !Skipped(segments[0])
    ensures OnlyStar(segments) <==>
            segments[0] == "*" && forall i :: 0 <= i < |segments| - 1 ==> Skipped(segments[1..][i])
  {
    assert forall i :: 0 <= i < |segments| - 1 ==> segments[1..][i] == segments[i + 1];
    if k :| 0 <= k < |segments| && OnlyStarAt(segments, k) {
      assert k == 0;
      forall i | 0 <= i < |segments| - 1 ensures Skipped(segments[1..][i]) { assert i + 1 != k; }
    }
    if segments[0] == "*" && forall i :: 0 <= i < |segments| - 1 ==> Skipped(segments[1..][i]) {
      forall i | 0 <= i < |segments| && i != 0 ensures Skipped(segments[i]) { assert Skipped(segments[1..][i - 1]); }
      assert OnlyStarAt(segments, 0);
    }
  }

  lemma {:induction false} KeptIsStarIff(segments: seq<string>)
    ensures Kept(segments, true) == Ok(["*"]) <==> OnlyStar(segments)
  {
    if segments != [] {
      if Skipped(segments[0]) {
        KeptIsStarIff(segments[1..]);
        OnlyStarShifts(segments);
      } else {
        StarIsAdmissible();
        KeptIsEmptyIff(segments[1..]);
        OnlyStarAtFirst(segments);
        KeptStartsWith(segments);
      }
    }
  }

  lemma KeptStartsWith(segments: seq<string>)
    requires segments != [] && !Skipped(segments[0])
    ensures Kept(segments, true) == Ok(["*"]) <==>
            segments[0] == "*" && SegmentError(segments[0], true).None? && Kept(segments[1..], true) == Ok([])
  {
    var rest := Kept(segments[1..], true);
    if SegmentError(segments[0], true).None? && rest.Ok? {
      var whole := [segments[0]] + rest.value;
      assert whole == ["*"] ==> whole[0] == "*" && |rest.value| == 0;
    }
  }

  // The scope is a lone star once its empty and dot segments are left out.
  predicate IsUniversal(raw: string) {
    raw != "" && raw[0] !in {'/', '\\'} && OnlyStar(Split(Replaced(raw)))
  }

  // Exactly these scopes become the universal sentinel: `*` itself, and spellings of it such as `./*`, `*/` and `.//*`.
  lemma UniversalIff(raw: string)
    ensures CanonicalScope(raw) == Ok("*") <==> IsUniversal(raw)
  {
    KeptIsStarIff(Split(Replaced(raw)));
    if raw == "*" {
      SplitOfPrefix("*", "");
      assert Replaced(raw) == "*" && OnlyStarAt(["*"], 0);
    } else if Canonicalized(raw, true).Ok? {
      JoinIsStarIff(raw);
    } else if IsUniversal(raw) {
      OnlyStarIsAccepted(raw);
    }
  }

  lemma JoinIsStarIff(raw: string)
    requires Canonicalized(raw, true).Ok?
    ensures Canonicalized(raw, true) == Ok("*") <==> Kept(Split(Replaced(raw)), true) == Ok(["*"])
  {
    var kept := Kept(Split(Replaced(raw)), true).value;
    SegmentsAreClean(raw, true);
    if Join(kept) == "*" {
      assert forall i :: 0 <= i < |kept| ==> Clean(kept[i], true);
      SplitOfJoin(kept);
      SplitOfPrefix("*", "");
    }
  }

  lemma AbsentFromSegments(s: string, c: char)
    requires c != '/' && forall i :: 0 <= i < |Split(s)| ==> c !in Split(s)[i]
    ensures c !in s
  {
    if c in s { var i := SplitKeepsChar(s, c); }
  }

  lemma OnlyStarIsAccepted(raw: string)
    requires IsUniversal(raw)
    ensures Canonicalized(raw, true).Ok?
  {
    var segments := Split(Replaced(raw));
    StarIsAdmissible();
    forall i | 0 <= i < |segments| ensures '\0' !in segments[i] && Admissible(segments[i], true) {
      assert segments[i] == "*" || Skipped(segments[i]);
    }
    AbsentFromSegments(Replaced(raw), '\0');
    forall i | 0 <= i < |raw| ensures raw[i] != '\0' { assert Replaced(raw)[i] in Replaced(raw); }
    AcceptedIff(raw, true);
  }

  // Every other accepted scope without `**` keeps the star within a segment: as many segments, each matching its own.
  lemma OtherScopesMatchSegmentwise(path: string, raw: string, fn: SegmentMatcher)
    requires Canonicalized(path, false).Ok? && Canonicalized(raw, true).Ok? && !IsUniversal(raw)
    requires "**" !in Kept(Split(Replaced(raw)), true).value
    ensures
      var parts, patterns := Kept(Split(Replaced(path)), false).value, Kept(Split(Replaced(raw)), true).value;
      ScopeAllowed(path, [raw], fn) <==>
      |parts| == |patterns| && forall i :: 0 <= i < |parts| ==> fn(parts[i], patterns[i])
  {
    UniversalIff(raw);
    assert raw != "*";
    SegmentsOfCanonical(path, false);
    SegmentsOfCanonical(raw, true);
    var candidate, scope := CanonicalPath(path).value, CanonicalScope(raw).value;
    assert ScopeAllowed(path, [raw], fn) <==> InScope(candidate, scope, fn) by {
      assert [raw][0] == raw;
    }
    PlainScopeMatchesSegmentwise(SegmentsOf(candidate), SegmentsOf(scope), fn);
  }

  // A universal scope allows every path that canonicalizes.
  lemma UniversalAllows(path: string, raw: string, fn: SegmentMatcher)
    requires CanonicalPath(path).Ok? && IsUniversal(raw)
    ensures ScopeAllowed(path, [raw], fn)
  {
    UniversalIff(raw);
    assert InScope(CanonicalPath(path).value, CanonicalScope([raw][0]).value, fn);
  }

  lemma DotStarIsUniversal()
    ensures IsUniversal("./*")
  {
    SplitOfPrefix(".", "*");
    SplitOfPrefix("*", "");
    assert Replaced("./*") == "./*" == "." + "/" + "*";
    assert [".", "*"] == ["."] + ["*"] && OnlyStarAt([".", "*"], 1);
  }

  // ----- Requests, grants and decisions -----

  datatype Decision = Allow | Deny | RequireApproval

  datatype RiskVector = RiskVector(secret: real, network: real, source: real, execution: real, production: real) {
    function Maximum(): (m: real)
      ensures m >= secret && m >= network && m >= source && m >= execution && m >= production
      ensures m in {secret, network, source, execution, production}
    {
      Max(secret, Max(network, Max(source, Max(execution, production))))
    }

    // At least as risky in every domain.
    predicate AtMost(other: RiskVector) {
      && secret <= other.secret && network <= other.network && source <= other.source
      && execution <= other.execution && production <= other.production
    }
  }

  datatype Grant = Grant(
    capabilityId: string, subject: string, resource: string, actions: set<string>, scopes: seq<string>,
    environments: set<string>, networkDestinations: set<string>, egressDestinations: set<string>,
    exportableClassifications: set<string>, issuedAt: int, expiresAt: int, maxRisk: real, requiresHumanApproval: bool)

  datatype ProjectPolicy = ProjectPolicy(
    resource: string, actions: set<string>, scopes: seq<string>, environments: set<string>,
    networkDestinations: set<string>, egressDestinations: set<string>, exportableClassifications: set<string>)

  datatype Request = Request(
    subject: string, action: string, resource: string, path: string, environment: string,
    networkDestination: Option<string>, outputDestination: Option<string>, dataClassification: Option<string>,
    toolSubject: Option<string>)

  datatype PolicyDecision = PolicyDecision(
    decision: Decision, reasons: seq<string>, capabilityIds: seq<string>, risk: real)

  // What surrounds a request when it is evaluated.
  datatype Context = Context(
    identityVerified: bool, project: ProjectPolicy, agentGrants: seq<Grant>, toolGrants: seq<Grant>,
    humanApproved: bool, now: int, fn: SegmentMatcher)

  predicate DestinationAllows(destination: Option<string>, allowed: set<string>) {
    destination.None? || destination.value in allowed
  }

  // Data may flow out: nothing leaves, or it leaves for a known place under an exportable classification.
  predicate FlowAllowed(r: Request, egress: set<string>, exportable: set<string>) {
    r.outputDestination.None? ||
    (r.outputDestination.value in egress && r.dataClassification.Some? && r.dataClassification.value in exportable)
  }

  function CheckFlow(r: Request, egress: set<string>, exportable: set<string>, prefix: string): (error: Option<string>)
    ensures error.None? <==> FlowAllowed(r, egress, exportable)
  {
    if r.outputDestination.None? then None
    else if r.outputDestination.value !in egress then Some(prefix + "_egress_destination_denied")
    else if r.dataClassification.None? then Some(prefix + "_egress_requires_classification")
    else if r.dataClassification.value !in exportable then Some(prefix + "_classification_not_exportable")
    else None
  }

  // The grant is for this subject and request, and active now; its risk ceiling is a separate matter.
  ghost predicate Applies(r: Request, g: Grant, subject: string, now: int, fn: SegmentMatcher) {
    && g.subject == subject
    && g.resource == r.resource
    && r.action in g.actions
    && r.environment in g.environments
    && DestinationAllows(r.networkDestination, g.networkDestinations)
    && ScopeAllowed(r.path, g.scopes, fn)
    && g.issuedAt <= now < g.expiresAt
  }

  ghost function MatchingGrants(
    r: Request, grants: seq<Grant>, subject: string, risk: real, now: int, fn: SegmentMatcher): seq<Grant>
  {
    if grants == [] then []
    else
      var last := grants[|grants| - 1];
      MatchingGrants(r, grants[..|grants| - 1], subject, risk, now, fn) +
      if Applies(r, last, subject, now, fn) && risk <= last.maxRisk then [last] else []
  }

  method CollectMatchingGrants(
    r: Request, grants: seq<Grant>, subject: string, risk: real, now: int, fn: SegmentMatcher)
    returns (matched: seq<Grant>)
    ensures matched == MatchingGrants(r, grants, subject, risk, now, fn)
  {
    matched := [];
    for i := 0 to |grants|
      invariant matched == MatchingGrants(r, grants[..i], subject, risk, now, fn)
    {
      assert grants[..i + 1][..i] == grants[..i];
      var g := grants[i];
      if g.subject != subject || g.resource != r.resource || r.action !in g.actions || r.environment !in g.environments {
        continue;
      }
      if r.networkDestination.Some? && r.networkDestination.value !in g.networkDestinations {
        continue;
      }
      var allowed := ScopeAllows(r.path, g.scopes, fn);
      if !allowed || !(g.issuedAt <= now < g.expiresAt) || risk > g.maxRisk {
        continue;
      }
      matched := matched + [g];
    }
    assert grants[..|grants|] == grants;
  }

  function WithFlow(r: Request, grants: seq<Grant>): seq<Grant> {
    if grants == [] then []
    else
      var last := grants[|grants| - 1];
      WithFlow(r, grants[..|grants| - 1]) +
      if FlowAllowed(r, last.egressDestinations, last.exportableClassifications) then [last] else []
  }

  function Ids(grants: seq<Grant>): seq<string> {
    seq(|grants|, i requires 0 <= i < |grants| => grants[i].capabilityId)
  }

  predicate AnyGated(grants: seq<Grant>) {
    exists i :: 0 <= i < |grants| && grants[i].requiresHumanApproval
  }

  // The project-wide checks, in their order.
  ghost function ProjectError(r: Request, x: Context): Option<string> {
    var p := x.project;
    if !x.identityVerified then Some("identity_unverified")
    else if r.resource != p.resource then Some("resource_outside_project_policy")
    else if r.action !in p.actions then Some("action_outside_project_policy")
    else if !ScopeAllowed(r.path, p.scopes, x.fn) then Some("scope_outside_project_policy")
    else if r.environment !in p.environments then Some("environment_outside_project_policy")
    else if !DestinationAllows(r.networkDestination, p.networkDestinations) then
      Some("network_destination_outside_project_policy")
    else CheckFlow(r, p.egressDestinations, p.exportableClassifications, "project")
  }

  predicate HasTool(r: Request) {
    r.toolSubject.Some? && r.toolSubject.value != ""
  }

  ghost function AgentMatches(r: Request, x: Context, risk: real): seq<Grant> {
    MatchingGrants(r, x.agentGrants, r.subject, risk, x.now, x.fn)
  }

  ghost function ToolMatches(r: Request, x: Context, risk: real): seq<Grant> {
    if HasTool(r) then MatchingGrants(r, x.toolGrants, r.toolSubject.value, risk, x.now, x.fn) else []
  }

  // The grants a decision rests on.
  ghost function Selected(r: Request, x: Context, risk: real): seq<Grant> {
    WithFlow(r, AgentMatches(r, x, risk)) + WithFlow(r, ToolMatches(r, x, risk))
  }

  ghost function GrantError(r: Request, x: Context, risk: real): Option<string> {
    if AgentMatches(r, x, risk) == [] then Some("no_active_agent_capability")
    else if WithFlow(r, AgentMatches(r, x, risk)) == [] then Some("agent_capability_blocks_data_flow")
    else if HasTool(r) && ToolMatches(r, x, risk) == [] then Some("tool_authority_does_not_intersect")
    else if HasTool(r) && WithFlow(r, ToolMatches(r, x, risk)) == [] then Some("tool_capability_blocks_data_flow")
    else None
  }

  ghost function Evaluated(r: Request, x: Context, risk: real): PolicyDecision {
    var error := if ProjectError(r, x).Some? then ProjectError(r, x) else GrantError(r, x, risk);
    if error.Some? then PolicyDecision(Deny, [error.value], [], risk)
    else
      var selected := Selected(r, x, risk);
      if AnyGated(selected) && !x.humanApproved
      then PolicyDecision(RequireApproval, ["human_approval_required"], Ids(selected), risk)
      else PolicyDecision(Allow, ["all_security_predicates_satisfied"], Ids(selected), risk)
  }

  // Lines 95-113.
  method CheckProject(r: Request, x: Context) returns (error: Option<string>)
    ensures error == ProjectError(r, x)
  {
    if !x.identityVerified {
      return Some("identity_unverified");
    }
    if r.resource != x.project.resource {
      return Some("resource_outside_project_policy");
    }
    if r.action !in x.project.actions {
      return Some("action_outside_project_policy");
    }
    var inScope := ScopeAllows(r.path, x.project.scopes, x.fn);
    if !inScope {
      return Some("scope_outside_project_policy");
    }
    if r.environment !in x.project.environments {
      return Some("environment_outside_project_policy");
    }
    if !DestinationAllows(r.networkDestination, x.project.networkDestinations) {
      return Some("network_destination_outside_project_policy");
    }
    return CheckFlow(r, x.project.egressDestinations, x.project.exportableClassifications, "project");
  }

  method Evaluate(r: Request, x: Context, riskVector: RiskVector) returns (d: PolicyDecision)
    ensures d == Evaluated(r, x, riskVector.Maximum())
  {
    var risk := riskVector.Maximum();
    var projectError := CheckProject(r, x);
    if projectError.Some? {
      return PolicyDecision(Deny, [projectError.value], [], risk);
    }
    var matchingAgent := CollectMatchingGrants(r, x.agentGrants, r.subject, risk, x.now, x.fn);
    if matchingAgent == [] {
      return PolicyDecision(Deny, ["no_active_agent_capability"], [], risk);
    }
    var selected := WithFlow(r, matchingAgent);
    if selected == [] {
      return PolicyDecision(Deny, ["agent_capability_blocks_data_flow"], [], risk);
    }
    if HasTool(r) {
      var matchingTool := CollectMatchingGrants(r, x.toolGrants, r.toolSubject.value, risk, x.now, x.fn);
      if matchingTool == [] {
        return PolicyDecision(Deny, ["tool_authority_does_not_intersect"], [], risk);
      }
      var toolFlow := WithFlow(r, matchingTool);
      if toolFlow == [] {
        return PolicyDecision(Deny, ["tool_capability_blocks_data_flow"], [], risk);
      }
      selected := selected + toolFlow;
    } else {
      assert selected + WithFlow(r, []) == selected;
    }
    if AnyGated(selected) && !x.humanApproved {
      return PolicyDecision(RequireApproval, ["human_approval_required"], Ids(selected), risk);
    }
    return PolicyDecision(Allow, ["all_security_predicates_satisfied"], Ids(selected), risk);
  }

  // ----- What ALLOW means -----

  // The grant carries this subject's request at this risk.
  ghost predicate Carries(r: Request, g: Grant, subject: string, risk: real, x: Context) {
    && Applies(r, g, subject, x.now, x.fn) && risk <= g.maxRisk
    && FlowAllowed(r, g.egressDestinations, g.exportableClassifications)
  }

  ghost predicate Carried(r: Request, grants: seq<Grant>, subject: string, risk: real, x: Context) {
    exists g :: g in grants && Carries(r, g, subject, risk, x)
  }

  // Nothing that carries the request waits for a human.
  ghost predicate ApprovalSettled(r: Request, grants: seq<Grant>, subject: string, risk: real, x: Context) {
    forall g :: g in grants && Carries(r, g, subject, risk, x) ==> !g.requiresHumanApproval
  }

  ghost predicate ProjectPermits(r: Request, x: Context) {
    && x.identityVerified
    && r.resource == x.project.resource && r.action in x.project.actions
    && ScopeAllowed(r.path, x.project.scopes, x.fn) && r.environment in x.project.environments
    && DestinationAllows(r.networkDestination, x.project.networkDestinations)
    && FlowAllowed(r, x.project.egressDestinations, x.project.exportableClassifications)
  }

  // Everything but the approval.
  ghost predicate Authorized(r: Request, x: Context, risk: real) {
    && ProjectPermits(r, x)
    && Carried(r, x.agentGrants, r.subject, risk, x)
    && (HasTool(r) ==> Carried(r, x.toolGrants, r.toolSubject.value, risk, x))
  }

  ghost predicate Approved(r: Request, x: Context, risk: real) {
    || x.humanApproved
    || (ApprovalSettled(r, x.agentGrants, r.subject, risk, x) &&
        (HasTool(r) ==> ApprovalSettled(r, x.toolGrants, r.toolSubject.value, risk, x)))
  }

  ghost function Chosen(r: Request, grants: seq<Grant>, subject: string, risk: real, x: Context): seq<Grant> {
    WithFlow(r, MatchingGrants(r, grants, subject, risk, x.now, x.fn))
  }

  lemma ChosenOfMore(r: Request, grants: seq<Grant>, subject: string, risk: real, x: Context)
    requires grants != []
    ensures
      var last := grants[|grants| - 1];
      Chosen(r, grants, subject, risk, x) ==
      Chosen(r, grants[..|grants| - 1], subject, risk, x) + if Carries(r, last, subject, risk, x) then [last] else []
  {
    var last := grants[|grants| - 1];
    var before := MatchingGrants(r, grants[..|grants| - 1], subject, risk, x.now, x.fn);
    if Applies(r, last, subject, x.now, x.fn) && risk <= last.maxRisk {
      FlowOfMore(r, before, last);
    } else {
      assert before + [] == before;
      assert WithFlow(r, before) + [] == WithFlow(r, before);
    }
  }

  lemma FlowOfMore(r: Request, grants: seq<Grant>, g: Grant)
    ensures WithFlow(r, grants + [g]) ==
            WithFlow(r, grants) + if FlowAllowed(r, g.egressDestinations, g.exportableClassifications) then [g] else []
  {
    assert (grants + [g])[..|grants|] == grants;
  }

  lemma {:induction false} ChosenAreCarrying(
    r: Request, grants: seq<Grant>, subject: string, risk: real, x: Context, g: Grant)
    ensures g in Chosen(r, grants, subject, risk, x) <==> g in grants && Carries(r, g, subject, risk, x)
  {
    if grants != [] {
      ChosenOfMore(r, grants, subject, risk, x);
      ChosenAreCarrying(r, grants[..|grants| - 1], subject, risk, x, g);
      assert grants == grants[..|grants| - 1] + [grants[|grants| - 1]];
    }
  }

  lemma FlowMatchesIff(r: Request, grants: seq<Grant>, subject: string, risk: real, x: Context)
    ensures
      var chosen := Chosen(r, grants, subject, risk, x);
      && (chosen != [] <==> Carried(r, grants, subject, risk, x))
      && (AnyGated(chosen) <==> !ApprovalSettled(r, grants, subject, risk, x))
  {
    var chosen := Chosen(r, grants, subject, risk, x);
    forall g: Grant ensures g in chosen <==> g in grants && Carries(r, g, subject, risk, x) {
      ChosenAreCarrying(r, grants, subject, risk, x, g);
    }
    if chosen != [] { assert chosen[0] in chosen; }
    if AnyGated(chosen) {
      var i :| 0 <= i < |chosen| && chosen[i].requiresHumanApproval;
      assert chosen[i] in chosen;
    }
    if !ApprovalSettled(r, grants, subject, risk, x) {
      var g :| g in grants && Carries(r, g, subject, risk, x) && g.requiresHumanApproval;
      assert g in chosen;
    }
  }

  lemma AnyGatedOfBoth(a: seq<Grant>, b: seq<Grant>)
    ensures AnyGated(a + b) <==> AnyGated(a) || AnyGated(b)
  {
    assert forall i :: 0 <= i < |a| ==> (a + b)[i] == a[i];
    assert forall i :: 0 <= i < |b| ==> (a + b)[|a| + i] == b[i];
  }

  // DENY exactly when the request is not authorized, ALLOW exactly when it is and the approval is settled.
  lemma DecisionIff(r: Request, x: Context, risk: real)
    ensures Evaluated(r, x, risk).decision == Deny <==> !Authorized(r, x, risk)
    ensures Evaluated(r, x, risk).decision == Allow <==> Authorized(r, x, risk) && Approved(r, x, risk)
  {
    FlowMatchesIff(r, x.agentGrants, r.subject, risk, x);
    if HasTool(r) { FlowMatchesIff(r, x.toolGrants, r.toolSubject.value, risk, x); }
    AnyGatedOfBoth(WithFlow(r, AgentMatches(r, x, risk)), WithFlow(r, ToolMatches(r, x, risk)));
    assert WithFlow(r, []) == [];
  }

  // ----- What a decision says -----

  // When a grant carries a request, condition by condition.
  lemma CarriesIff(r: Request, g: Grant, subject: string, risk: real, x: Context)
    ensures
      Carries(r, g, subject, risk, x) <==>
      && g.subject == subject && g.resource == r.resource && r.action in g.actions && r.environment in g.environments
      && (r.networkDestination.Some? ==> r.networkDestination.value in g.networkDestinations)
      && ScopeAllowed(r.path, g.scopes, x.fn) && g.issuedAt <= x.now && x.now < g.expiresAt && risk <= g.maxRisk
      && (r.outputDestination.Some? ==>
            && r.outputDestination.value in g.egressDestinations
            && r.dataClassification.Some? && r.dataClassification.value in g.exportableClassifications)
  {
  }

  // Why data may not flow out.
  lemma FlowErrorSays(r: Request, egress: set<string>, exportable: set<string>, prefix: string)
    ensures
      var error := CheckFlow(r, egress, exportable, prefix);
      var leaves := r.outputDestination.Some?;
      var known := leaves && r.outputDestination.value in egress;
      var classified := r.dataClassification.Some?;
      && (leaves && !known ==> error == Some(prefix + "_egress_destination_denied"))
      && (known && !classified ==> error == Some(prefix + "_egress_requires_classification"))
      && (known && classified && r.dataClassification.value !in exportable ==>
            error == Some(prefix + "_classification_not_exportable"))
      && (!leaves || (known && classified && r.dataClassification.value in exportable) ==> error == None)
  {
  }

  ghost predicate AnyApplies(r: Request, grants: seq<Grant>, subject: string, risk: real, x: Context) {
    exists g :: g in grants && Applies(r, g, subject, x.now, x.fn) && risk <= g.maxRisk
  }

  lemma {:induction false} MatchesAre(r: Request, grants: seq<Grant>, subject: string, risk: real, x: Context)
    ensures MatchingGrants(r, grants, subject, risk, x.now, x.fn) != [] <==> AnyApplies(r, grants, subject, risk, x)
  {
    if grants != [] {
      var front, last := grants[..|grants| - 1], grants[|grants| - 1];
      MatchesAre(r, front, subject, risk, x);
      assert grants == front + [last];
      if AnyApplies(r, grants, subject, risk, x) {
        var g :| g in grants && Applies(r, g, subject, x.now, x.fn) && risk <= g.maxRisk;
        assert g in front || g == last;
      }
    }
  }

  // The first thing that the project does not permit.
  ghost predicate ProjectRefuses(r: Request, x: Context, reason: string) {
    var p := x.project;
    var flow := CheckFlow(r, p.egressDestinations, p.exportableClassifications, "project");
    var known := x.identityVerified;
    var owned := known && r.resource == p.resource;
    var usual := owned && r.action in p.actions;
    var inside := usual && ScopeAllowed(r.path, p.scopes, x.fn);
    var placed := inside && r.environment in p.environments;
    var linked := placed && (r.networkDestination.Some? ==> r.networkDestination.value in p.networkDestinations);
    || (!known && reason == "identity_unverified")
    || (known && !owned && reason == "resource_outside_project_policy")
    || (owned && !usual && reason == "action_outside_project_policy")
    || (usual && !inside && reason == "scope_outside_project_policy")
    || (inside && !placed && reason == "environment_outside_project_policy")
    || (placed && !linked && reason == "network_destination_outside_project_policy")
    || (linked && flow == Some(reason))
  }

  // The decision names the risk and one reason, and a denial names no capability.
  lemma DecisionSays(r: Request, x: Context, risk: real)
    ensures
      var d := Evaluated(r, x, risk);
      && d.risk == risk && |d.reasons| == 1
      && (d.decision == RequireApproval ==> d.reasons == ["human_approval_required"])
      && (d.decision == Allow ==> d.reasons == ["all_security_predicates_satisfied"])
      && (d.decision == Deny ==> d.capabilityIds == [])
      && (!ProjectPermits(r, x) ==> ProjectRefuses(r, x, d.reasons[0]))
  {
    if !ProjectPermits(r, x) { ProjectErrorSays(r, x); }
  }

  lemma ProjectErrorSays(r: Request, x: Context)
    ensures ProjectError(r, x).None? <==> ProjectPermits(r, x)
    ensures ProjectError(r, x).Some? ==> ProjectRefuses(r, x, ProjectError(r, x).value)
  {
  }

  // Which of the grants' shortcomings a denial names, where the project permits the request.
  lemma DenialSays(r: Request, x: Context, risk: real)
    requires ProjectPermits(r, x)
    ensures
      var reasons := Evaluated(r, x, risk).reasons;
      var agent := AnyApplies(r, x.agentGrants, r.subject, risk, x);
      var carried := Carried(r, x.agentGrants, r.subject, risk, x);
      && (!agent ==> reasons == ["no_active_agent_capability"])
      && (agent && !carried ==> reasons == ["agent_capability_blocks_data_flow"])
      && (carried && HasTool(r) ==>
            var fits := AnyApplies(r, x.toolGrants, r.toolSubject.value, risk, x);
            && (!fits ==> reasons == ["tool_authority_does_not_intersect"])
            && (fits && !Carried(r, x.toolGrants, r.toolSubject.value, risk, x) ==>
                  reasons == ["tool_capability_blocks_data_flow"]))
  {
    ProjectErrorSays(r, x);
    MatchesAre(r, x.agentGrants, r.subject, risk, x);
    FlowMatchesIff(r, x.agentGrants, r.subject, risk, x);
    if HasTool(r) {
      MatchesAre(r, x.toolGrants, r.toolSubject.value, risk, x);
      FlowMatchesIff(r, x.toolGrants, r.toolSubject.value, risk, x);
    }
  }

  ghost function NotCarrying(r: Request, subject: string, risk: real, x: Context): Grant -> bool {
    g => !Carries(r, g, subject, risk, x)
  }

  // The grants that are chosen are those that carry the request, in order.
  lemma {:induction false} ChosenAreSifted(r: Request, grants: seq<Grant>, subject: string, risk: real, x: Context)
    ensures Sifted(grants, NotCarrying(r, subject, risk, x), Chosen(r, grants, subject, risk, x))
  {
    var drop := NotCarrying(r, subject, risk, x);
    if grants == [] {
      NothingSifted(drop);
    } else {
      var front, last := grants[..|grants| - 1], grants[|grants| - 1];
      ChosenAreSifted(r, front, subject, risk, x);
      ChosenOfMore(r, grants, subject, risk, x);
      assert grants == front + [last];
      assert drop(last) == !Carries(r, last, subject, risk, x);
      SiftOne(front, grants, drop, Chosen(r, front, subject, risk, x), Chosen(r, grants, subject, risk, x), last);
    }
  }

  // Otherwise it names the capabilities of the agent's grants that carry the request, in order, and then the tool's.
  lemma DecisionNamesCarriers(r: Request, x: Context, risk: real)
    requires Evaluated(r, x, risk).decision != Deny
    ensures Names(Evaluated(r, x, risk).capabilityIds, AgentChosen(r, x, risk), ToolChosen(r, x, risk))
  {
    IdsOfDecision(r, x, risk);
    SelectedAre(r, x, risk);
    IdsOfTwo(AgentChosen(r, x, risk), ToolChosen(r, x, risk));
  }

  predicate Names(ids: seq<string>, agent: seq<Grant>, tool: seq<Grant>) {
    && |ids| == |agent| + |tool|
    && (forall i :: 0 <= i < |agent| ==> ids[i] == agent[i].capabilityId)
    && (forall i :: 0 <= i < |tool| ==> ids[|agent| + i] == tool[i].capabilityId)
  }

  ghost function AgentChosen(r: Request, x: Context, risk: real): seq<Grant> {
    Chosen(r, x.agentGrants, r.subject, risk, x)
  }

  ghost function ToolChosen(r: Request, x: Context, risk: real): seq<Grant> {
    if r.toolSubject.Some? && r.toolSubject.value != "" then Chosen(r, x.toolGrants, r.toolSubject.value, risk, x) else []
  }

  lemma IdsOfDecision(r: Request, x: Context, risk: real)
    requires Evaluated(r, x, risk).decision != Deny
    ensures Evaluated(r, x, risk).capabilityIds == Ids(Selected(r, x, risk))
  {
  }

  lemma SelectedAre(r: Request, x: Context, risk: real)
    ensures Selected(r, x, risk) == AgentChosen(r, x, risk) + ToolChosen(r, x, risk)
  {
    assert WithFlow(r, []) == [];
  }

  lemma IdsOfTwo(a: seq<Grant>, b: seq<Grant>)
    ensures Names(Ids(a + b), a, b)
  {
  }

  // ----- Contraction of authority -----

  predicate Subsequence<T(==)>(s: seq<T>, t: seq<T>) {
    if s == [] then true
    else if t == [] then false
    else if s[|s| - 1] == t[|t| - 1] && Subsequence(s[..|s| - 1], t[..|t| - 1]) then true
    else Subsequence(s, t[..|t| - 1])
  }

  // As risk rises, the matching grants only fall away, in their order.
  lemma {:induction false} RiskShrinksMatches(
    r: Request, grants: seq<Grant>, subject: string, low: real, high: real, now: int, fn: SegmentMatcher)
    requires low <= high
    ensures Subsequence(MatchingGrants(r, grants, subject, high, now, fn), MatchingGrants(r, grants, subject, low, now, fn))
  {
    if grants != [] {
      var front, last := grants[..|grants| - 1], grants[|grants| - 1];
      var s := MatchingGrants(r, front, subject, high, now, fn);
      var t := MatchingGrants(r, front, subject, low, now, fn);
      RiskShrinksMatches(r, front, subject, low, high, now, fn);
      assert s + [] == s && t + [] == t;
      assert (s + [last])[..|s|] == s && (t + [last])[..|t|] == t;
    }
  }

  lemma RiskOnlyDenies(r: Request, x: Context, low: real, high: real)
    requires low <= high
    ensures Authorized(r, x, high) ==> Authorized(r, x, low)
  {
    if Authorized(r, x, high) {
      var g :| g in x.agentGrants && Carries(r, g, r.subject, high, x);
      assert Carries(r, g, r.subject, low, x);
      if HasTool(r) {
        var t :| t in x.toolGrants && Carries(r, t, r.toolSubject.value, high, x);
        assert Carries(r, t, r.toolSubject.value, low, x);
      }
    }
  }

  // DENY stays as risk rises; what is allowed at the higher risk is allowed at the lower one exactly when its
  // approval is settled there, in particular always with human approval.
  lemma RiskContractsAuthority(r: Request, x: Context, low: RiskVector, high: RiskVector)
    requires low.AtMost(high)
    ensures Evaluated(r, x, low.Maximum()).decision == Deny ==> Evaluated(r, x, high.Maximum()).decision == Deny
    ensures Evaluated(r, x, high.Maximum()).decision == Allow ==>
              (Evaluated(r, x, low.Maximum()).decision == Allow <==> Approved(r, x, low.Maximum()))
    ensures x.humanApproved && Evaluated(r, x, high.Maximum()).decision == Allow ==>
              Evaluated(r, x, low.Maximum()).decision == Allow
  {
    DecisionIff(r, x, low.Maximum());
    DecisionIff(r, x, high.Maximum());
    RiskOnlyDenies(r, x, low.Maximum(), high.Maximum());
  }

  // Without approval, ALLOW is not antitone: rising risk can drop a gated grant and with it the question.
  lemma RisingRiskCanAllow(fn: SegmentMatcher)
    returns (r: Request, x: Context, low: RiskVector, high: RiskVector)
    ensures low.AtMost(high)
    ensures Evaluated(r, x, low.Maximum()).decision == RequireApproval
    ensures Evaluated(r, x, high.Maximum()).decision == Allow
  {
    var project := ProjectPolicy("repo", {"read"}, ["*"], {"sandbox"}, {}, {}, {});
    var free := Grant("free", "agent", "repo", {"read"}, ["*"], {"sandbox"}, {}, {}, {}, 0, 10, 1.0, false);
    var gated := free.(capabilityId := "gated", maxRisk := 0.5, requiresHumanApproval := true);
    r := Request("agent", "read", "repo", "", "sandbox", None, None, None, None);
    x := Context(true, project, [free, gated], [], false, 5, fn);
    low, high := RiskVector(0.0, 0.0, 0.0, 0.0, 0.0), RiskVector(1.0, 0.0, 0.0, 0.0, 0.0);
    EmptyPathIsInUniversalScope(fn);
    assert x.agentGrants[0] == free && x.agentGrants[1] == gated;
    assert Carries(r, free, "agent", low.Maximum(), x) && Carries(r, free, "agent", high.Maximum(), x);
    assert Carries(r, gated, "agent", low.Maximum(), x) && !Carries(r, gated, "agent", high.Maximum(), x);
    DecisionIff(r, x, low.Maximum());
    DecisionIff(r, x, high.Maximum());
  }

  lemma EmptyPathIsInUniversalScope(fn: SegmentMatcher)
    ensures ScopeAllowed("", ["*"], fn)
  {
    assert Split("") == [""] && Kept([""][1..], false) == Ok([]);
    assert CanonicalPath("") == Ok("") && CanonicalScope(["*"][0]) == Ok("*");
    assert InScope("", CanonicalScope(["*"][0]).value, fn);
  }
}
