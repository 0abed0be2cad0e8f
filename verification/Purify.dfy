/** SanitasSwarm of core/aegis.py: its four searches and the substitutions of `purify`, each regular expression written
out as a scanner. */
module Purify {
  import opened Common

  // ----- The patterns -----

  predicate IsInvisible(c: char) {
    || '\U{200b}' <= c <= '\U{200d}' || c == '\U{2060}' || c == '\U{feff}' || c == '\U{00ad}' || c == '\U{034f}'
    || c == '\U{1160}' || c == '\U{17b4}' || c == '\U{17b5}' || c == '\U{180e}' || c == '\U{2028}' || c == '\U{2029}'
  }

  // What a letter of the tag names matches under re.IGNORECASE.
  function Folded(c: char): char {
    if 'A' <= c <= 'Z' then c - 'A' + 'a'
    else if c == '\U{0130}' || c == '\U{0131}' then 'i'
    else if c == '\U{017f}' then 's'
    else if c == '\U{212a}' then 'k'
    else c
  }

  predicate Spells(s: string, name: string) {
    |s| >= |name| && forall i :: 0 <= i < |name| ==> Folded(s[i]) == name[i]
  }

  const TAG_NAMES := ["script", "iframe", "object", "embed", "form", "input", "link", "meta", "style"]

  predicate StartsWithName(s: string) {
    exists k :: 0 <= k < |TAG_NAMES| && Spells(s, TAG_NAMES[k])
  }

  // <(script|...)[^>]*> matches at the beginning.
  predicate TagAtStart(s: string) {
    s != "" && s[0] == '<' && StartsWithName(s[1..]) && '>' in s
  }

  predicate IsBlank(c: char) {
    c == ' ' || c == '\t'
  }

  function LeadingBlanks(s: string): (n: nat)
    ensures n <= |s| && (n < |s| ==> !IsBlank(s[n]))
    ensures forall i :: 0 <= i < n ==> IsBlank(s[i])
  {
    if s == "" || !IsBlank(s[0]) then 0 else 1 + LeadingBlanks(s[1..])
  }

  // str.isspace, for one character
  predicate IsSpace(c: char) {
    || '\t' <= c <= '\r' || '\U{001c}' <= c <= '\U{001f}' || '\U{2000}' <= c <= '\U{200a}'
    || c == ' ' || c == '\U{0085}' || c == '\U{00a0}' || c == '\U{1680}' || c == '\U{2028}' || c == '\U{2029}'
    || c == '\U{202f}' || c == '\U{205f}' || c == '\U{3000}'
  }

  // The classes by code point.
  lemma BlankIff(c: char)
    ensures IsBlank(c) <==> c as int == 9 || c as int == 32
  {
  }

  lemma InvisibleIff(c: char)
    ensures IsInvisible(c) <==>
            c as int in [0xad, 0x34f, 0x1160, 0x17b4, 0x17b5, 0x180e, 0x200b, 0x200c, 0x200d, 0x2028, 0x2029, 0x2060,
                         0xfeff]
  {
  }

  lemma SpaceIff(c: char)
    ensures IsSpace(c) <==>
            c as int in [9, 10, 11, 12, 13, 28, 29, 30, 31, 32, 0x85, 0xa0, 0x1680, 0x2000, 0x2001, 0x2002, 0x2003,
                         0x2004, 0x2005, 0x2006, 0x2007, 0x2008, 0x2009, 0x200a, 0x2028, 0x2029, 0x202f, 0x205f,
                         0x3000]
  {
  }

  // ----- The four passes -----

  function DropInvisible(s: string): string {
    if s == "" then "" else (if IsInvisible(s[0]) then "" else [s[0]]) + DropInvisible(s[1..])
  }

  const MARK := "[EXPUNGED]"

  function AfterFirst(s: string, c: char): (rest: string)
    requires c in s
    ensures |rest| < |s| && rest == s[|s| - |rest|..]
  {
    if s[0] == c then s[1..] else AfterFirst(s[1..], c)
  }

  function Expunge(s: string): string
    decreases |s|
  {
    if s == "" then ""
    else if TagAtStart(s) then MARK + Expunge(AfterFirst(s, '>'))
    else [s[0]] + Expunge(s[1..])
  }

  function Squeeze(s: string): string
    decreases |s|
  {
    if s == "" then ""
    else
      var n := LeadingBlanks(s);
      if n == 0 then [s[0]] + Squeeze(s[1..])
      else (if n >= 5 then " " else s[..n]) + Squeeze(s[n..])
  }

  function TrimLeft(s: string): string {
    if s != "" && IsSpace(s[0]) then TrimLeft(s[1..]) else s
  }

  function TrimRight(s: string): string {
    if s != "" && IsSpace(s[|s| - 1]) then TrimRight(s[..|s| - 1]) else s
  }

  function Purified(payload: string): string {
    TrimRight(TrimLeft(Squeeze(Expunge(DropInvisible(payload)))))
  }

  // ----- What a clean text is -----

  predicate NothingInvisible(s: string) {
    forall i :: 0 <= i < |s| ==> !IsInvisible(s[i])
  }

  predicate TagFree(s: string) {
    forall i :: 0 <= i <= |s| ==> !TagAtStart(s[i..])
  }

  predicate RunFree(s: string) {
    forall i :: 0 <= i <= |s| ==> LeadingBlanks(s[i..]) < 5
  }

  predicate Trimmed(s: string) {
    s != "" ==> !IsSpace(s[0]) && !IsSpace(s[|s| - 1])
  }

  predicate Clean(s: string) {
    NothingInvisible(s) && TagFree(s) && RunFree(s) && Trimmed(s)
  }

  // ----- Invisible characters -----

  lemma {:induction false} DropInvisibleDrops(s: string)
    ensures NothingInvisible(DropInvisible(s))
  {
    if s != "" { DropInvisibleDrops(s[1..]); }
  }

  lemma {:induction false} DropInvisibleFixes(s: string)
    requires NothingInvisible(s)
    ensures DropInvisible(s) == s
  {
    if s != "" {
      assert !IsInvisible(s[0]);
      assert forall i :: 0 <= i < |s| - 1 ==> s[1..][i] == s[i + 1];
      DropInvisibleFixes(s[1..]);
    }
  }

  // No pass brings in a character, except the mark's own and the single space.
  lemma {:induction false} ExpungeBringsNothing(s: string, c: char)
    requires c !in MARK && c !in s
    ensures c !in Expunge(s)
    decreases |s|
  {
    if s != "" {
      if TagAtStart(s) { ExpungeBringsNothing(AfterFirst(s, '>'), c); } else { ExpungeBringsNothing(s[1..], c); }
    }
  }

  lemma {:induction false} SqueezeBringsNothing(s: string, c: char)
    requires !IsBlank(c) && c !in s
    ensures c !in Squeeze(s)
    decreases |s|
  {
    if s != "" {
      var n := LeadingBlanks(s);
      SqueezeBringsNothing(if n == 0 then s[1..] else s[n..], c);
    }
  }

  lemma {:induction false} PassesKeepVisible(s: string)
    requires NothingInvisible(s)
    ensures NothingInvisible(Expunge(s)) && NothingInvisible(Squeeze(s))
  {
    var e, q := Expunge(s), Squeeze(s);
    forall i | 0 <= i < |e| ensures !IsInvisible(e[i]) {
      if IsInvisible(e[i]) { ExpungeBringsNothing(s, e[i]); }
    }
    forall i | 0 <= i < |q| ensures !IsInvisible(q[i]) {
      if IsInvisible(q[i]) { SqueezeBringsNothing(s, q[i]); }
    }
  }

  // ----- Tags -----

  // A character that can stand in a tag name.
  predicate IsNameChar(c: char) {
    'a' <= Folded(c) <= 'z'
  }

  lemma NamesAreLetters(s: string, k: nat)
    requires k < |TAG_NAMES| && Spells(s, TAG_NAMES[k])
    ensures forall i :: 0 <= i < |TAG_NAMES[k]| ==> IsNameChar(s[i])
  {
    assert forall i :: 0 <= i < |TAG_NAMES[k]| ==> 'a' <= TAG_NAMES[k][i] <= 'z';
  }

  predicate AllNameChars(s: string) {
    forall i :: 0 <= i < |s| ==> IsNameChar(s[i])
  }

  lemma ExpungeHead(s: string)
    requires Expunge(s) != "" && IsNameChar(Expunge(s)[0])
    ensures s != "" && !TagAtStart(s)
  {
    assert !IsNameChar(MARK[0]);
  }

  lemma SqueezeHead(s: string)
    requires Squeeze(s) != "" && IsNameChar(Squeeze(s)[0])
    ensures s != "" && LeadingBlanks(s) == 0
  {
  }

  // Where the result of a pass begins with name characters, the input began with the same ones.
  lemma {:induction false} ExpungeKeepsName(s: string, n: nat)
    requires n <= |Expunge(s)| && AllNameChars(Expunge(s)[..n])
    ensures n <= |s| && s[..n] == Expunge(s)[..n]
    decreases |s|
  {
    if n > 0 {
      assert IsNameChar(Expunge(s)[..n][0]);
      ExpungeHead(s);
      NameStep(s, Expunge(s[1..]), n);
      ExpungeKeepsName(s[1..], n - 1);
    }
  }

  lemma {:induction false} SqueezeKeepsName(s: string, n: nat)
    requires n <= |Squeeze(s)| && AllNameChars(Squeeze(s)[..n])
    ensures n <= |s| && s[..n] == Squeeze(s)[..n]
    decreases |s|
  {
    if n > 0 {
      assert IsNameChar(Squeeze(s)[..n][0]);
      SqueezeHead(s);
      NameStep(s, Squeeze(s[1..]), n);
      SqueezeKeepsName(s[1..], n - 1);
    }
  }

  lemma NameStep(s: string, t: string, n: nat)
    requires s != "" && 0 < n <= |t| + 1
    ensures AllNameChars(([s[0]] + t)[..n]) ==> AllNameChars(t[..n - 1])
    ensures n <= |s| && s[1..][..n - 1] == t[..n - 1] ==> s[..n] == ([s[0]] + t)[..n]
  {
    ConsPrefix(s[0], t, n);
    assert s == [s[0]] + s[1..];
    if n <= |s| { ConsPrefix(s[0], s[1..], n); }
  }

  lemma ConsPrefix(c: char, t: string, n: nat)
    requires 0 < n <= |t| + 1
    ensures ([c] + t)[..n] == [c] + t[..n - 1]
    ensures AllNameChars(([c] + t)[..n]) ==> AllNameChars(t[..n - 1])
  {
    var whole, part := ([c] + t)[..n], t[..n - 1];
    assert whole == [c] + part;
    if AllNameChars(whole) {
      forall i | 0 <= i < n - 1 ensures IsNameChar(part[i]) {
        assert part[i] == whole[i + 1];
      }
    }
  }

  lemma SameNameAtStart(s: string, t: string, k: nat)
    requires k < |TAG_NAMES| && Spells(t, TAG_NAMES[k])
    requires |TAG_NAMES[k]| <= |s| && s[..|TAG_NAMES[k]|] == t[..|TAG_NAMES[k]|]
    ensures StartsWithName(s)
  {
    var n := |TAG_NAMES[k]|;
    forall i | 0 <= i < n ensures Folded(s[i]) == TAG_NAMES[k][i] {
      assert s[i] == s[..n][i] == t[..n][i] == t[i];
    }
    assert Spells(s, TAG_NAMES[k]);
  }

  // A `<` kept by a pass begins a tag afterwards only if it began one before.
  lemma ExpungeFormsNoTag(rest: string)
    requires TagAtStart("<" + Expunge(rest))
    ensures TagAtStart("<" + rest)
  {
    var t := Expunge(rest);
    assert ("<" + t)[1..] == t && ("<" + rest)[1..] == rest;
    var k :| 0 <= k < |TAG_NAMES| && Spells(t, TAG_NAMES[k]);
    NamesAreLetters(t, k);
    ExpungeKeepsName(rest, |TAG_NAMES[k]|);
    SameNameAtStart(rest, t, k);
    if '>' !in rest { ExpungeBringsNothing(rest, '>'); }
  }

  lemma {:induction false} SqueezeFormsNoTag(rest: string)
    requires TagAtStart("<" + Squeeze(rest))
    ensures TagAtStart("<" + rest)
  {
    var t := Squeeze(rest);
    assert ("<" + t)[1..] == t && ("<" + rest)[1..] == rest;
    var k :| 0 <= k < |TAG_NAMES| && Spells(t, TAG_NAMES[k]);
    NamesAreLetters(t, k);
    SqueezeKeepsName(rest, |TAG_NAMES[k]|);
    SameNameAtStart(rest, t, k);
    if '>' !in rest { SqueezeBringsNothing(rest, '>'); }
  }

  // Text in front that has no `<` adds no tag.
  lemma {:induction false} TagFreeAfter(front: string, s: string)
    requires TagFree(s) && '<' !in front
    ensures TagFree(front + s)
  {
    forall i | 0 <= i <= |front + s| ensures !TagAtStart((front + s)[i..]) {
      if i < |front| {
        assert (front + s)[i..][0] == front[i];
      } else {
        assert (front + s)[i..] == s[i - |front|..];
      }
    }
  }

  lemma TagFreeCons(c: char, s: string)
    requires TagFree(s) && !TagAtStart([c] + s)
    ensures TagFree([c] + s)
  {
    forall i | 0 <= i <= |s| + 1 ensures !TagAtStart(([c] + s)[i..]) {
      if i == 0 { assert ([c] + s)[0..] == [c] + s; } else { assert ([c] + s)[i..] == s[i - 1..]; }
    }
  }

  lemma TagOfPrefix(t: string, u: string)
    requires |t| <= |u| && u[..|t|] == t
    ensures TagAtStart(t) ==> TagAtStart(u)
  {
    if TagAtStart(t) {
      var k :| 0 <= k < |TAG_NAMES| && Spells(t[1..], TAG_NAMES[k]);
      assert u[1..][..|t| - 1] == t[1..];
      assert u[1..][..|TAG_NAMES[k]|] == t[1..][..|TAG_NAMES[k]|];
      SameNameAtStart(u[1..], t[1..], k);
    }
  }

  lemma {:induction false} TagFreeSlice(s: string, a: nat, b: nat)
    requires TagFree(s) && a <= b <= |s|
    ensures TagFree(s[a..b])
  {
    forall i | 0 <= i <= b - a ensures !TagAtStart(s[a..b][i..]) {
      assert s[a + i..][..b - a - i] == s[a..b][i..];
      TagOfPrefix(s[a..b][i..], s[a + i..]);
    }
  }

  lemma {:induction false} ExpungeLeavesNoTag(s: string)
    ensures TagFree(Expunge(s))
    decreases |s|
  {
    if s == "" {
    } else if TagAtStart(s) {
      ExpungeLeavesNoTag(AfterFirst(s, '>'));
      TagFreeAfter(MARK, Expunge(AfterFirst(s, '>')));
    } else {
      ExpungeLeavesNoTag(s[1..]);
      assert [s[0]] + s[1..] == s;
      if s[0] == '<' && TagAtStart("<" + Expunge(s[1..])) { ExpungeFormsNoTag(s[1..]); }
      TagFreeCons(s[0], Expunge(s[1..]));
    }
  }

  lemma {:induction false} ExpungeFixes(s: string)
    requires TagFree(s)
    ensures Expunge(s) == s
  {
    if s != "" {
      assert s[0..] == s;
      TagFreeSlice(s, 1, |s|);
      assert s[1..|s|] == s[1..];
      ExpungeFixes(s[1..]);
    }
  }

  lemma {:induction false} SqueezeFormsNoTags(s: string)
    requires TagFree(s)
    ensures TagFree(Squeeze(s))
    decreases |s|
  {
    if s != "" {
      var n := LeadingBlanks(s);
      if n == 0 {
        TagFreeSlice(s, 1, |s|);
        assert s[1..|s|] == s[1..] && s[0..] == s && [s[0]] + s[1..] == s;
        SqueezeFormsNoTags(s[1..]);
        if s[0] == '<' && TagAtStart("<" + Squeeze(s[1..])) { SqueezeFormsNoTag(s[1..]); }
        TagFreeCons(s[0], Squeeze(s[1..]));
      } else {
        TagFreeSlice(s, n, |s|);
        assert s[n..|s|] == s[n..];
        SqueezeFormsNoTags(s[n..]);
        TagFreeAfter(if n >= 5 then " " else s[..n], Squeeze(s[n..]));
      }
    }
  }

  // ----- Runs of blanks -----

  lemma {:induction false} LeadingBlanksOf(front: string, s: string)
    requires forall i :: 0 <= i < |front| ==> IsBlank(front[i])
    requires s == "" || !IsBlank(s[0])
    ensures LeadingBlanks(front + s) == |front|
  {
    if front == "" {
      assert front + s == s;
    } else {
      assert (front + s)[1..] == front[1..] + s;
      LeadingBlanksOf(front[1..], s);
    }
  }

  lemma SqueezeStartsSolid(s: string)
    requires s == "" || !IsBlank(s[0])
    ensures Squeeze(s) == "" || !IsBlank(Squeeze(s)[0])
  {
  }

  lemma RunFreeAfter(front: string, s: string)
    requires RunFree(s) && |front| < 5 && forall i :: 0 <= i < |front| ==> IsBlank(front[i])
    requires s == "" || !IsBlank(s[0])
    ensures RunFree(front + s)
  {
    forall i | 0 <= i <= |front + s| ensures LeadingBlanks((front + s)[i..]) < 5 {
      RunFreeAfterAt(front, s, i);
    }
  }

  lemma RunFreeAfterAt(front: string, s: string, i: nat)
    requires RunFree(s) && |front| < 5 && forall i :: 0 <= i < |front| ==> IsBlank(front[i])
    requires (s == "" || !IsBlank(s[0])) && i <= |front + s|
    ensures LeadingBlanks((front + s)[i..]) < 5
  {
    if i < |front| {
      assert (front + s)[i..] == front[i..] + s;
      LeadingBlanksOf(front[i..], s);
    } else {
      assert (front + s)[i..] == s[i - |front|..];
    }
  }

  lemma RunFreeCons(c: char, s: string)
    requires RunFree(s) && !IsBlank(c)
    ensures RunFree([c] + s)
  {
    forall i | 0 <= i <= |s| + 1 ensures LeadingBlanks(([c] + s)[i..]) < 5 {
      if i > 0 { assert ([c] + s)[i..] == s[i - 1..]; }
    }
  }

  lemma {:induction false} SqueezeLeavesNoRun(s: string)
    ensures RunFree(Squeeze(s))
    decreases |s|
  {
    if s != "" {
      var n := LeadingBlanks(s);
      if n == 0 {
        SqueezeLeavesNoRun(s[1..]);
        RunFreeCons(s[0], Squeeze(s[1..]));
      } else {
        SqueezeLeavesNoRun(s[n..]);
        SqueezeStartsSolid(s[n..]);
        RunFreeAfter(if n >= 5 then " " else s[..n], Squeeze(s[n..]));
      }
    }
  }

  lemma RunFreeTail(s: string, k: nat)
    requires RunFree(s) && k <= |s|
    ensures RunFree(s[k..])
  {
    forall i | 0 <= i <= |s| - k ensures LeadingBlanks(s[k..][i..]) < 5 {
      assert s[k..][i..] == s[k + i..];
    }
  }

  lemma {:induction false} LeadingBlanksOfPrefix(s: string, b: nat)
    requires b <= |s|
    ensures LeadingBlanks(s[..b]) <= LeadingBlanks(s)
  {
    if b > 0 {
      assert s[..b][1..] == s[1..][..b - 1];
      LeadingBlanksOfPrefix(s[1..], b - 1);
    }
  }

  lemma RunFreeHead(s: string, b: nat)
    requires RunFree(s) && b <= |s|
    ensures RunFree(s[..b])
  {
    forall i | 0 <= i <= b ensures LeadingBlanks(s[..b][i..]) < 5 {
      assert s[..b][i..] == s[i..][..b - i];
      LeadingBlanksOfPrefix(s[i..], b - i);
    }
  }

  lemma SqueezeKeepsShortRun(s: string) returns (k: nat)
    requires s != "" && LeadingBlanks(s) < 5
    ensures 0 < k <= |s| && Squeeze(s) == s[..k] + Squeeze(s[k..])
  {
    var n := LeadingBlanks(s);
    if n == 0 {
      k := 1;
      assert s[..1] == [s[0]];
    } else {
      k := n;
    }
  }

  lemma Reassemble(s: string, k: nat)
    requires k <= |s|
    ensures s[..k] + s[k..] == s
  {
  }

  lemma {:induction false} SqueezeFixes(s: string)
    requires RunFree(s)
    ensures Squeeze(s) == s
    decreases |s|
  {
    if s != "" {
      assert LeadingBlanks(s) < 5 by { assert s[0..] == s; }
      var k := SqueezeKeepsShortRun(s);
      RunFreeTail(s, k);
      SqueezeFixes(s[k..]);
      Reassemble(s, k);
    }
  }

  // ----- Trimming -----

  lemma {:induction false} TrimLeftIsTail(s: string) returns (k: nat)
    ensures k <= |s| && TrimLeft(s) == s[k..]
    ensures TrimLeft(s) != "" ==> !IsSpace(TrimLeft(s)[0])
  {
    if s != "" && IsSpace(s[0]) {
      var j := TrimLeftIsTail(s[1..]);
      k := j + 1;
    } else {
      k := 0;
    }
  }

  lemma {:induction false} TrimRightIsHead(s: string) returns (b: nat)
    ensures b <= |s| && TrimRight(s) == s[..b]
    ensures TrimRight(s) != "" ==> !IsSpace(TrimRight(s)[|TrimRight(s)| - 1])
  {
    if s != "" && IsSpace(s[|s| - 1]) {
      b := TrimRightIsHead(s[..|s| - 1]);
      assert s[..|s| - 1][..b] == s[..b];
    } else {
      b := |s|;
    }
  }

  lemma TrimmingKeepsClean(s: string)
    requires NothingInvisible(s) && TagFree(s) && RunFree(s)
    ensures Clean(TrimRight(TrimLeft(s)))
  {
    var k := TrimLeftIsTail(s);
    var left := s[k..];
    TagFreeSlice(s, k, |s|);
    assert s[k..|s|] == left;
    RunFreeTail(s, k);
    var b := TrimRightIsHead(left);
    TagFreeSlice(left, 0, b);
    assert left[0..b] == left[..b];
    RunFreeHead(left, b);
  }

  // ----- The main results -----

  // The output has no invisible character, no complete listed tag, no run of five blanks and no outer space.
  lemma PurifiedIsClean(payload: string)
    ensures Clean(Purified(payload))
  {
    var visible := DropInvisible(payload);
    DropInvisibleDrops(payload);
    PassesKeepVisible(visible);
    ExpungeLeavesNoTag(visible);
    var expunged := Expunge(visible);
    PassesKeepVisible(expunged);
    SqueezeFormsNoTags(expunged);
    SqueezeLeavesNoRun(expunged);
    TrimmingKeepsClean(Squeeze(expunged));
  }

  // Exactly the clean texts are left alone.
  lemma PurifyFixesIffClean(payload: string)
    ensures Purified(payload) == payload <==> Clean(payload)
  {
    PurifiedIsClean(payload);
    if Clean(payload) {
      DropInvisibleFixes(payload);
      ExpungeFixes(payload);
      SqueezeFixes(payload);
    }
  }

  lemma PurifyIsIdempotent(payload: string)
    ensures Purified(Purified(payload)) == Purified(payload)
  {
    PurifiedIsClean(payload);
    PurifyFixesIffClean(Purified(payload));
  }

  // ----- What is kept -----

  // A stretch of the visible text.
  datatype Piece = Tag(text: string) | Blanks(text: string) | Other(c: char)

  function TextOf(p: Piece): string {
    match p
    case Tag(text) => text
    case Blanks(text) => text
    case Other(c) => [c]
  }

  // What stands for it in the end.
  function ShownAs(p: Piece): string {
    match p
    case Tag(_) => "[EXPUNGED]"
    case Blanks(text) => if |text| >= 5 then " " else text
    case Other(c) => [c]
  }

  function Whole(pieces: seq<Piece>): string {
    if pieces == [] then "" else TextOf(pieces[0]) + Whole(pieces[1..])
  }

  function Shown(pieces: seq<Piece>): string {
    if pieces == [] then "" else ShownAs(pieces[0]) + Shown(pieces[1..])
  }

  // From `<` and a listed name up to the first `>`.
  predicate IsWholeTag(t: string) {
    |t| >= 2 && t[0] == '<' && StartsWithName(t[1..]) && t[|t| - 1] == '>' && '>' !in t[..|t| - 1]
  }

  // A tag, a maximal run of blanks, or one other character at which no tag begins.
  predicate Fits(p: Piece, rest: seq<Piece>) {
    match p
    case Tag(text) => IsWholeTag(text)
    case Blanks(text) =>
      text != "" && (forall i :: 0 <= i < |text| ==> IsBlank(text[i])) && (rest != [] ==> !rest[0].Blanks?)
    case Other(c) => !IsBlank(c) && !TagAtStart([c] + Whole(rest))
  }

  predicate IsCut(pieces: seq<Piece>) {
    pieces != [] ==> Fits(pieces[0], pieces[1..]) && IsCut(pieces[1..])
  }

  // What is left of a text when the space around it goes.
  predicate IsTrimAt(s: string, a: nat, b: nat) {
    && a <= b <= |s|
    && (forall i :: 0 <= i < |s| && (i < a || b <= i) ==> IsSpace(s[i]))
    && Trimmed(s[a..b])
  }

  ghost predicate IsTrimOf(r: string, s: string) {
    exists a, b :: 0 <= a <= b <= |s| && IsTrimAt(s, a, b) && r == s[a..b]
  }

  const INVISIBLE := (c: char) => IsInvisible(c)

  // The visible characters, cut into pieces; the pieces as they are shown, trimmed.
  ghost predicate Shows(payload: string, r: string, visible: string, pieces: seq<Piece>) {
    Sifted(payload, INVISIBLE, visible) && Whole(pieces) == visible && IsCut(pieces) && IsTrimOf(r, Shown(pieces))
  }

  // The first piece of a text, and how much of the text it takes.
  function HeadLength(s: string): (n: nat)
    requires s != ""
    ensures 0 < n <= |s|
  {
    if TagAtStart(s) then |s| - |AfterFirst(s, '>')|
    else if IsBlank(s[0]) then LeadingBlanks(s)
    else 1
  }

  function HeadPiece(s: string): Piece
    requires s != ""
  {
    var text := s[..HeadLength(s)];
    if TagAtStart(s) then Tag(text) else if IsBlank(s[0]) then Blanks(text) else Other(s[0])
  }

  // The cut of a text.
  function Pieces(s: string): seq<Piece>
    decreases |s|
  {
    if s == "" then [] else [HeadPiece(s)] + Pieces(s[HeadLength(s)..])
  }

  lemma WholeCons(p: Piece, rest: seq<Piece>)
    ensures Whole([p] + rest) == TextOf(p) + Whole(rest) && Shown([p] + rest) == ShownAs(p) + Shown(rest)
    ensures IsCut([p] + rest) <==> Fits(p, rest) && IsCut(rest)
  {
    assert ([p] + rest)[1..] == rest;
  }

  lemma HeadIsPrefix(s: string)
    requires s != ""
    ensures TextOf(HeadPiece(s)) == s[..HeadLength(s)]
  {
  }

  lemma {:induction false} AfterFirstIsFirst(s: string, c: char)
    requires c in s
    ensures
      var n := |s| - |AfterFirst(s, c)|;
      n > 0 && s[n - 1] == c && c !in s[..n - 1]
  {
    if s[0] != c {
      var rest := s[1..];
      assert s == [s[0]] + rest;
      AfterFirstIsFirst(rest, c);
      FirstOfMore(s[0], rest, c, |rest| - |AfterFirst(rest, c)|);
    }
  }

  lemma FirstOfMore(x: char, s: string, c: char, n: nat)
    requires x != c && 0 < n <= |s| && s[n - 1] == c && c !in s[..n - 1]
    ensures ([x] + s)[n] == c && c !in ([x] + s)[..n]
  {
    assert ([x] + s)[..n] == [x] + s[..n - 1];
  }

  lemma TagIsWhole(s: string, n: nat)
    requires TagAtStart(s) && 0 < n <= |s| && s[n - 1] == '>' && '>' !in s[..n - 1]
    ensures IsWholeTag(s[..n])
  {
    var t := s[..n];
    var k :| 0 <= k < |TAG_NAMES| && Spells(s[1..], TAG_NAMES[k]);
    NamesAreLetters(s[1..], k);
    NameEndsBefore(s, k, n);
    assert t[..n - 1] == s[..n - 1];
    SameNameAtStart(t[1..], s[1..], k);
  }

  // The `>` comes after the name.
  lemma NameEndsBefore(s: string, k: nat, n: nat)
    requires s != "" && k < |TAG_NAMES| && Spells(s[1..], TAG_NAMES[k])
    requires forall i :: 0 <= i < |TAG_NAMES[k]| ==> IsNameChar(s[1..][i])
    requires s[0] == '<' && 0 < n <= |s| && s[n - 1] == '>'
    ensures n >= 2 && |TAG_NAMES[k]| <= n - 1 && s[..n][1..][..|TAG_NAMES[k]|] == s[1..][..|TAG_NAMES[k]|]
  {
    assert forall i :: 0 <= i < |TAG_NAMES[k]| ==> s[1..][i] != '>';
    assert n >= 2 && s[1..][n - 2] == '>';
  }

  lemma {:induction false} PiecesAreWhole(s: string)
    ensures Whole(Pieces(s)) == s
    decreases |s|
  {
    if s != "" {
      var n := HeadLength(s);
      PiecesAreWhole(s[n..]);
      WholeCons(HeadPiece(s), Pieces(s[n..]));
      HeadIsPrefix(s);
      Reassemble(s, n);
    }
  }

  lemma PiecesStartSolid(s: string)
    requires s == "" || !IsBlank(s[0])
    ensures Pieces(s) == [] || !Pieces(s)[0].Blanks?
  {
  }

  lemma HeadFits(s: string)
    requires s != ""
    ensures Fits(HeadPiece(s), Pieces(s[HeadLength(s)..]))
  {
    if TagAtStart(s) {
      TagFits(s);
    } else if IsBlank(s[0]) {
      BlanksFit(s, HeadLength(s));
    } else {
      OtherFits(s);
    }
  }

  lemma TagFits(s: string)
    requires TagAtStart(s)
    ensures HeadPiece(s).Tag? && IsWholeTag(HeadPiece(s).text)
  {
    AfterFirstIsFirst(s, '>');
    TagIsWhole(s, HeadLength(s));
  }

  lemma BlanksFit(s: string, n: nat)
    requires s != "" && n == LeadingBlanks(s) && n > 0
    ensures Fits(Blanks(s[..n]), Pieces(s[n..]))
  {
    PiecesStartSolid(s[n..]);
  }

  lemma OtherFits(s: string)
    requires s != "" && !TagAtStart(s) && !IsBlank(s[0])
    ensures Fits(Other(s[0]), Pieces(s[1..]))
  {
    PiecesAreWhole(s[1..]);
    assert [s[0]] + s[1..] == s;
  }

  lemma {:induction false} PiecesAreCut(s: string)
    ensures IsCut(Pieces(s))
    decreases |s|
  {
    if s != "" {
      var n := HeadLength(s);
      PiecesAreCut(s[n..]);
      HeadFits(s);
      WholeCons(HeadPiece(s), Pieces(s[n..]));
    }
  }

  lemma {:induction false} SqueezeSolid(front: string, s: string)
    requires forall i :: 0 <= i < |front| ==> !IsBlank(front[i])
    ensures Squeeze(front + s) == front + Squeeze(s)
  {
    if front == "" {
      assert front + s == s;
    } else {
      assert (front + s)[1..] == front[1..] + s;
      SqueezeSolid(front[1..], s);
      assert front == [front[0]] + front[1..];
    }
  }

  lemma {:induction false} ExpungeKeepsBlanks(blanks: string, s: string)
    requires forall i :: 0 <= i < |blanks| ==> IsBlank(blanks[i])
    ensures Expunge(blanks + s) == blanks + Expunge(s)
  {
    if blanks == "" {
      assert blanks + s == s;
    } else {
      var more := blanks[1..];
      ExpungeKeepsBlanks(more, s);
      assert (blanks + s)[1..] == more + s && (blanks + s)[0] == blanks[0];
      Glue(blanks, Expunge(s));
    }
  }

  lemma Glue(a: string, b: string)
    requires a != ""
    ensures [a[0]] + (a[1..] + b) == a + b
  {
    assert a == [a[0]] + a[1..];
  }

  lemma ExpungeStartsSolid(s: string)
    requires s == "" || !IsBlank(s[0])
    ensures Expunge(s) == "" || !IsBlank(Expunge(s)[0])
  {
  }

  lemma SqueezeRun(front: string, s: string)
    requires front != "" && forall i :: 0 <= i < |front| ==> IsBlank(front[i])
    requires s == "" || !IsBlank(s[0])
    ensures Squeeze(front + s) == (if |front| >= 5 then " " else front) + Squeeze(s)
  {
    LeadingBlanksOf(front, s);
    assert (front + s)[..|front|] == front && (front + s)[|front|..] == s;
  }

  // What the two passes make of the first piece.
  lemma TagIsShown(s: string)
    requires TagAtStart(s)
    ensures Squeeze(Expunge(s)) == MARK + Squeeze(Expunge(AfterFirst(s, '>')))
  {
    SqueezeSolid(MARK, Expunge(AfterFirst(s, '>')));
  }

  lemma BlanksAreShown(blanks: string, s: string)
    requires blanks != "" && forall i :: 0 <= i < |blanks| ==> IsBlank(blanks[i])
    requires s == "" || !IsBlank(s[0])
    ensures Squeeze(Expunge(blanks + s)) == (if |blanks| >= 5 then " " else blanks) + Squeeze(Expunge(s))
  {
    ExpungeKeepsBlanks(blanks, s);
    ExpungeStartsSolid(s);
    SqueezeRun(blanks, Expunge(s));
  }

  lemma OtherIsShown(s: string)
    requires s != "" && !TagAtStart(s) && !IsBlank(s[0])
    ensures Squeeze(Expunge(s)) == [s[0]] + Squeeze(Expunge(s[1..]))
  {
    SqueezeSolid([s[0]], Expunge(s[1..]));
  }

  lemma HeadIsShown(s: string)
    requires s != ""
    ensures Squeeze(Expunge(s)) == ShownAs(HeadPiece(s)) + Squeeze(Expunge(s[HeadLength(s)..]))
  {
    var n := HeadLength(s);
    if TagAtStart(s) {
      TagIsShown(s);
    } else if IsBlank(s[0]) {
      Reassemble(s, n);
      BlanksAreShown(s[..n], s[n..]);
    } else {
      OtherIsShown(s);
    }
  }

  lemma {:induction false} PiecesAreShown(s: string)
    ensures Shown(Pieces(s)) == Squeeze(Expunge(s))
    decreases |s|
  {
    if s != "" {
      var n := HeadLength(s);
      PiecesAreShown(s[n..]);
      HeadIsShown(s);
      WholeCons(HeadPiece(s), Pieces(s[n..]));
    }
  }

  lemma {:induction false} VisibleAreSifted(s: string)
    ensures Sifted(s, INVISIBLE, DropInvisible(s))
  {
    if s == "" {
      NothingSifted(INVISIBLE);
    } else {
      var front, c := s[..|s| - 1], s[|s| - 1];
      assert s == front + [c];
      VisibleAreSifted(front);
      DropInvisibleOfMore(front, c);
      assert INVISIBLE(c) == IsInvisible(c);
      SiftOne(front, s, INVISIBLE, DropInvisible(front), DropInvisible(s), c);
    }
  }

  lemma {:induction false} DropInvisibleOfMore(s: string, c: char)
    ensures DropInvisible(s + [c]) == DropInvisible(s) + if IsInvisible(c) then [] else [c]
  {
    if s == "" {
      assert ("" + [c])[1..] == "";
    } else {
      var rest := DropInvisible(s[1..]);
      var last := if IsInvisible(c) then [] else [c];
      assert (s + [c])[1..] == s[1..] + [c];
      DropInvisibleOfMore(s[1..], c);
      assert (if IsInvisible(s[0]) then [] else [s[0]]) + (rest + last) ==
             (if IsInvisible(s[0]) then [] else [s[0]]) + rest + last;
    }
  }

  lemma {:induction false} TrimLeftDropsSpace(s: string)
    ensures |TrimLeft(s)| <= |s| && TrimLeft(s) == s[|s| - |TrimLeft(s)|..]
    ensures forall i :: 0 <= i < |s| - |TrimLeft(s)| ==> IsSpace(s[i])
  {
    if s != "" && IsSpace(s[0]) { TrimLeftDropsSpace(s[1..]); }
  }

  lemma {:induction false} TrimRightDropsSpace(s: string)
    ensures |TrimRight(s)| <= |s| && TrimRight(s) == s[..|TrimRight(s)|]
    ensures forall i :: |TrimRight(s)| <= i < |s| ==> IsSpace(s[i])
  {
    if s != "" && IsSpace(s[|s| - 1]) {
      TrimRightDropsSpace(s[..|s| - 1]);
      assert s[..|s| - 1][..|TrimRight(s)|] == s[..|TrimRight(s)|];
    }
  }

  lemma TrimIsTrim(s: string)
    ensures IsTrimOf(TrimRight(TrimLeft(s)), s)
  {
    var left := TrimLeft(s);
    var r := TrimRight(left);
    var k := TrimLeftIsTail(s);
    var m := TrimRightIsHead(left);
    TrimLeftDropsSpace(s);
    TrimRightDropsSpace(left);
    TrimAt(s, left, r);
  }

  lemma TrimAt(s: string, left: string, r: string)
    requires |left| <= |s| && left == s[|s| - |left|..] && |r| <= |left| && r == left[..|r|]
    requires forall i :: 0 <= i < |s| - |left| ==> IsSpace(s[i])
    requires forall i :: |r| <= i < |left| ==> IsSpace(left[i])
    requires (left != "" ==> !IsSpace(left[0])) && (r != "" ==> !IsSpace(r[|r| - 1]))
    ensures IsTrimOf(r, s)
  {
    var a := |s| - |left|;
    var b := a + |r|;
    assert s[a..b] == r;
    forall i | 0 <= i < |s| && (i < a || b <= i) ensures IsSpace(s[i]) {
      if i >= b { assert s[i] == left[i - a]; }
    }
    assert IsTrimAt(s, a, b);
  }

  lemma TrimIsUnique(s: string, a: nat, b: nat, a': nat, b': nat)
    requires IsTrimAt(s, a, b) && IsTrimAt(s, a', b')
    ensures s[a..b] == s[a'..b']
  {
    var r, r' := s[a..b], s[a'..b'];
    if a < b { NotSpace(s, a, b); }
    if a' < b' { NotSpace(s, a', b'); }
  }

  lemma NotSpace(s: string, a: nat, b: nat)
    requires IsTrimAt(s, a, b) && a < b
    ensures !IsSpace(s[a]) && !IsSpace(s[b - 1])
  {
    assert s[a..b][0] == s[a] && s[a..b][b - a - 1] == s[b - 1];
  }

  // There is one cut only.
  lemma {:induction false} CutIsUnique(pieces: seq<Piece>)
    requires IsCut(pieces)
    ensures pieces == Pieces(Whole(pieces))
  {
    if pieces != [] {
      var first, rest := pieces[0], pieces[1..];
      CutIsUnique(rest);
      assert pieces == [first] + rest;
      WholeCons(first, rest);
      FirstIsHead(first, rest);
    }
  }

  lemma FirstIsHead(first: Piece, rest: seq<Piece>)
    requires Fits(first, rest) && IsCut(rest)
    ensures
      var s := TextOf(first) + Whole(rest);
      s != "" && HeadPiece(s) == first && s[HeadLength(s)..] == Whole(rest)
  {
    var s, n := TextOf(first) + Whole(rest), |TextOf(first)|;
    assert s[..n] == TextOf(first) && s[n..] == Whole(rest);
    match first
    case Tag(text) => TagComesFirst(text, Whole(rest));
    case Blanks(text) =>
      CutStartsSolid(rest);
      LeadingBlanksOf(text, Whole(rest));
      assert IsBlank(s[0]);
    case Other(c) =>
  }

  lemma CutStartsSolid(pieces: seq<Piece>)
    requires IsCut(pieces) && (pieces != [] ==> !pieces[0].Blanks?)
    ensures Whole(pieces) == "" || !IsBlank(Whole(pieces)[0])
  {
  }

  lemma TagComesFirst(text: string, rest: string)
    requires IsWholeTag(text)
    ensures TagAtStart(text + rest) && AfterFirst(text + rest, '>') == rest
  {
    TagGoesOn(text, rest);
    CloseComesFirst(text, rest);
  }

  lemma TagGoesOn(text: string, rest: string)
    requires IsWholeTag(text)
    ensures TagAtStart(text + rest)
  {
    var s, n := text + rest, |text|;
    assert s[n - 1] == '>';
    var k :| 0 <= k < |TAG_NAMES| && Spells(text[1..], TAG_NAMES[k]);
    assert s[1..][..n - 1] == text[1..];
    assert s[1..][..|TAG_NAMES[k]|] == text[1..][..|TAG_NAMES[k]|];
    SameNameAtStart(s[1..], text[1..], k);
  }

  lemma CloseComesFirst(text: string, rest: string)
    requires text != "" && text[|text| - 1] == '>' && '>' !in text[..|text| - 1]
    ensures '>' in text + rest && AfterFirst(text + rest, '>') == rest
  {
    var s, n := text + rest, |text|;
    assert s[n - 1] == '>' && s[..n - 1] == text[..n - 1];
    AfterFirstIsFirst(s, '>');
    FirstIsUnique(s, '>', n, |s| - |AfterFirst(s, '>')|);
    assert s[n..] == rest;
  }

  lemma FirstIsUnique(s: string, c: char, m: nat, n: nat)
    requires 0 < m <= |s| && s[m - 1] == c && c !in s[..m - 1]
    requires 0 < n <= |s| && s[n - 1] == c && c !in s[..n - 1]
    ensures m == n
  {
    var i: nat, j: nat := m - 1, n - 1;
    if i < j { OccursIn(s, i, j); }
    if j < i { OccursIn(s, j, i); }
  }

  lemma OccursIn(s: string, i: nat, n: nat)
    requires i < n <= |s|
    ensures s[i] in s[..n]
  {
    assert s[..n][i] == s[i];
  }

  // The result is exactly this: the visible text cut into tags, maximal runs of blanks and other characters; in their
  // order "[EXPUNGED]" for each tag, one space for each run of five or more, and all else as it is; trimmed.
  lemma PurifiedIff(payload: string, r: string)
    ensures r == Purified(payload) <==> exists visible, pieces :: Shows(payload, r, visible, pieces)
  {
    var v := DropInvisible(payload);
    VisibleAreSifted(payload);
    PiecesAreWhole(v);
    PiecesAreCut(v);
    PiecesAreShown(v);
    TrimIsTrim(Shown(Pieces(v)));
    assert Shows(payload, Purified(payload), v, Pieces(v));
    if exists visible, pieces :: Shows(payload, r, visible, pieces) {
      var visible, pieces :| Shows(payload, r, visible, pieces);
      SiftedIsUnique(payload, INVISIBLE, visible, v);
      CutIsUnique(pieces);
      OneTrim(r, Purified(payload), Shown(pieces));
    }
  }

  lemma OneTrim(r: string, r': string, s: string)
    requires IsTrimOf(r, s) && IsTrimOf(r', s)
    ensures r == r'
  {
    var a, b :| 0 <= a <= b <= |s| && IsTrimAt(s, a, b) && r == s[a..b];
    var a', b' :| 0 <= a' <= b' <= |s| && IsTrimAt(s, a', b') && r' == s[a'..b'];
    TrimIsUnique(s, a, b, a', b');
  }

  // ----- The listed names -----

  // A character that stands for a small letter, whatever its case.
  predicate StandsFor(c: char, letter: char) {
    || c == letter || ('A' <= c <= 'Z' && c - 'A' + 'a' == letter)
    || (letter == 'i' && (c == '\U{0130}' || c == '\U{0131}'))
    || (letter == 's' && c == '\U{017f}') || (letter == 'k' && c == '\U{212a}')
  }

  predicate BeginsAs(s: string, name: string)
    requires forall i :: 0 <= i < |name| ==> 'a' <= name[i] <= 'z'
  {
    |s| >= |name| && forall i :: 0 <= i < |name| ==> StandsFor(s[i], name[i])
  }

  lemma SpellsIff(s: string, name: string)
    requires forall i :: 0 <= i < |name| ==> 'a' <= name[i] <= 'z'
    ensures Spells(s, name) <==> BeginsAs(s, name)
  {
    forall i | 0 <= i < |name| && i < |s| ensures Folded(s[i]) == name[i] <==> StandsFor(s[i], name[i]) {
    }
  }

  // A tag has one of nine names, in any case.
  lemma StartsWithNameIff(s: string)
    ensures StartsWithName(s) <==>
            || BeginsAs(s, "script") || BeginsAs(s, "iframe") || BeginsAs(s, "object") || BeginsAs(s, "embed")
            || BeginsAs(s, "form") || BeginsAs(s, "input") || BeginsAs(s, "link") || BeginsAs(s, "meta")
            || BeginsAs(s, "style")
  {
    SpellsIff(s, "script");
    SpellsIff(s, "iframe");
    SpellsIff(s, "object");
    SpellsIff(s, "embed");
    SpellsIff(s, "form");
    SpellsIff(s, "input");
    SpellsIff(s, "link");
    SpellsIff(s, "meta");
    SpellsIff(s, "style");
    NamesInOrder();
    if StartsWithName(s) {
      var k :| 0 <= k < |TAG_NAMES| && Spells(s, TAG_NAMES[k]);
    }
    forall k | 0 <= k < |TAG_NAMES| && Spells(s, TAG_NAMES[k]) ensures StartsWithName(s) {
    }
  }

  lemma NamesInOrder()
    ensures |TAG_NAMES| == 9
    ensures TAG_NAMES[0] == "script" && TAG_NAMES[1] == "iframe" && TAG_NAMES[2] == "object"
    ensures TAG_NAMES[3] == "embed" && TAG_NAMES[4] == "form" && TAG_NAMES[5] == "input"
    ensures TAG_NAMES[6] == "link" && TAG_NAMES[7] == "meta" && TAG_NAMES[8] == "style"
  {
  }

  // ----- The searches -----

  predicate IsHomoglyph(c: char) {
    '\U{0430}' <= c <= '\U{044f}' || c == '\U{0451}' || '\U{0410}' <= c <= '\U{042f}' || c == '\U{0401}'
  }

  predicate IsBase64(c: char) {
    'A' <= c <= 'Z' || 'a' <= c <= 'z' || '0' <= c <= '9' || c == '+' || c == '/'
  }

  predicate BlobAt(s: string, i: nat) {
    i + 60 <= |s| && forall j :: i <= j < i + 60 ==> IsBase64(s[j])
  }

  predicate HasBlob(s: string) {
    exists i :: 0 <= i < |s| && BlobAt(s, i)
  }

  // Cyrillic letters, and the characters of Base64, by code point.
  lemma HomoglyphIff(c: char)
    ensures IsHomoglyph(c) <==> 0x410 <= c as int <= 0x44f || c as int == 0x401 || c as int == 0x451
  {
  }

  lemma Base64Iff(c: char)
    ensures IsBase64(c) <==>
            48 <= c as int <= 57 || 65 <= c as int <= 90 || 97 <= c as int <= 122 || c as int == 43 || c as int == 47
  {
  }

  predicate IsBlob(stretch: string) {
    |stretch| == 60 && forall c :: c in stretch ==> IsBase64(c)
  }

  // A blob is a stretch of sixty Base64 characters.
  lemma {:induction false} BlobIff(s: string)
    ensures HasBlob(s) <==> exists lo, hi :: 0 <= lo <= hi <= |s| && IsBlob(s[lo..hi])
  {
    if HasBlob(s) {
      var i :| 0 <= i < |s| && BlobAt(s, i);
      BlobIsStretch(s, i, i + 60);
    }
    if lo, hi :| 0 <= lo <= hi <= |s| && IsBlob(s[lo..hi]) {
      BlobIsStretch(s, lo, hi);
    }
  }

  lemma BlobIsStretch(s: string, lo: nat, hi: nat)
    requires lo <= hi <= |s|
    ensures IsBlob(s[lo..hi]) <==> hi == lo + 60 && BlobAt(s, lo)
  {
    var stretch := s[lo..hi];
    if IsBlob(stretch) {
      forall j | lo <= j < hi ensures IsBase64(s[j]) { assert stretch[j - lo] == s[j]; }
    }
  }

  datatype Sigil = InvisibleDisruption | HomoglyphSubstitution | EncodedConcealment | MarkupIntrusion

  function Listed(invisible: bool, homoglyph: bool, encoded: bool, markup: bool): seq<Sigil> {
    (if invisible then [InvisibleDisruption] else []) +
    (if homoglyph then [HomoglyphSubstitution] else []) +
    (if encoded then [EncodedConcealment] else []) +
    (if markup then [MarkupIntrusion] else [])
  }

  lemma ListedIff(invisible: bool, homoglyph: bool, encoded: bool, markup: bool)
    ensures
      var raised := Listed(invisible, homoglyph, encoded, markup);
      && (InvisibleDisruption in raised <==> invisible) && (HomoglyphSubstitution in raised <==> homoglyph)
      && (EncodedConcealment in raised <==> encoded) && (MarkupIntrusion in raised <==> markup)
  {
  }

  lemma ListedOnce(invisible: bool, homoglyph: bool, encoded: bool, markup: bool)
    ensures
      var raised := Listed(invisible, homoglyph, encoded, markup);
      forall i, j :: 0 <= i < j < |raised| ==> raised[i] != raised[j]
  {
  }

  // The sigils `interrogate` raises, in its order.
  function Sigils(payload: string): seq<Sigil> {
    Listed(!NothingInvisible(payload), exists i :: 0 <= i < |payload| && IsHomoglyph(payload[i]), HasBlob(payload),
           !TagFree(payload))
  }

  // Each sigil is raised exactly for what it stands for, and once.
  lemma SigilsIff(payload: string)
    ensures InvisibleDisruption in Sigils(payload) <==> exists i :: 0 <= i < |payload| && IsInvisible(payload[i])
    ensures HomoglyphSubstitution in Sigils(payload) <==> exists i :: 0 <= i < |payload| && IsHomoglyph(payload[i])
    ensures EncodedConcealment in Sigils(payload) <==>
            exists i :: 0 <= i < |payload| && BlobAt(payload, i)
    ensures MarkupIntrusion in Sigils(payload) <==>
            exists i :: 0 <= i <= |payload| && TagAtStart(payload[i..])
    ensures forall i, j :: 0 <= i < j < |Sigils(payload)| ==> Sigils(payload)[i] != Sigils(payload)[j]
  {
    ListedIff(!NothingInvisible(payload), exists i :: 0 <= i < |payload| && IsHomoglyph(payload[i]), HasBlob(payload),
              !TagFree(payload));
    ListedOnce(!NothingInvisible(payload), exists i :: 0 <= i < |payload| && IsHomoglyph(payload[i]), HasBlob(payload),
               !TagFree(payload));
  }

  // After purifying, neither invisible characters nor markup are found again.
  lemma PurifiedRaisesNeither(payload: string)
    ensures InvisibleDisruption !in Sigils(Purified(payload)) && MarkupIntrusion !in Sigils(Purified(payload))
  {
    PurifiedIsClean(payload);
    SigilsIff(Purified(payload));
  }
}
