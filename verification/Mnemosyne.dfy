/** The memory of confirmed threats: MnemosyneCache of core/aegis.py and the SomnaticCycle of vitality/protocol.py that
compacts it.

Lower-casing, the 40-character trace of a fragment, the fingerprint of a malignum and rounding are parameters. */
module Mnemosyne {
  import opened Common
  import opened Reals

  datatype Engram = Engram(text: string, malignaClass: string, depth: nat)

  datatype Malignum = Malignum(malignaClass: string, depth: nat, sigil: string, fragment: string)

  // `trace` stands for fragment[:40].lower().strip(), `resonanceKey` for the fingerprint.
  datatype Env = Env(lower: string -> string, trace: string -> string, resonanceKey: Malignum -> string)

  const RESONANCE_VERACITY := 0.87
  const PRUNE_LENGTH_FLOOR := 10
  const MAX_ENGRAM_RETENTION := 8_000

  // ----- Detection -----

  predicate Detected(engrams: seq<Engram>, payload: string) {
    exists i :: 0 <= i < |engrams| && Contains(payload, engrams[i].text)
  }

  // ----- Sorting -----

  type Key = (int, int)

  // The order of Python's tuples.
  predicate Greater(a: Key, b: Key) {
    a.0 > b.0 || (a.0 == b.0 && a.1 > b.1)
  }

  // One step of a stable sort in descending order: behind every element that is not smaller.
  function Insert(e: Engram, sorted: seq<Engram>, key: Engram -> Key): seq<Engram> {
    if sorted == [] then [e]
    else if Greater(key(e), key(sorted[0])) then [e] + sorted
    else [sorted[0]] + Insert(e, sorted[1..], key)
  }

  // sorted(engrams, key=..., reverse=True)
  function SortedDescending(engrams: seq<Engram>, key: Engram -> Key): (sorted: seq<Engram>)
    ensures |sorted| == |engrams|
  {
    if engrams == [] then []
    else
      var rest := SortedDescending(engrams[..|engrams| - 1], key);
      InsertLength(engrams[|engrams| - 1], rest, key);
      Insert(engrams[|engrams| - 1], rest, key)
  }

  lemma {:induction false} InsertLength(e: Engram, sorted: seq<Engram>, key: Engram -> Key)
    ensures |Insert(e, sorted, key)| == |sorted| + 1
  {
    if sorted != [] { InsertLength(e, sorted[1..], key); }
  }

  predicate Descending(engrams: seq<Engram>, key: Engram -> Key) {
    forall i, j :: 0 <= i < j < |engrams| ==> !Greater(key(engrams[j]), key(engrams[i]))
  }

  lemma {:induction false} InsertSorts(e: Engram, s: seq<Engram>, key: Engram -> Key)
    requires Descending(s, key)
    ensures Descending(Insert(e, s, key), key)
    ensures multiset(Insert(e, s, key)) == multiset(s) + multiset{e}
  {
    if s == [] {
    } else if Greater(key(e), key(s[0])) {
    } else {
      InsertSorts(e, s[1..], key);
      assert s == [s[0]] + s[1..];
      var r := Insert(e, s[1..], key);
      forall j | 0 <= j < |r| ensures !Greater(key(r[j]), key(s[0])) {
        assert r[j] in multiset(r);
        if r[j] != e { assert r[j] in s[1..]; }
      }
    }
  }

  // The engrams of one key, in their order.
  function OfKey(engrams: seq<Engram>, key: Engram -> Key, k: Key): seq<Engram> {
    if engrams == [] then []
    else (if key(engrams[0]) == k then [engrams[0]] else []) + OfKey(engrams[1..], key, k)
  }

  lemma {:induction false} OfKeyOfMore(engrams: seq<Engram>, e: Engram, key: Engram -> Key, k: Key)
    ensures OfKey(engrams + [e], key, k) == OfKey(engrams, key, k) + if key(e) == k then [e] else []
  {
    if engrams == [] {
      assert [] + [e] == [e];
      assert OfKey([e][1..], key, k) == [];
    } else {
      assert (engrams + [e])[1..] == engrams[1..] + [e];
      OfKeyOfMore(engrams[1..], e, key, k);
    }
  }

  lemma {:induction false} OfKeyAbsent(engrams: seq<Engram>, key: Engram -> Key, k: Key)
    requires forall i :: 0 <= i < |engrams| ==> Greater(k, key(engrams[i]))
    ensures OfKey(engrams, key, k) == []
  {
    if engrams != [] {
      assert forall i :: 0 <= i < |engrams| - 1 ==> engrams[1..][i] == engrams[i + 1];
      OfKeyAbsent(engrams[1..], key, k);
    }
  }

  lemma {:induction false} InsertIsStable(e: Engram, s: seq<Engram>, key: Engram -> Key, k: Key)
    requires Descending(s, key)
    ensures OfKey(Insert(e, s, key), key, k) == OfKey(s, key, k) + if key(e) == k then [e] else []
  {
    if s == [] {
    } else if Greater(key(e), key(s[0])) {
      OfKeyCons(e, s, key, k);
      if key(e) == k { OfKeyAbsent(s, key, k); }
    } else {
      assert forall i :: 0 <= i < |s| - 1 ==> s[1..][i] == s[i + 1];
      InsertIsStable(e, s[1..], key, k);
      OfKeyCons(s[0], Insert(e, s[1..], key), key, k);
    }
  }

  lemma OfKeyCons(e: Engram, s: seq<Engram>, key: Engram -> Key, k: Key)
    ensures OfKey([e] + s, key, k) == (if key(e) == k then [e] else []) + OfKey(s, key, k)
  {
    assert ([e] + s)[1..] == s;
  }

  // Sorting orders, permutes, and keeps equal keys in their order.
  lemma {:induction false} SortIsStable(engrams: seq<Engram>, key: Engram -> Key)
    ensures Descending(SortedDescending(engrams, key), key)
    ensures multiset(SortedDescending(engrams, key)) == multiset(engrams)
    ensures forall k: Key :: OfKey(SortedDescending(engrams, key), key, k) == OfKey(engrams, key, k)
  {
    if engrams != [] {
      var front, last := engrams[..|engrams| - 1], engrams[|engrams| - 1];
      assert engrams == front + [last];
      SortIsStable(front, key);
      InsertSorts(last, SortedDescending(front, key), key);
      forall k: Key ensures OfKey(SortedDescending(engrams, key), key, k) == OfKey(engrams, key, k) {
        InsertIsStable(last, SortedDescending(front, key), key, k);
        OfKeyOfMore(front, last, key, k);
      }
    }
  }

  // ----- The phases -----

  function Quality(e: Engram): Key {
    (|e.text| * e.depth, 0)
  }

  function Severity(e: Engram): Key {
    (e.depth, |e.text|)
  }

  function LongEnough(engrams: seq<Engram>): (kept: seq<Engram>)
    ensures |kept| <= |engrams|
    ensures forall i :: 0 <= i < |kept| ==> |kept[i].text| >= PRUNE_LENGTH_FLOOR && kept[i] in engrams
    ensures forall e :: e in engrams && |e.text| >= PRUNE_LENGTH_FLOOR ==> e in kept
  {
    if engrams == [] then []
    else
      var front, last := engrams[..|engrams| - 1], engrams[|engrams| - 1];
      assert engrams == front + [last];
      LongEnough(front) + if |last.text| >= PRUNE_LENGTH_FLOOR then [last] else []
  }

  // What is long enough stays, each in its place.
  lemma {:induction false} LongEnoughAreSifted(engrams: seq<Engram>)
    ensures Sifted(engrams, (e: Engram) => |e.text| < 10, LongEnough(engrams))
  {
    var short := (e: Engram) => |e.text| < 10;
    if engrams == [] {
      NothingSifted(short);
    } else {
      var front, last := engrams[..|engrams| - 1], engrams[|engrams| - 1];
      LongEnoughAreSifted(front);
      SiftOne(front, engrams, short, LongEnough(front), LongEnough(engrams), last);
    }
  }

  function Capped(engrams: seq<Engram>): seq<Engram> {
    if |engrams| > MAX_ENGRAM_RETENTION then engrams[..MAX_ENGRAM_RETENTION] else engrams
  }

  function Pruned(engrams: seq<Engram>): seq<Engram> {
    LongEnough(Capped(SortedDescending(engrams, Quality)))
  }

  // `seen` is the dictionary, in insertion order.
  predicate Redundant(text: string, seen: seq<Engram>) {
    exists i :: 0 <= i < |seen| && seen[i].text != text && Contains(text, seen[i].text)
  }

  // seen_texts[text] = ...: a known key keeps its place and takes the new value.
  function Assigned(seen: seq<Engram>, e: Engram): seq<Engram> {
    if seen == [] then [e]
    else if seen[0].text == e.text then [e] + seen[1..]
    else [seen[0]] + Assigned(seen[1..], e)
  }

  function Deduplicated(engrams: seq<Engram>): seq<Engram> {
    if engrams == [] then []
    else
      var seen, e := Deduplicated(engrams[..|engrams| - 1]), engrams[|engrams| - 1];
      if Redundant(e.text, seen) then seen else Assigned(seen, e)
  }

  function RedundantCount(engrams: seq<Engram>): nat {
    if engrams == [] then 0
    else
      var front := engrams[..|engrams| - 1];
      RedundantCount(front) + if Redundant(engrams[|engrams| - 1].text, Deduplicated(front)) then 1 else 0
  }

  function Consolidated(engrams: seq<Engram>): seq<Engram> {
    SortedDescending(Deduplicated(Pruned(engrams)), Severity)
  }

  predicate HasTrace(engrams: seq<Engram>, text: string) {
    exists i :: 0 <= i < |engrams| && engrams[i].text == text
  }

  // The antibodies whose trace is still an engram.
  function Surviving(vault: map<string, Malignum>, engrams: seq<Engram>, env: Env): map<string, Malignum> {
    map k | k in vault && HasTrace(engrams, env.trace(vault[k].fragment)) :: vault[k]
  }

  // ----- Deduplication loses no detection -----

  predicate DistinctTexts(engrams: seq<Engram>) {
    forall i, j :: 0 <= i < j < |engrams| ==> engrams[i].text != engrams[j].text
  }

  lemma {:induction false} AssignedTexts(seen: seq<Engram>, e: Engram, text: string)
    ensures HasTrace(Assigned(seen, e), text) <==> HasTrace(seen, text) || text == e.text
    ensures |seen| <= |Assigned(seen, e)| <= |seen| + 1
  {
    if seen == [] {
      assert Assigned(seen, e)[0].text == e.text;
    } else {
      HasTraceOfMore(seen[0], seen[1..], text);
      assert seen == [seen[0]] + seen[1..];
      if seen[0].text == e.text {
        HasTraceOfMore(e, seen[1..], text);
      } else {
        AssignedTexts(seen[1..], e, text);
        HasTraceOfMore(seen[0], Assigned(seen[1..], e), text);
      }
    }
  }

  lemma HasTraceOfMore(e: Engram, engrams: seq<Engram>, text: string)
    ensures HasTrace([e] + engrams, text) <==> e.text == text || HasTrace(engrams, text)
  {
    assert ([e] + engrams)[0] == e;
    assert forall i :: 0 <= i < |engrams| ==> ([e] + engrams)[i + 1] == engrams[i];
    if HasTrace([e] + engrams, text) {
      var i :| 0 <= i <= |engrams| && ([e] + engrams)[i].text == text;
      assert i > 0 ==> engrams[i - 1].text == text;
    }
  }

  lemma {:induction false} AssignedIsDistinct(seen: seq<Engram>, e: Engram)
    requires DistinctTexts(seen)
    ensures DistinctTexts(Assigned(seen, e))
  {
    if seen != [] && seen[0].text != e.text {
      AssignedIsDistinct(seen[1..], e);
      AssignedTexts(seen[1..], e, seen[0].text);
      assert forall i :: 0 <= i < |seen| - 1 ==> seen[1..][i] == seen[i + 1];
      assert !HasTrace(Assigned(seen[1..], e), seen[0].text);
    }
  }

  lemma {:induction false} DeduplicatedIsDistinct(engrams: seq<Engram>)
    ensures DistinctTexts(Deduplicated(engrams))
    ensures |Deduplicated(engrams)| + RedundantCount(engrams) <= |engrams|
  {
    if engrams != [] {
      var front, e := engrams[..|engrams| - 1], engrams[|engrams| - 1];
      DeduplicatedIsDistinct(front);
      AssignedIsDistinct(Deduplicated(front), e);
      AssignedTexts(Deduplicated(front), e, e.text);
    }
  }

  // Engram `i` was not redundant when its turn came, and every later one of its text was.
  predicate LastPlain(engrams: seq<Engram>, i: nat)
    requires i < |engrams|
  {
    && !Redundant(engrams[i].text, Deduplicated(engrams[..i]))
    && forall j :: i < j < |engrams| && engrams[j].text == engrams[i].text ==>
         Redundant(engrams[j].text, Deduplicated(engrams[..j]))
  }

  lemma {:induction false} AssignedAre(seen: seq<Engram>, e: Engram, x: Engram)
    requires DistinctTexts(seen)
    ensures x in Assigned(seen, e) <==> x == e || (x in seen && x.text != e.text)
  {
    if seen != [] {
      var rest := seen[1..];
      assert seen == [seen[0]] + rest;
      assert forall i :: 0 <= i < |rest| ==> rest[i] == seen[i + 1] && rest[i].text != seen[0].text;
      if seen[0].text != e.text { AssignedAre(rest, e, x); }
    }
  }

  lemma LastPlainOfFront(engrams: seq<Engram>, i: nat)
    requires i < |engrams| - 1
    ensures
      var n := |engrams| - 1;
      LastPlain(engrams, i) <==>
        && LastPlain(engrams[..n], i)
        && (engrams[n].text == engrams[i].text ==> Redundant(engrams[n].text, Deduplicated(engrams[..n])))
  {
    var n := |engrams| - 1;
    var front := engrams[..n];
    assert forall j :: 0 <= j < n ==> front[j] == engrams[j] && front[..j] == engrams[..j];
  }

  // Of the engrams of one text, the last that was not redundant is kept, with its class and depth; and nothing else is.
  lemma {:induction false} DeduplicatedAre(engrams: seq<Engram>, x: Engram)
    ensures x in Deduplicated(engrams) <==> exists i :: 0 <= i < |engrams| && engrams[i] == x && LastPlain(engrams, i)
  {
    if engrams != [] {
      var n := |engrams| - 1;
      var front, e := engrams[..n], engrams[n];
      var seen := Deduplicated(front);
      DeduplicatedAre(front, x);
      DeduplicatedIsDistinct(front);
      if !Redundant(e.text, seen) { AssignedAre(seen, e, x); }
      if x in Deduplicated(engrams) {
        if x == e && !Redundant(e.text, seen) {
          assert LastPlain(engrams, n);
        } else {
          var i :| 0 <= i < n && front[i] == x && LastPlain(front, i);
          LastPlainOfFront(engrams, i);
        }
      }
      if i :| 0 <= i < |engrams| && engrams[i] == x && LastPlain(engrams, i) {
        if i < n {
          LastPlainOfFront(engrams, i);
          assert front[i] == x && LastPlain(front, i);
        }
      }
    }
  }

  // A text is kept only if it was there, and a text that was there contains one that is kept.
  lemma {:induction false} DeduplicatedTexts(engrams: seq<Engram>, text: string)
    ensures HasTrace(Deduplicated(engrams), text) ==> HasTrace(engrams, text)
    ensures HasTrace(engrams, text) ==>
              exists i :: 0 <= i < |Deduplicated(engrams)| && Contains(text, Deduplicated(engrams)[i].text)
  {
    if engrams != [] {
      var front, e := engrams[..|engrams| - 1], engrams[|engrams| - 1];
      var seen, after := Deduplicated(front), Deduplicated(engrams);
      assert forall i :: 0 <= i < |front| ==> front[i] == engrams[i];
      DeduplicatedTexts(front, text);
      AssignedTexts(seen, e, text);
      if HasTrace(front, text) {
        var i :| 0 <= i < |seen| && Contains(text, seen[i].text);
        KeptText(seen, e, seen[i].text);
        var j :| 0 <= j < |after| && after[j].text == seen[i].text;
        assert Contains(text, after[j].text);
      } else if text == e.text {
        if Redundant(e.text, seen) {
          var i :| 0 <= i < |seen| && seen[i].text != e.text && Contains(e.text, seen[i].text);
          assert Contains(text, after[i].text);
        } else {
          ContainsItself(text);
          var j :| 0 <= j < |after| && after[j].text == text;
          assert Contains(text, after[j].text);
        }
      }
    }
  }

  lemma KeptText(seen: seq<Engram>, e: Engram, text: string)
    requires HasTrace(seen, text)
    ensures HasTrace(if Redundant(e.text, seen) then seen else Assigned(seen, e), text)
  {
    AssignedTexts(seen, e, text);
  }

  // An engram is redundant when its turn comes exactly when its text contains another one met before, kept or not.
  lemma RedundantIff(engrams: seq<Engram>, text: string)
    ensures Redundant(text, Deduplicated(engrams)) <==>
            exists j :: 0 <= j < |engrams| && engrams[j].text != text && Contains(text, engrams[j].text)
  {
    var seen := Deduplicated(engrams);
    if i :| 0 <= i < |seen| && seen[i].text != text && Contains(text, seen[i].text) {
      assert HasTrace(seen, seen[i].text);
      DeduplicatedTexts(engrams, seen[i].text);
      var j :| 0 <= j < |engrams| && engrams[j].text == seen[i].text;
    }
    if j :| 0 <= j < |engrams| && engrams[j].text != text && Contains(text, engrams[j].text) {
      assert HasTrace(engrams, engrams[j].text);
      DeduplicatedTexts(engrams, engrams[j].text);
      var i :| 0 <= i < |seen| && Contains(engrams[j].text, seen[i].text);
      ContainsIsTransitive(text, engrams[j].text, seen[i].text);
      ContainedIsShorter(text, engrams[j].text);
      ContainedIsShorter(engrams[j].text, seen[i].text);
    }
  }

  lemma ContainedIsShorter(text: string, part: string)
    requires Contains(text, part)
    ensures |part| < |text| || part == text
  {
  }

  // No text met before engram `i` occurs in its own.
  predicate IsNew(engrams: seq<Engram>, i: nat)
    requires i < |engrams|
  {
    forall j :: 0 <= j < i ==> !Contains(engrams[i].text, engrams[j].text)
  }

  // The texts kept are those of the engrams at the places `at`, the places of the new ones, in their order.
  predicate KeptAt(engrams: seq<Engram>, kept: seq<Engram>, at: seq<nat>) {
    && |at| == |kept|
    && (forall i, j :: 0 <= i < j < |at| ==> at[i] < at[j])
    && (forall i :: 0 <= i < |at| ==>
          at[i] < |engrams| && kept[i].text == engrams[at[i]].text && IsNew(engrams, at[i]))
    && (forall k :: 0 <= k < |engrams| && IsNew(engrams, k) ==> k in at)
  }

  lemma {:induction false} AssignedKeepsPlaces(seen: seq<Engram>, e: Engram)
    ensures !HasTrace(seen, e.text) ==> Assigned(seen, e) == seen + [e]
    ensures HasTrace(seen, e.text) ==> |Assigned(seen, e)| == |seen|
    ensures forall i :: 0 <= i < |seen| ==> Assigned(seen, e)[i].text == seen[i].text
  {
    if seen != [] {
      assert seen == [seen[0]] + seen[1..];
      HasTraceOfMore(seen[0], seen[1..], e.text);
      if seen[0].text != e.text { AssignedKeepsPlaces(seen[1..], e); }
    }
  }

  // The texts stand in the order in which they came up first.
  lemma {:induction false} DeduplicatedStandsAt(engrams: seq<Engram>) returns (at: seq<nat>)
    ensures KeptAt(engrams, Deduplicated(engrams), at)
  {
    at := [];
    if engrams != [] {
      var n: nat := |engrams| - 1;
      var front, e := engrams[..n], engrams[n];
      var before := DeduplicatedStandsAt(front);
      AssignedKeepsPlaces(Deduplicated(front), e);
      NewIff(engrams);
      KeptGrows(engrams, Deduplicated(front), Deduplicated(engrams), before);
      at := if IsNew(engrams, n) then before + [n] else before;
    }
  }

  lemma KeptGrows(engrams: seq<Engram>, kept: seq<Engram>, more: seq<Engram>, at: seq<nat>)
    requires engrams != [] && KeptAt(engrams[..|engrams| - 1], kept, at)
    requires IsNew(engrams, |engrams| - 1) ==> more == kept + [engrams[|engrams| - 1]]
    requires !IsNew(engrams, |engrams| - 1) ==>
               |more| == |kept| && forall i :: 0 <= i < |kept| ==> more[i].text == kept[i].text
    ensures KeptAt(engrams, more, if IsNew(engrams, |engrams| - 1) then at + [|engrams| - 1] else at)
  {
    var n: nat := |engrams| - 1;
    var at' := if IsNew(engrams, n) then at + [n] else at;
    forall k | 0 <= k < |engrams| && IsNew(engrams, k) ensures k in at' {
      if k < n { OldPlace(engrams, kept, at, k); }
    }
    forall i | 0 <= i < |at| ensures at[i] < n && kept[i].text == engrams[at[i]].text && IsNew(engrams, at[i]) {
      KeptPlace(engrams, kept, at, i);
    }
  }

  lemma OldPlace(engrams: seq<Engram>, kept: seq<Engram>, at: seq<nat>, k: nat)
    requires engrams != [] && KeptAt(engrams[..|engrams| - 1], kept, at) && k < |engrams| - 1 && IsNew(engrams, k)
    ensures k in at
  {
    NewInFront(engrams);
    assert IsNew(engrams[..|engrams| - 1], k);
  }

  lemma KeptPlace(engrams: seq<Engram>, kept: seq<Engram>, at: seq<nat>, i: nat)
    requires engrams != [] && KeptAt(engrams[..|engrams| - 1], kept, at) && i < |at|
    ensures at[i] < |engrams| - 1 && kept[i].text == engrams[at[i]].text && IsNew(engrams, at[i])
  {
    NewInFront(engrams);
    assert IsNew(engrams[..|engrams| - 1], at[i]);
  }

  lemma NewInFront(engrams: seq<Engram>)
    requires engrams != []
    ensures forall k :: 0 <= k < |engrams| - 1 ==> (IsNew(engrams, k) <==> IsNew(engrams[..|engrams| - 1], k))
  {
  }

  // The last engram is new exactly when it is neither redundant nor of a text kept before.
  lemma NewIff(engrams: seq<Engram>)
    requires engrams != []
    ensures
      var front, e := engrams[..|engrams| - 1], engrams[|engrams| - 1];
      var seen := Deduplicated(front);
      IsNew(engrams, |engrams| - 1) <==> !Redundant(e.text, seen) && !HasTrace(seen, e.text)
  {
    var n := |engrams| - 1;
    var front, e := engrams[..n], engrams[n];
    var seen := Deduplicated(front);
    assert forall j :: 0 <= j < n ==> front[j] == engrams[j];
    RedundantIff(front, e.text);
    DeduplicatedTexts(front, e.text);
    ContainsItself(e.text);
    if HasTrace(seen, e.text) {
      var j :| 0 <= j < |front| && front[j].text == e.text;
      assert Contains(engrams[n].text, engrams[j].text);
    }
    if !IsNew(engrams, n) {
      var j :| 0 <= j < n && Contains(engrams[n].text, engrams[j].text);
      if !Redundant(e.text, seen) {
        assert front[j].text == e.text;
        assert HasTrace(front, e.text);
        var i :| 0 <= i < |seen| && Contains(e.text, seen[i].text);
        assert seen[i].text == e.text;
      }
    }
  }

  // The places of the engrams whose text contains another one met before.
  function RedundantPlaces(engrams: seq<Engram>): set<int> {
    set i | 0 <= i < |engrams| && HasPart(engrams, i)
  }

  predicate HasPart(engrams: seq<Engram>, i: int)
    requires 0 <= i < |engrams|
  {
    exists j :: 0 <= j < i && engrams[j].text != engrams[i].text && Contains(engrams[i].text, engrams[j].text)
  }

  lemma PlacesGrow(engrams: seq<Engram>)
    requires engrams != []
    ensures RedundantPlaces(engrams) ==
            RedundantPlaces(engrams[..|engrams| - 1]) +
            if HasPart(engrams, |engrams| - 1) then {|engrams| - 1} else {}
  {
    var n := |engrams| - 1;
    var front := engrams[..n];
    forall i | 0 <= i < n ensures HasPart(engrams, i) <==> HasPart(front, i) { PartOfFront(engrams, i); }
  }

  lemma PartOfFront(engrams: seq<Engram>, i: nat)
    requires i < |engrams| - 1
    ensures HasPart(engrams, i) <==> HasPart(engrams[..|engrams| - 1], i)
  {
    var front := engrams[..|engrams| - 1];
    assert forall j :: 0 <= j <= i ==> front[j] == engrams[j];
  }

  lemma PartOfLast(engrams: seq<Engram>)
    requires engrams != []
    ensures
      var front, e := engrams[..|engrams| - 1], engrams[|engrams| - 1];
      HasPart(engrams, |engrams| - 1) <==> Redundant(e.text, Deduplicated(front))
  {
    var n := |engrams| - 1;
    var front, e := engrams[..n], engrams[n];
    assert forall j :: 0 <= j < n ==> front[j] == engrams[j];
    RedundantIff(front, e.text);
  }

  // The count that is reported is theirs.
  lemma {:induction false} RedundantCountIs(engrams: seq<Engram>)
    ensures RedundantCount(engrams) == |RedundantPlaces(engrams)|
  {
    if engrams == [] {
      assert RedundantPlaces(engrams) == {};
    } else {
      RedundantCountIs(engrams[..|engrams| - 1]);
      PartOfLast(engrams);
      PlacesGrow(engrams);
    }
  }

  lemma DeduplicationKeepsDetection(engrams: seq<Engram>, payload: string)
    ensures Detected(Deduplicated(engrams), payload) <==> Detected(engrams, payload)
  {
    var after := Deduplicated(engrams);
    if Detected(after, payload) {
      var i :| 0 <= i < |after| && Contains(payload, after[i].text);
      assert HasTrace(after, after[i].text);
      DeduplicatedTexts(engrams, after[i].text);
      var j :| 0 <= j < |engrams| && engrams[j].text == after[i].text;
      assert Contains(payload, engrams[j].text);
    }
    if Detected(engrams, payload) {
      var i :| 0 <= i < |engrams| && Contains(payload, engrams[i].text);
      assert HasTrace(engrams, engrams[i].text);
      DeduplicatedTexts(engrams, engrams[i].text);
      var j :| 0 <= j < |after| && Contains(engrams[i].text, after[j].text);
      ContainsIsTransitive(payload, engrams[i].text, after[j].text);
    }
  }

  lemma SameElementsSameDetection(a: seq<Engram>, b: seq<Engram>, payload: string)
    requires multiset(a) == multiset(b)
    ensures Detected(a, payload) <==> Detected(b, payload)
  {
    if Detected(a, payload) {
      var i :| 0 <= i < |a| && Contains(payload, a[i].text);
      assert a[i] in multiset(b);
    }
    if Detected(b, payload) {
      var i :| 0 <= i < |b| && Contains(payload, b[i].text);
      assert b[i] in multiset(a);
    }
  }

  // ----- What consolidation keeps -----

  // A payload contains some engram afterwards exactly when it contained one that survived pruning.
  lemma {:induction false} ConsolidationKeepsDetection(engrams: seq<Engram>, payload: string)
    ensures Detected(Consolidated(engrams), payload) <==> Detected(Pruned(engrams), payload)
  {
    var kept := Deduplicated(Pruned(engrams));
    SortIsStable(kept, Severity);
    SameElementsSameDetection(Consolidated(engrams), kept, payload);
    DeduplicationKeepsDetection(Pruned(engrams), payload);
  }

  // Within the cap, pruning forgets exactly the texts under ten characters: consolidation keeps detecting what a
  // longer engram detects, and nothing else.
  lemma WithinCapOnlyShortAreForgotten(engrams: seq<Engram>, payload: string)
    requires |engrams| <= 8_000
    ensures Detected(Consolidated(engrams), payload) <==>
            exists i :: 0 <= i < |engrams| && |engrams[i].text| >= 10 && Contains(payload, engrams[i].text)
  {
    ConsolidationKeepsDetection(engrams, payload);
    PrunedWithinCap(engrams);
    DetectedByLong(engrams, Pruned(engrams), payload);
  }

  lemma DetectedByLong(engrams: seq<Engram>, pruned: seq<Engram>, payload: string)
    requires forall e :: e in pruned <==> e in engrams && |e.text| >= 10
    ensures Detected(pruned, payload) <==>
            exists i :: 0 <= i < |engrams| && |engrams[i].text| >= 10 && Contains(payload, engrams[i].text)
  {
    if Detected(pruned, payload) {
      var i :| 0 <= i < |pruned| && Contains(payload, pruned[i].text);
      assert pruned[i] in engrams;
      var j :| 0 <= j < |engrams| && engrams[j] == pruned[i];
    }
    if i :| 0 <= i < |engrams| && |engrams[i].text| >= 10 && Contains(payload, engrams[i].text) {
      assert engrams[i] in pruned;
      var j :| 0 <= j < |pruned| && pruned[j] == engrams[i];
    }
  }

  lemma SortKeepsElements(engrams: seq<Engram>, key: Engram -> Key)
    ensures forall e :: e in SortedDescending(engrams, key) <==> e in engrams
  {
    SortIsStable(engrams, key);
    forall e ensures e in SortedDescending(engrams, key) <==> e in engrams {
      assert e in engrams <==> e in multiset(engrams);
    }
  }

  lemma PrunedWithinCap(engrams: seq<Engram>)
    requires |engrams| <= MAX_ENGRAM_RETENTION
    ensures forall e :: e in Pruned(engrams) <==> e in engrams && |e.text| >= PRUNE_LENGTH_FLOOR
  {
    SortKeepsElements(engrams, Quality);
  }

  // Above the cap exactly as many engrams as it allows are left before the length filter, and what is dropped is of no
  // higher quality than anything left.
  lemma CapDropsTheLowest(engrams: seq<Engram>) returns (kept: seq<Engram>, dropped: seq<Engram>)
    requires |engrams| > 8_000
    ensures |kept| == 8_000 && Pruned(engrams) == LongEnough(kept)
    ensures multiset(engrams) == multiset(kept) + multiset(dropped)
    ensures forall i, j :: 0 <= i < |kept| && 0 <= j < |dropped| ==>
              |dropped[j].text| * dropped[j].depth <= |kept[i].text| * kept[i].depth
  {
    var sorted := SortedDescending(engrams, Quality);
    SortIsStable(engrams, Quality);
    kept, dropped := sorted[..MAX_ENGRAM_RETENTION], sorted[MAX_ENGRAM_RETENTION..];
    assert sorted == kept + dropped;
  }

  // A payload that consolidation stops detecting was detected only by engrams that were too short or, above the cap, of
  // no higher quality than everything left.
  lemma ForgottenIsShortOrLow(engrams: seq<Engram>, payload: string, i: nat)
    requires i < |engrams| && Contains(payload, engrams[i].text) && !Detected(Consolidated(engrams), payload)
    ensures |engrams[i].text| < 10 ||
            (|engrams| > 8_000 &&
             forall e :: e in Pruned(engrams) ==> |engrams[i].text| * engrams[i].depth <= |e.text| * e.depth)
  {
    ConsolidationKeepsDetection(engrams, payload);
    SortKeepsElements(engrams, Quality);
    var e := engrams[i];
    if |e.text| >= PRUNE_LENGTH_FLOOR {
      NotPruned(engrams, payload, e);
      if |engrams| > MAX_ENGRAM_RETENTION {
        var kept, dropped := CapDropsTheLowest(engrams);
        assert e in multiset(engrams);
        assert e in kept ==> e in LongEnough(kept);
        assert e in dropped;
      }
    }
  }

  lemma NotPruned(engrams: seq<Engram>, payload: string, e: Engram)
    requires Contains(payload, e.text) && !Detected(Pruned(engrams), payload)
    ensures e !in Pruned(engrams)
    ensures |engrams| <= MAX_ENGRAM_RETENTION ==> e !in engrams || |e.text| < PRUNE_LENGTH_FLOOR
  {
    var pruned := Pruned(engrams);
    forall j | 0 <= j < |pruned| ensures pruned[j] != e {
      assert !Contains(payload, pruned[j].text);
    }
    if |engrams| <= MAX_ENGRAM_RETENTION { PrunedWithinCap(engrams); }
  }

  // What the rebuilt index looks like.
  lemma ConsolidatedShape(engrams: seq<Engram>)
    ensures
      var after := Consolidated(engrams);
      && DistinctTexts(after)
      && (forall i :: 0 <= i < |after| ==> |after[i].text| >= 10)
      && |after| <= 8_000 && |after| <= |engrams|
      && Descending(after, Severity)
      && (forall i, j :: 0 <= i < j < |after| ==>
            after[j].depth < after[i].depth ||
            (after[j].depth == after[i].depth && |after[j].text| <= |after[i].text|))
  {
    var pruned := Pruned(engrams);
    var kept := Deduplicated(pruned);
    DeduplicatedIsDistinct(pruned);
    SortIsStable(kept, Severity);
    PermutedDistinct(kept, Consolidated(engrams));
    DescendingBySeverity(Consolidated(engrams));
    PermutedIsLong(pruned, Consolidated(engrams));
  }

  lemma DescendingBySeverity(engrams: seq<Engram>)
    requires Descending(engrams, Severity)
    ensures forall i, j :: 0 <= i < j < |engrams| ==>
              engrams[j].depth < engrams[i].depth ||
              (engrams[j].depth == engrams[i].depth && |engrams[j].text| <= |engrams[i].text|)
  {
  }

  lemma PermutedIsLong(pruned: seq<Engram>, after: seq<Engram>)
    requires multiset(after) == multiset(Deduplicated(pruned))
    requires forall i :: 0 <= i < |pruned| ==> |pruned[i].text| >= 10
    ensures forall i :: 0 <= i < |after| ==> |after[i].text| >= 10
  {
    var kept := Deduplicated(pruned);
    forall i | 0 <= i < |after| ensures |after[i].text| >= 10 {
      assert after[i] in multiset(kept);
      var j :| 0 <= j < |kept| && kept[j] == after[i];
      assert HasTrace(kept, after[i].text);
      DeduplicatedTexts(pruned, after[i].text);
    }
  }

  // Consolidating again forgets nothing more.
  lemma ConsolidatingAgainKeepsDetection(engrams: seq<Engram>, payload: string)
    ensures Detected(Consolidated(Consolidated(engrams)), payload) <==> Detected(Consolidated(engrams), payload)
  {
    var once := Consolidated(engrams);
    ConsolidatedShape(engrams);
    WithinCapOnlyShortAreForgotten(once, payload);
  }

  lemma {:induction false} PermutedDistinct(a: seq<Engram>, b: seq<Engram>)
    requires DistinctTexts(a) && multiset(a) == multiset(b)
    ensures DistinctTexts(b)
  {
    forall i, j | 0 <= i < j < |b| ensures b[i].text != b[j].text {
      if b[i].text == b[j].text {
        assert b[i] in multiset(a) && b[j] in multiset(a);
        var p :| 0 <= p < |a| && a[p] == b[i];
        var q :| 0 <= q < |a| && a[q] == b[j];
        assert p == q;
        TwiceCounted(b, i, j);
        OnceCounted(a, p);
      }
    }
  }

  lemma TwiceCounted(b: seq<Engram>, i: nat, j: nat)
    requires i < j < |b| && b[i] == b[j]
    ensures multiset(b)[b[i]] >= 2
  {
    assert b == b[..j] + [b[j]] + b[j + 1..];
    assert b[i] in b[..j];
  }

  lemma OnceCounted(a: seq<Engram>, p: nat)
    requires p < |a| && DistinctTexts(a)
    ensures multiset(a)[a[p]] == 1
  {
    assert a == a[..p] + [a[p]] + a[p + 1..];
    assert a[p] !in a[..p] && a[p] !in a[p + 1..];
  }

  // ----- The classes -----

  class MnemosyneCache {
    const env: Env
    var acuity: real
    var antibodyVault: map<string, Malignum>
    var memoryEngrams: seq<Engram>

    constructor (env: Env, acuity: real)
      ensures this.env == env && this.acuity == acuity && antibodyVault == map[] && memoryEngrams == []
    {
      this.env, this.acuity, antibodyVault, memoryEngrams := env, acuity, map[], [];
    }

    method Inscribe(m: Malignum)
      modifies this`antibodyVault, this`memoryEngrams
      ensures antibodyVault == old(antibodyVault)[env.resonanceKey(m) := m]
      ensures memoryEngrams == old(memoryEngrams) +
              if |env.trace(m.fragment)| > 8 then [Engram(env.trace(m.fragment), m.malignaClass, m.depth)] else []
    {
      antibodyVault := antibodyVault[env.resonanceKey(m) := m];
      var engram := env.trace(m.fragment);
      if |engram| > 8 {
        memoryEngrams := memoryEngrams + [Engram(engram, m.malignaClass, m.depth)];
      }
    }

    // Something is found exactly when the acuity lets a veracity of 0.87 pass and an engram occurs in the payload;
    // what is found is the occurring engrams, in their order.
    method Interrogate(payload: string) returns (found: seq<Engram>)
      ensures found != [] <==> acuity <= RESONANCE_VERACITY && Detected(memoryEngrams, env.lower(payload))
      ensures found == if acuity <= RESONANCE_VERACITY then Occurring(memoryEngrams, env.lower(payload)) else []
    {
      found := [];
      var p := env.lower(payload);
      for i := 0 to |memoryEngrams|
        invariant found == if acuity <= RESONANCE_VERACITY then Occurring(memoryEngrams[..i], p) else []
        invariant found != [] <==> acuity <= RESONANCE_VERACITY && Detected(memoryEngrams[..i], p)
      {
        assert memoryEngrams[..i + 1][..i] == memoryEngrams[..i];
        DetectedOfMore(memoryEngrams, i, p);
        if Contains(p, memoryEngrams[i].text) {
          if RESONANCE_VERACITY >= acuity {
            found := found + [memoryEngrams[i]];
          }
        }
      }
      assert memoryEngrams[..|memoryEngrams|] == memoryEngrams;
    }
  }

  function Occurring(engrams: seq<Engram>, payload: string): seq<Engram> {
    if engrams == [] then []
    else
      Occurring(engrams[..|engrams| - 1], payload) +
      if Contains(payload, engrams[|engrams| - 1].text) then [engrams[|engrams| - 1]] else []
  }

  // What is found is what occurs in the payload, each in its place.
  lemma {:induction false} OccurringAreSifted(engrams: seq<Engram>, payload: string)
    ensures Sifted(engrams, (e: Engram) => !Contains(payload, e.text), Occurring(engrams, payload))
  {
    var absent := (e: Engram) => !Contains(payload, e.text);
    if engrams == [] {
      NothingSifted(absent);
    } else {
      var front, e := engrams[..|engrams| - 1], engrams[|engrams| - 1];
      OccurringAreSifted(front, payload);
      SiftOne(front, engrams, absent, Occurring(front, payload), Occurring(engrams, payload), e);
    }
  }

  lemma DetectedOfMore(engrams: seq<Engram>, i: nat, payload: string)
    requires i < |engrams|
    ensures Detected(engrams[..i + 1], payload) <==> Detected(engrams[..i], payload) || Contains(payload, engrams[i].text)
  {
    var more, before := engrams[..i + 1], engrams[..i];
    assert more[i] == engrams[i];
    assert forall j :: 0 <= j < i ==> more[j] == before[j];
    if Detected(more, payload) {
      var j :| 0 <= j < |more| && Contains(payload, more[j].text);
      assert j < i ==> Contains(payload, before[j].text);
    }
  }

  datatype Report = Report(
    beforeEngrams: nat, afterEngrams: nat, beforeAntibodies: nat, afterAntibodies: nat,
    pruned: nat, deduplicated: nat, promoted: nat, healthGain: real)

  // round((before - after) / max(1, before) * 100, 1)
  function HealthGain(nearest: real -> int, before: nat, after: nat): real {
    nearest(Share(before, after) * 10.0) as real / 10.0
  }

  function Share(before: nat, after: nat): real {
    (before - after) as real / (if before < 1 then 1 else before) as real * 100.0
  }

  // The gain is a percentage, within half a tenth of the share of engrams that went.
  lemma HealthGainIsPercentage(nearest: real -> int, before: nat, after: nat)
    requires after <= before && forall v: real :: NearestTo(nearest(v), v)
    ensures 0.0 <= HealthGain(nearest, before, after) <= 100.0
    ensures -0.05 <= HealthGain(nearest, before, after) - Share(before, after) <= 0.05
    ensures after == before ==> HealthGain(nearest, before, after) == 0.0
  {
    ShareBounds((before - after) as real, (if before < 1 then 1 else before) as real);
    var n := nearest(Share(before, after) * 10.0);
    assert NearestTo(n, Share(before, after) * 10.0);
    assert 0 <= n <= 1000;
    if after == before { assert -0.5 <= n as real <= 0.5; }
  }

  lemma ShareBounds(gone: real, all: real)
    requires 0.0 <= gone <= all && all > 0.0
    ensures 0.0 <= gone / all <= 1.0
    ensures gone == 0.0 ==> gone / all == 0.0
  {
    QuotientSign(gone, all);
    QuotientAtMostOne(gone, all);
  }

  class SomnaticCycle {
    const nearest: real -> int

    constructor (nearest: real -> int)
      ensures this.nearest == nearest
    {
      this.nearest := nearest;
    }

    method Consolidate(m: MnemosyneCache) returns (report: Report)
      modifies m`memoryEngrams, m`antibodyVault
      ensures m.memoryEngrams == Consolidated(old(m.memoryEngrams))
      ensures m.antibodyVault == Surviving(old(m.antibodyVault), m.memoryEngrams, m.env)
      ensures report.beforeEngrams == |old(m.memoryEngrams)| && report.afterEngrams == |m.memoryEngrams|
      ensures report.beforeAntibodies == |old(m.antibodyVault)| && report.afterAntibodies == |m.antibodyVault|
      ensures report.pruned == |old(m.memoryEngrams)| - |Pruned(old(m.memoryEngrams))|
      ensures report.deduplicated == |RedundantPlaces(Pruned(old(m.memoryEngrams)))|
      ensures report.promoted == if report.afterEngrams < 10 then report.afterEngrams else 10
      ensures report.afterEngrams + report.pruned + report.deduplicated <= report.beforeEngrams
      ensures report.healthGain == HealthGain(nearest, report.beforeEngrams, report.afterEngrams)
    {
      var beforeCount, beforeVault := |m.memoryEngrams|, |m.antibodyVault|;
      var pruned := PhasePrune(m);
      DeduplicatedIsDistinct(m.memoryEngrams);
      RedundantCountIs(m.memoryEngrams);
      var deduplicated := PhaseDeduplicate(m);
      var promoted := PhasePromote(m);
      PhaseRebuildIndex(m);
      report := Report(
        beforeCount, |m.memoryEngrams|, beforeVault, |m.antibodyVault|, pruned, deduplicated, promoted,
        HealthGain(nearest, beforeCount, |m.memoryEngrams|));
    }

    method PhasePrune(m: MnemosyneCache) returns (pruned: nat)
      modifies m`memoryEngrams
      ensures m.memoryEngrams == Pruned(old(m.memoryEngrams))
      ensures pruned == |old(m.memoryEngrams)| - |m.memoryEngrams|
    {
      var original := m.memoryEngrams;
      var scored := SortedDescending(original, Quality);
      if |scored| > MAX_ENGRAM_RETENTION {
        scored := scored[..MAX_ENGRAM_RETENTION];
      }
      var filtered := LongEnough(scored);
      pruned := |original| - |filtered|;
      m.memoryEngrams := filtered;
    }

    method PhaseDeduplicate(m: MnemosyneCache) returns (deduplicated: nat)
      modifies m`memoryEngrams
      ensures m.memoryEngrams == Deduplicated(old(m.memoryEngrams))
      ensures deduplicated == RedundantCount(old(m.memoryEngrams))
    {
      var engrams := m.memoryEngrams;
      var seen: seq<Engram> := [];
      deduplicated := 0;
      for i := 0 to |engrams|
        invariant seen == Deduplicated(engrams[..i]) && deduplicated == RedundantCount(engrams[..i])
      {
        assert engrams[..i + 1][..i] == engrams[..i];
        if Redundant(engrams[i].text, seen) {
          deduplicated := deduplicated + 1;
        } else {
          seen := Assigned(seen, engrams[i]);
        }
      }
      assert engrams[..|engrams|] == engrams;
      m.memoryEngrams := seen;
    }

    method PhasePromote(m: MnemosyneCache) returns (promoted: nat)
      modifies m`memoryEngrams
      ensures m.memoryEngrams == SortedDescending(old(m.memoryEngrams), Severity)
      ensures promoted == if |old(m.memoryEngrams)| < 10 then |old(m.memoryEngrams)| else 10
    {
      promoted := if |m.memoryEngrams| < 10 then |m.memoryEngrams| else 10;
      m.memoryEngrams := SortedDescending(m.memoryEngrams, Severity);
    }

    method PhaseRebuildIndex(m: MnemosyneCache)
      modifies m`antibodyVault
      ensures m.antibodyVault == Surviving(old(m.antibodyVault), m.memoryEngrams, m.env)
    {
      var keys := m.antibodyVault.Keys;
      var vault := m.antibodyVault;
      while keys != {}
        invariant keys <= old(m.antibodyVault).Keys && vault.Keys <= old(m.antibodyVault).Keys
        invariant forall k :: k in vault ==> vault[k] == old(m.antibodyVault)[k]
        invariant forall k :: k in old(m.antibodyVault) ==>
                    (k in vault <==> k in keys || HasTrace(m.memoryEngrams, m.env.trace(old(m.antibodyVault)[k].fragment)))
        decreases |keys|
      {
        var key :| key in keys;
        if !HasTrace(m.memoryEngrams, m.env.trace(vault[key].fragment)) {
          vault := vault - {key};
        }
        keys := keys - {key};
      }
      m.antibodyVault := vault;
    }
  }

  // Every antibody that remains has a surviving engram, and none that has one is lost.
  lemma {:induction false} AntibodiesHaveEngrams(vault: map<string, Malignum>, engrams: seq<Engram>, env: Env, k: string)
    requires k in vault
    ensures k in Surviving(vault, Consolidated(engrams), env) <==>
            HasTrace(Deduplicated(Pruned(engrams)), env.trace(vault[k].fragment))
  {
    var kept, after, text := Deduplicated(Pruned(engrams)), Consolidated(engrams), env.trace(vault[k].fragment);
    SortIsStable(kept, Severity);
    if HasTrace(after, text) {
      var i :| 0 <= i < |after| && after[i].text == text;
      assert after[i] in multiset(kept);
    }
    if HasTrace(kept, text) {
      var i :| 0 <= i < |kept| && kept[i].text == text;
      assert kept[i] in multiset(after);
    }
  }
}
