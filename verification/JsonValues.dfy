/** JSON values as Python's json module writes them and reads them back: what mythos_runtime/assurance.py stores.

A value stands for its text, so the fields of an object have the order in which they are written.  Reading an object
back and writing it again sorts its keys as texts, and of two fields with one key the later is kept. */
module JsonValues {
  import opened Common

  datatype Json =
    | Null
    | Bool(value: bool)
    | Number(isZero: bool, spelling: string)
    | Text(text: string)
    | Items(items: seq<Json>)
    | Fields(fields: seq<Field>)

  datatype Field = Field(key: string, value: Json)

  // What Python's `or` passes over.
  predicate Falsy(j: Json) {
    match j
    case Null => true
    case Bool(value) => !value
    case Number(isZero, _) => isZero
    case Text(text) => text == ""
    case Items(items) => items == []
    case Fields(fields) => fields == []
  }

  lemma FalsyIff(j: Json)
    ensures Falsy(j) <==>
            j in [Null, Bool(false), Text(""), Items([]), Fields([])] || (j.Number? && j.isZero)
  {
  }

  // ----- Reading back -----

  function Codes(s: string): seq<int> {
    seq(|s|, i requires 0 <= i < |s| => s[i] as int)
  }

  predicate Earlier(a: string, b: string) {
    Below(Codes(a), Codes(b))
  }

  lemma EarlierIsTotal(a: string, b: string)
    ensures !Earlier(a, a)
    ensures a == b || Earlier(a, b) || Earlier(b, a)
    ensures !(Earlier(a, b) && Earlier(b, a))
  {
    BelowIsTotal(Codes(a), Codes(b));
    if Codes(a) == Codes(b) {
      assert |a| == |Codes(a)| == |b|;
      forall i | 0 <= i < |a| ensures a[i] == b[i] { assert Codes(a)[i] == Codes(b)[i]; }
    }
  }

  function Put(sorted: seq<Field>, f: Field): (r: seq<Field>)
    ensures f in r && forall x :: x in r ==> x == f || x in sorted
  {
    if sorted == [] then [f]
    else if sorted[0].key == f.key then [f] + sorted[1..]
    else if Earlier(f.key, sorted[0].key) then [f] + sorted
    else [sorted[0]] + Put(sorted[1..], f)
  }

  function InOrder(fields: seq<Field>): (r: seq<Field>)
    ensures forall x :: x in r ==> x in fields
  {
    if fields == [] then [] else Put(InOrder(fields[..|fields| - 1]), fields[|fields| - 1])
  }

  // What is written once a written value has been read.
  function Reread(j: Json): Json {
    match j
    case Items(items) => Items(seq(|items|, i requires 0 <= i < |items| => Reread(items[i])))
    case Fields(fields) => Fields(InOrder(EachReread(fields)))
    case _ => j
  }

  function EachReread(fields: seq<Field>): (r: seq<Field>)
    ensures |r| == |fields|
    ensures forall i :: 0 <= i < |fields| ==> r[i] == Field(fields[i].key, Reread(fields[i].value))
  {
    seq(|fields|, i requires 0 <= i < |fields| => Field(fields[i].key, Reread(fields[i].value)))
  }

  predicate Ascending(fields: seq<Field>) {
    forall i, j :: 0 <= i < j < |fields| ==> Earlier(fields[i].key, fields[j].key)
  }

  // At every depth the keys are in strictly ascending order.
  predicate Tidy(j: Json) {
    match j
    case Items(items) => forall i :: 0 <= i < |items| ==> Tidy(items[i])
    case Fields(fields) => Ascending(fields) && forall i :: 0 <= i < |fields| ==> Tidy(fields[i].value)
    case _ => true
  }

  lemma {:induction false} PutKeepsAscending(sorted: seq<Field>, f: Field)
    requires Ascending(sorted)
    ensures Ascending(Put(sorted, f))
  {
    if sorted != [] && sorted[0].key != f.key {
      EarlierIsTotal(f.key, sorted[0].key);
      if Earlier(f.key, sorted[0].key) {
        forall j | 1 <= j < |sorted| ensures Earlier(f.key, sorted[j].key) {
          BelowIsTransitive(Codes(f.key), Codes(sorted[0].key), Codes(sorted[j].key));
        }
      } else {
        PutKeepsAscending(sorted[1..], f);
        var r := Put(sorted[1..], f);
        forall j | 0 <= j < |r| ensures Earlier(sorted[0].key, r[j].key) {
          assert r[j] == f || r[j] in sorted[1..];
        }
      }
    }
  }

  lemma {:induction false} InOrderIsAscending(fields: seq<Field>)
    ensures Ascending(InOrder(fields))
  {
    if fields != [] {
      InOrderIsAscending(fields[..|fields| - 1]);
      PutKeepsAscending(InOrder(fields[..|fields| - 1]), fields[|fields| - 1]);
    }
  }

  lemma {:induction false} PutReplaces(sorted: seq<Field>, f: Field, x: Field)
    requires Ascending(sorted)
    ensures x in Put(sorted, f) <==> x == f || (x in sorted && x.key != f.key)
  {
    if sorted != [] {
      var rest := sorted[1..];
      assert sorted == [sorted[0]] + rest;
      assert forall i :: 0 <= i < |rest| ==> rest[i] == sorted[i + 1];
      KeysAreLater(sorted, f, x);
      if sorted[0].key != f.key { PutReplaces(rest, f, x); }
    }
  }

  lemma KeysAreLater(sorted: seq<Field>, f: Field, x: Field)
    requires Ascending(sorted) && sorted != []
    ensures x in sorted[1..] ==> x.key != sorted[0].key
    ensures x in sorted && Earlier(f.key, sorted[0].key) ==> x.key != f.key
  {
    EarlierIsTotal(x.key, x.key);
    if x in sorted {
      var i :| 0 <= i < |sorted| && sorted[i] == x;
      if Earlier(f.key, sorted[0].key) && x.key == f.key {
        EarlierIsTotal(f.key, sorted[0].key);
      }
    }
    if x in sorted[1..] {
      var i :| 0 <= i < |sorted| - 1 && sorted[1..][i] == x;
      assert sorted[i + 1] == x;
    }
  }

  // No later entry has the key of entry `i`.
  predicate IsLast(fields: seq<Field>, i: nat)
    requires i < |fields|
  {
    forall j :: i < j < |fields| ==> fields[j].key != fields[i].key
  }

  // Reading keeps the last entry of each key, and with it the value.
  lemma {:induction false} InOrderKeepsLast(fields: seq<Field>, x: Field)
    ensures x in InOrder(fields) <==> exists i :: 0 <= i < |fields| && fields[i] == x && IsLast(fields, i)
  {
    if fields != [] {
      var n := |fields| - 1;
      var front, f := fields[..n], fields[n];
      InOrderKeepsLast(front, x);
      InOrderIsAscending(front);
      PutReplaces(InOrder(front), f, x);
      if x in InOrder(fields) {
        if x == f {
          assert IsLast(fields, n);
        } else {
          var i :| 0 <= i < n && front[i] == x && IsLast(front, i);
          LastOfFront(fields, i);
        }
      }
      if i :| 0 <= i < |fields| && fields[i] == x && IsLast(fields, i) {
        if i < n {
          LastOfFront(fields, i);
          assert front[i] == x && IsLast(front, i);
        }
      }
    }
  }

  lemma LastOfFront(fields: seq<Field>, i: nat)
    requires i < |fields| - 1
    ensures IsLast(fields, i) <==>
            IsLast(fields[..|fields| - 1], i) && fields[|fields| - 1].key != fields[i].key
  {
    var front := fields[..|fields| - 1];
    assert forall j :: 0 <= j < |front| ==> front[j] == fields[j];
  }

  lemma {:induction false} PutAtTheEnd(sorted: seq<Field>, f: Field)
    requires forall i :: 0 <= i < |sorted| ==> Earlier(sorted[i].key, f.key)
    ensures Put(sorted, f) == sorted + [f]
  {
    if sorted != [] {
      EarlierIsTotal(sorted[0].key, f.key);
      PutAtTheEnd(sorted[1..], f);
      assert sorted + [f] == [sorted[0]] + (sorted[1..] + [f]);
    }
  }

  lemma AscendingFront(front: seq<Field>, last: Field)
    requires Ascending(front + [last])
    ensures Ascending(front)
    ensures forall i :: 0 <= i < |front| ==> Earlier(front[i].key, last.key)
  {
    var whole := front + [last];
    forall i, j | 0 <= i < j < |front| ensures Earlier(front[i].key, front[j].key) {
      assert whole[i] == front[i] && whole[j] == front[j];
    }
    forall i | 0 <= i < |front| ensures Earlier(front[i].key, last.key) {
      assert whole[i] == front[i] && whole[|front|] == last;
    }
  }

  lemma {:induction false} AscendingIsInOrder(fields: seq<Field>)
    requires Ascending(fields)
    ensures InOrder(fields) == fields
  {
    if fields != [] {
      var front, last := fields[..|fields| - 1], fields[|fields| - 1];
      assert fields == front + [last];
      AscendingFront(front, last);
      AscendingIsInOrder(front);
      PutAtTheEnd(front, last);
      assert InOrder(fields) == Put(front, last);
    }
  }

  // A written value is read back as itself exactly when its keys ascend at every depth.
  lemma {:induction false} RereadIsSameIff(j: Json)
    ensures Reread(j) == j <==> Tidy(j)
    decreases j, 1
  {
    match j
    case Items(items) =>
      forall i | 0 <= i < |items| ensures Reread(items[i]) == items[i] <==> Tidy(items[i]) {
        RereadIsSameIff(items[i]);
      }
      var r := Reread(j).items;
      assert r == items <==> forall i :: 0 <= i < |items| ==> r[i] == items[i];
    case Fields(fields) => RereadFieldsIff(j);
    case _ =>
  }

  lemma RereadFieldsIff(j: Json)
    requires j.Fields?
    ensures Reread(j) == j <==> Tidy(j)
    decreases j, 0
  {
    var fields, each := j.fields, EachReread(j.fields);
    forall i | 0 <= i < |fields| ensures Reread(fields[i].value) == fields[i].value <==> Tidy(fields[i].value) {
      RereadIsSameIff(fields[i].value);
    }
    InOrderIsAscending(each);
    if Ascending(fields) {
      AscendingIsInOrder(each);
      assert each == fields <==> forall i :: 0 <= i < |fields| ==> each[i] == fields[i];
    }
  }

  lemma {:induction false} RereadIsTidy(j: Json)
    ensures Tidy(Reread(j))
  {
    match j
    case Items(items) =>
      forall i | 0 <= i < |items| ensures Tidy(Reread(items[i])) { RereadIsTidy(items[i]); }
    case Fields(fields) =>
      var each := EachReread(fields);
      forall i | 0 <= i < |fields| ensures Tidy(each[i].value) { RereadIsTidy(fields[i].value); }
      InOrderIsAscending(each);
      var r := InOrder(each);
      forall i | 0 <= i < |r| ensures Tidy(r[i].value) { assert r[i] in each; }
    case _ =>
  }

  // Reading back settles after one time.
  lemma RereadTwice(j: Json)
    ensures Reread(Reread(j)) == Reread(j)
  {
    RereadIsTidy(j);
    RereadIsSameIff(Reread(j));
  }

  // ----- Writing Python values -----

  datatype Key = TextKey(text: string) | NumberKey(number: real, spelling: string) | NullKey

  type Scalar = j: Json | !j.Items? && !j.Fields? witness Null

  // A Python value; `Foreign` is what json.dumps has no form for, such as a date, a set, or a mapping with a tuple for a
  // key.
  datatype Value =
    | Plain(json: Scalar)
    | Sequence(items: seq<Value>)
    | Mapping(entries: seq<Item>)
    | Foreign

  datatype Item = Item(key: Key, value: Value)

  function Spelling(k: Key): string {
    match k
    case TextKey(text) => text
    case NumberKey(_, spelling) => spelling
    case NullKey => "null"
  }

  datatype Numbered = Numbered(number: real, field: Field)

  function PutByNumber(sorted: seq<Numbered>, f: Numbered): seq<Numbered> {
    if sorted == [] || f.number < sorted[0].number then [f] + sorted
    else if sorted[0].number == f.number then [f] + sorted[1..]
    else [sorted[0]] + PutByNumber(sorted[1..], f)
  }

  function ByNumber(fields: seq<Numbered>): seq<Numbered> {
    if fields == [] then [] else PutByNumber(ByNumber(fields[..|fields| - 1]), fields[|fields| - 1])
  }

  predicate Rising(fields: seq<Numbered>) {
    forall i, j :: 0 <= i < j < |fields| ==> fields[i].number < fields[j].number
  }

  lemma {:induction false} PutByNumberRises(sorted: seq<Numbered>, f: Numbered)
    requires Rising(sorted)
    ensures Rising(PutByNumber(sorted, f))
  {
    if sorted != [] && sorted[0].number < f.number {
      var rest := sorted[1..];
      PutByNumberRises(rest, f);
      var r := PutByNumber(rest, f);
      forall j | 0 <= j < |r| ensures sorted[0].number < r[j].number {
        PutByNumberReplaces(rest, f, r[j]);
        if r[j] != f { var i :| 0 <= i < |rest| && rest[i] == r[j]; }
      }
    }
  }

  lemma {:induction false} PutByNumberReplaces(sorted: seq<Numbered>, f: Numbered, x: Numbered)
    requires Rising(sorted)
    ensures x in PutByNumber(sorted, f) <==> x == f || (x in sorted && x.number != f.number)
  {
    if sorted != [] {
      var rest := sorted[1..];
      assert sorted == [sorted[0]] + rest;
      NumbersAreLater(sorted, x);
      if sorted[0].number < f.number { PutByNumberReplaces(rest, f, x); }
    }
  }

  lemma NumbersAreLater(sorted: seq<Numbered>, x: Numbered)
    requires Rising(sorted) && sorted != []
    ensures x in sorted ==> x == sorted[0] || x.number > sorted[0].number
    ensures x in sorted[1..] ==> x.number > sorted[0].number
  {
    if x in sorted[1..] {
      var i :| 0 <= i < |sorted| - 1 && sorted[1..][i] == x;
      assert sorted[i + 1] == x;
    }
  }

  // No later entry has the number of entry `i`.
  predicate IsLastNumber(fields: seq<Numbered>, i: nat)
    requires i < |fields|
  {
    forall j :: i < j < |fields| ==> fields[j].number != fields[i].number
  }

  // Numbers are written in rising order, the last entry of each.
  lemma {:induction false} ByNumberRises(fields: seq<Numbered>)
    ensures Rising(ByNumber(fields))
  {
    if fields != [] {
      ByNumberRises(fields[..|fields| - 1]);
      PutByNumberRises(ByNumber(fields[..|fields| - 1]), fields[|fields| - 1]);
    }
  }

  lemma {:induction false} ByNumberKeepsLast(fields: seq<Numbered>, x: Numbered)
    ensures x in ByNumber(fields) <==> exists i :: 0 <= i < |fields| && fields[i] == x && IsLastNumber(fields, i)
  {
    if fields != [] {
      var n := |fields| - 1;
      var front, f := fields[..n], fields[n];
      ByNumberKeepsLast(front, x);
      ByNumberRises(front);
      PutByNumberReplaces(ByNumber(front), f, x);
      if x in ByNumber(fields) {
        if x == f {
          assert IsLastNumber(fields, n);
        } else {
          var i :| 0 <= i < n && front[i] == x && IsLastNumber(front, i);
          LastNumberOfFront(fields, i);
        }
      }
      if i :| 0 <= i < |fields| && fields[i] == x && IsLastNumber(fields, i) {
        if i < n {
          LastNumberOfFront(fields, i);
          assert front[i] == x && IsLastNumber(front, i);
        }
      }
    }
  }

  lemma LastNumberOfFront(fields: seq<Numbered>, i: nat)
    requires i < |fields| - 1
    ensures IsLastNumber(fields, i) <==>
            IsLastNumber(fields[..|fields| - 1], i) && fields[|fields| - 1].number != fields[i].number
  {
    var front := fields[..|fields| - 1];
    assert forall j :: 0 <= j < |front| ==> front[j] == fields[j];
  }

  // How keys are spelled: texts as they are, and null by its name.
  lemma SpellingIs(k: Key, text: string)
    ensures k == TextKey(text) ==> Spelling(k) == text
    ensures k == NullKey ==> Spelling(k) == "null"
    ensures k.NumberKey? ==> Spelling(k) == k.spelling
  {
  }

  // `sort_keys=True`: keys that Python cannot compare with one another are an error.
  function SortedFields(keys: seq<Key>, values: seq<Json>): Option<seq<Field>>
    requires |keys| == |values|
  {
    var fields := seq(|keys|, i requires 0 <= i < |keys| => Field(Spelling(keys[i]), values[i]));
    if forall i :: 0 <= i < |keys| ==> keys[i].TextKey? then Some(InOrder(fields))
    else if forall i :: 0 <= i < |keys| ==> keys[i].NumberKey? then
      var sorted := ByNumber(seq(|keys|, i requires 0 <= i < |keys| => Numbered(keys[i].number, fields[i])));
      Some(seq(|sorted|, i requires 0 <= i < |sorted| => sorted[i].field))
    else if |keys| == 1 then Some(fields)
    else None
  }

  // What json.dumps writes, if it raises nothing.
  function Written(v: Value): Option<Json> {
    match v
    case Plain(json) => Some(json)
    case Sequence(items) =>
      var each := seq(|items|, i requires 0 <= i < |items| => Written(items[i]));
      if forall i :: 0 <= i < |each| ==> each[i].Some? then
        Some(Items(seq(|each|, i requires 0 <= i < |each| => each[i].value)))
      else None
    case Mapping(entries) =>
      var each := seq(|entries|, i requires 0 <= i < |entries| => Written(entries[i].value));
      if forall i :: 0 <= i < |each| ==> each[i].Some? then
        var fields := SortedFields(seq(|entries|, i requires 0 <= i < |entries| => entries[i].key),
                                   seq(|each|, i requires 0 <= i < |each| => each[i].value));
        if fields.Some? then Some(Fields(fields.value)) else None
      else None
    case Foreign => None
  }

  // What json.dumps has a form for: values all the way down that it has, and mappings whose keys are all texts or all
  // numbers, or that have one key only.
  predicate Writable(v: Value) {
    match v
    case Plain(_) => true
    case Sequence(items) => forall i :: 0 <= i < |items| ==> Writable(items[i])
    case Mapping(entries) =>
      && (forall i :: 0 <= i < |entries| ==> Writable(entries[i].value))
      && (|entries| <= 1 || (forall i :: 0 <= i < |entries| ==> entries[i].key.TextKey?) ||
          forall i :: 0 <= i < |entries| ==> entries[i].key.NumberKey?)
    case Foreign => false
  }

  lemma {:induction false} WrittenIff(v: Value)
    ensures Written(v).Some? <==> Writable(v)
  {
    match v
    case Sequence(items) =>
      var each := seq(|items|, i requires 0 <= i < |items| => Written(items[i]));
      forall i | 0 <= i < |items| ensures each[i].Some? <==> Writable(items[i]) { WrittenIff(items[i]); }
    case Mapping(entries) =>
      var each := seq(|entries|, i requires 0 <= i < |entries| => Written(entries[i].value));
      forall i | 0 <= i < |entries| ensures each[i].Some? <==> Writable(entries[i].value) {
        WrittenIff(entries[i].value);
      }
      var keys := seq(|entries|, i requires 0 <= i < |entries| => entries[i].key);
      if forall i :: 0 <= i < |each| ==> each[i].Some? {
        SortedIff(keys, seq(|each|, i requires 0 <= i < |each| => each[i].value));
        assert forall i :: 0 <= i < |keys| ==> keys[i] == entries[i].key;
        assert (forall i :: 0 <= i < |keys| ==> keys[i].TextKey?) <==>
               forall i :: 0 <= i < |entries| ==> entries[i].key.TextKey?;
        assert (forall i :: 0 <= i < |keys| ==> keys[i].NumberKey?) <==>
               forall i :: 0 <= i < |entries| ==> entries[i].key.NumberKey?;
      }
    case _ =>
  }

  lemma SortedIff(keys: seq<Key>, values: seq<Json>)
    requires |keys| == |values|
    ensures SortedFields(keys, values).Some? <==>
            || |keys| <= 1 || (forall i :: 0 <= i < |keys| ==> keys[i].TextKey?)
            || forall i :: 0 <= i < |keys| ==> keys[i].NumberKey?
  {
  }

  // Text keys are written in ascending order, the last value of each.
  lemma TextFieldsAre(keys: seq<Key>, values: seq<Json>, x: Field)
    requires |keys| == |values| && forall i :: 0 <= i < |keys| ==> keys[i].TextKey?
    ensures SortedFields(keys, values).Some? && Ascending(SortedFields(keys, values).value)
    ensures x in SortedFields(keys, values).value <==>
            exists i :: 0 <= i < |keys| && x == Field(keys[i].text, values[i]) &&
                        forall j :: i < j < |keys| ==> keys[j] != keys[i]
  {
    var fields := seq(|keys|, i requires 0 <= i < |keys| => Field(Spelling(keys[i]), values[i]));
    InOrderIsAscending(fields);
    InOrderKeepsLast(fields, x);
    forall i | 0 <= i < |keys| ensures IsLast(fields, i) <==> forall j :: i < j < |keys| ==> keys[j] != keys[i] {
      assert forall j :: 0 <= j < |keys| ==> fields[j].key == keys[j].text;
    }
  }

  // Number keys are written in rising order, the last value of each: `at` says which entries these are.
  lemma NumberFieldsAre(keys: seq<Key>, values: seq<Json>) returns (at: seq<nat>)
    requires |keys| == |values| && keys != [] && forall i :: 0 <= i < |keys| ==> keys[i].NumberKey?
    ensures SortedFields(keys, values).Some? && |SortedFields(keys, values).value| == |at|
    ensures forall k :: 0 <= k < |at| ==>
              at[k] < |keys| &&
              SortedFields(keys, values).value[k] == Field(keys[at[k]].spelling, values[at[k]])
    ensures forall k, l :: 0 <= k < l < |at| ==> keys[at[k]].number < keys[at[l]].number
    ensures forall i :: 0 <= i < |keys| ==>
              (i in at <==> forall j :: i < j < |keys| ==> keys[j].number != keys[i].number)
  {
    var fields := seq(|keys|, i requires 0 <= i < |keys| => Field(Spelling(keys[i]), values[i]));
    var numbered := seq(|keys|, i requires 0 <= i < |keys| => Numbered(keys[i].number, fields[i]));
    at := LastNumbersAt(numbered);
    assert forall i :: 0 <= i < |keys| ==> numbered[i].number == keys[i].number;
    forall i | 0 <= i < |keys|
      ensures i in at <==> forall j :: i < j < |keys| ==> keys[j].number != keys[i].number
    {
      assert i in at <==> IsLastNumber(numbered, i);
    }
  }

  lemma LastNumbersAt(fields: seq<Numbered>) returns (at: seq<nat>)
    ensures |at| == |ByNumber(fields)|
    ensures forall k :: 0 <= k < |at| ==> at[k] < |fields| && ByNumber(fields)[k] == fields[at[k]]
    ensures forall k, l :: 0 <= k < l < |at| ==> fields[at[k]].number < fields[at[l]].number
    ensures forall i :: 0 <= i < |fields| ==> (i in at <==> IsLastNumber(fields, i))
  {
    var sorted := ByNumber(fields);
    ByNumberRises(fields);
    at := LastsOf(fields, sorted);
    forall i | 0 <= i < |fields| ensures i in at <==> IsLastNumber(fields, i) {
      if IsLastNumber(fields, i) {
        ByNumberKeepsLast(fields, fields[i]);
        var k :| 0 <= k < |sorted| && sorted[k] == fields[i];
        assert at[k] == i;
      }
    }
  }

  lemma {:induction false} LastsOf(fields: seq<Numbered>, sorted: seq<Numbered>) returns (at: seq<nat>)
    requires sorted <= ByNumber(fields)
    ensures |at| == |sorted|
    ensures forall k :: 0 <= k < |at| ==> at[k] < |fields| && fields[at[k]] == sorted[k] && IsLastNumber(fields, at[k])
  {
    at := [];
    if sorted != [] {
      var last := sorted[|sorted| - 1];
      at := LastsOf(fields, sorted[..|sorted| - 1]);
      assert last in ByNumber(fields);
      ByNumberKeepsLast(fields, last);
      var i :| 0 <= i < |fields| && fields[i] == last && IsLastNumber(fields, i);
      at := at + [i];
    }
  }

  // The value can be written, and reading what is written gives it back.
  predicate Survives(v: Value) {
    Written(v).Some? && Reread(Written(v).value) == Written(v).value
  }

  // Every key, at every depth, is a text.
  predicate TextKeys(v: Value) {
    match v
    case Plain(_) => true
    case Sequence(items) => forall i :: 0 <= i < |items| ==> TextKeys(items[i])
    case Mapping(entries) => forall i :: 0 <= i < |entries| ==> entries[i].key.TextKey? && TextKeys(entries[i].value)
    case Foreign => true
  }

  // Metadata whose keys are all texts survives whenever it can be written.
  lemma {:induction false} TextKeysSurvive(v: Value)
    requires TextKeys(v) && Written(v).Some?
    ensures Survives(v) && Tidy(Written(v).value)
  {
    WrittenIsTidy(v);
    RereadIsSameIff(Written(v).value);
  }

  lemma {:induction false} WrittenIsTidy(v: Value)
    requires TextKeys(v) && Written(v).Some?
    ensures Tidy(Written(v).value)
  {
    match v
    case Sequence(items) =>
      var each := seq(|items|, i requires 0 <= i < |items| => Written(items[i]));
      forall i | 0 <= i < |items| ensures Tidy(Written(v).value.items[i]) {
        assert each[i].Some?;
        WrittenIsTidy(items[i]);
      }
    case Mapping(entries) =>
      var each := seq(|entries|, i requires 0 <= i < |entries| => Written(entries[i].value));
      var keys := seq(|entries|, i requires 0 <= i < |entries| => entries[i].key);
      var values := seq(|each|, i requires 0 <= i < |each| => each[i].value);
      forall i | 0 <= i < |values| ensures Tidy(values[i]) {
        assert each[i].Some?;
        WrittenIsTidy(entries[i].value);
      }
      SortedTextFieldsAreTidy(keys, values);
    case _ =>
  }

  lemma SortedTextFieldsAreTidy(keys: seq<Key>, values: seq<Json>)
    requires |keys| == |values|
    requires forall i :: 0 <= i < |keys| ==> keys[i].TextKey? && Tidy(values[i])
    ensures SortedFields(keys, values).Some? && Tidy(Fields(SortedFields(keys, values).value))
  {
    var fields := seq(|keys|, i requires 0 <= i < |keys| => Field(Spelling(keys[i]), values[i]));
    InOrderIsAscending(fields);
    var r := InOrder(fields);
    forall i | 0 <= i < |r| ensures Tidy(r[i].value) { assert r[i] in fields; }
  }

  lemma TwoByNumber(a: Numbered, b: Numbered)
    requires a.number < b.number
    ensures ByNumber([a, b]) == [a, b]
  {
    var none: seq<Numbered> := [];
    assert [a, b][..1] == [a] && [a][..0] == none && [a][1..] == none;
    assert ByNumber([a]) == PutByNumber(none, a) == [a];
    assert PutByNumber([a], b) == [a] + PutByNumber(none, b) == [a, b];
  }

  // A mapping with two number keys is written in the order of the numbers.
  lemma TwoNumbersWritten(a: Key, x: Scalar, b: Key, y: Scalar)
    requires a.NumberKey? && b.NumberKey? && a.number < b.number
    ensures Written(Mapping([Item(a, Plain(x)), Item(b, Plain(y))])) ==
            Some(Fields([Field(a.spelling, x), Field(b.spelling, y)]))
  {
    var entries := [Item(a, Plain(x)), Item(b, Plain(y))];
    var keys := seq(2, i requires 0 <= i < 2 => entries[i].key);
    assert keys == [a, b];
    var each := seq(2, i requires 0 <= i < 2 => Written(entries[i].value));
    assert each == [Some(x), Some(y)];
    var values := seq(2, i requires 0 <= i < 2 => each[i].value);
    assert values == [x, y];
    TwoByNumber(Numbered(a.number, Field(a.spelling, x)), Numbered(b.number, Field(b.spelling, y)));
    TwoNumbersSorted(a, x, b, y);
  }

  lemma TwoNumbersSorted(a: Key, x: Json, b: Key, y: Json)
    requires a.NumberKey? && b.NumberKey? && a.number < b.number
    ensures SortedFields([a, b], [x, y]) == Some([Field(a.spelling, x), Field(b.spelling, y)])
  {
    var keys, f := [a, b], [Field(a.spelling, x), Field(b.spelling, y)];
    var fields := seq(2, i requires 0 <= i < 2 => Field(Spelling(keys[i]), [x, y][i]));
    assert fields == f;
    var numbered := seq(2, i requires 0 <= i < 2 => Numbered(keys[i].number, fields[i]));
    assert numbered == [Numbered(a.number, f[0]), Numbered(b.number, f[1])];
    TwoByNumber(numbered[0], numbered[1]);
    assert ByNumber(numbered) == numbered;
    assert seq(2, i requires 0 <= i < 2 => numbered[i].field) == f;
    assert keys[0].NumberKey?;
  }

  // Two number keys survive exactly when their spellings ascend as texts.
  lemma TwoNumbersSurviveIff(a: Key, x: Scalar, b: Key, y: Scalar)
    requires a.NumberKey? && b.NumberKey? && a.number < b.number
    ensures Survives(Mapping([Item(a, Plain(x)), Item(b, Plain(y))])) <==> Earlier(a.spelling, b.spelling)
  {
    TwoNumbersWritten(a, x, b, y);
    var j := Fields([Field(a.spelling, x), Field(b.spelling, y)]);
    RereadIsSameIff(j);
    assert j.fields[0].key == a.spelling && j.fields[1].key == b.spelling;
    assert Tidy(x) && Tidy(y);
  }

  // {2: 1, 10: 3} comes back in the order "10", "2".
  const RETRIES: Value :=
    Mapping([Item(NumberKey(2.0, "2"), Plain(Number(false, "1"))), Item(NumberKey(10.0, "10"), Plain(Number(false, "3")))])

  lemma RetriesDoNotSurvive()
    ensures Written(RETRIES) == Some(Fields([Field("2", Number(false, "1")), Field("10", Number(false, "3"))]))
    ensures !Survives(RETRIES)
  {
    var a, b := NumberKey(2.0, "2"), NumberKey(10.0, "10");
    TwoNumbersWritten(a, Number(false, "1"), b, Number(false, "3"));
    TwoNumbersSurviveIff(a, Number(false, "1"), b, Number(false, "3"));
    assert Codes("2")[0] > Codes("10")[0];
  }
}
