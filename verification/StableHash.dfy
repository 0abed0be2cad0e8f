/** `sortKeys` and `stableHash` of src/aegis-cdm-mesh.ts.

Strings are sequences of UTF-16 code units.  The hash is the unsigned reading of JavaScript's 32-bit integer, so
`^=`, `Math.imul` and `>>>` become exclusive or, multiplication and remainder on 0 .. 2^32 - 1.  How JSON.stringify
spells a value is a parameter. */
module StableHash {
  import opened Common

  type Unit = u: int | 0 <= u < 0x1_0000
  type Text = seq<Unit>

  const MODULUS := 0x1_0000_0000
  const OFFSET_BASIS: Word := 0x811c_9dc5
  const PRIME := 0x0100_0193
  const PRIME_INVERSE := 0x359c_449b

  type Word = h: int | 0 <= h < MODULUS

  // ----- Values and key order -----

  // A JSON value; an object keeps its keys in insertion order beside what they map to.
  datatype Json =
    | Null
    | Bool(value: bool)
    | Number(spelling: Text)
    | String(text: Text)
    | Array(items: seq<Json>)
    | Object(order: seq<Text>, fields: map<Text, Json>)

  predicate Distinct(keys: seq<Text>) {
    forall i, j :: 0 <= i < j < |keys| ==> keys[i] != keys[j]
  }

  // At every depth, the key order lists each field once.
  ghost predicate WellFormed(v: Json) {
    match v
    case Array(items) => forall i :: 0 <= i < |items| ==> WellFormed(items[i])
    case Object(order, fields) =>
      Distinct(order) && (forall k :: k in order <==> k in fields) && forall k :: k in fields ==> WellFormed(fields[k])
    case _ => true
  }

  // Equal but for the order of keys, at every depth.
  ghost predicate SameUpToKeyOrder(v: Json, w: Json) {
    match v
    case Array(items) =>
      w.Array? && |items| == |w.items| && forall i :: 0 <= i < |items| ==> SameUpToKeyOrder(items[i], w.items[i])
    case Object(_, fields) =>
      w.Object? && fields.Keys == w.fields.Keys && forall k :: k in fields ==> SameUpToKeyOrder(fields[k], w.fields[k])
    case _ => v == w
  }

  // Array.prototype.sort orders strings by their code units.
  function Insert(k: Text, sorted: seq<Text>): seq<Text> {
    if sorted == [] || Below(k, sorted[0]) then [k] + sorted
    else [sorted[0]] + Insert(k, sorted[1..])
  }

  function Sorted(keys: seq<Text>): seq<Text> {
    if keys == [] then [] else Insert(keys[0], Sorted(keys[1..]))
  }

  function SortKeys(v: Json): Json {
    match v
    case Array(items) => Array(seq(|items|, i requires 0 <= i < |items| => SortKeys(items[i])))
    case Object(order, fields) => Object(Sorted(order), map k | k in fields :: SortKeys(fields[k]))
    case _ => v
  }

  predicate Ascending(keys: seq<Text>) {
    forall i, j :: 0 <= i < j < |keys| ==> Below(keys[i], keys[j])
  }

  lemma {:induction false} InsertKeepsAscending(k: Text, s: seq<Text>)
    requires Ascending(s) && k !in s
    ensures Ascending(Insert(k, s))
    ensures forall x :: x in Insert(k, s) <==> x == k || x in s
  {
    if s == [] {
    } else if Below(k, s[0]) {
      forall j | 1 <= j < |s| ensures Below(k, s[j]) { BelowIsTransitive(k, s[0], s[j]); }
    } else {
      BelowIsTotal(k, s[0]);
      InsertKeepsAscending(k, s[1..]);
      var r := Insert(k, s[1..]);
      forall j | 0 <= j < |r| ensures Below(s[0], r[j]) {
        assert r[j] == k || r[j] in s[1..];
      }
    }
  }

  lemma {:induction false} SortedIsAscending(keys: seq<Text>)
    requires Distinct(keys)
    ensures Ascending(Sorted(keys))
    ensures forall x :: x in Sorted(keys) <==> x in keys
  {
    if keys != [] {
      SortedIsAscending(keys[1..]);
      InsertKeepsAscending(keys[0], Sorted(keys[1..]));
      assert keys == [keys[0]] + keys[1..];
    }
  }

  // An ascending list is determined by its elements.
  lemma {:induction false} AscendingIsUnique(a: seq<Text>, b: seq<Text>)
    requires Ascending(a) && Ascending(b)
    requires forall x :: x in a <==> x in b
    ensures a == b
  {
    assert b != [] ==> b[0] in b;
    if a == [] {
    } else {
      assert a[0] in a;
      HeadIsLeast(a, b[0]);
      HeadIsLeast(b, a[0]);
      BelowIsTotal(a[0], b[0]);
      forall x ensures x in a[1..] <==> x in b[1..] {
        TailExcludesHead(a, x);
        TailExcludesHead(b, x);
      }
      AscendingIsUnique(a[1..], b[1..]);
      assert a == [a[0]] + a[1..] && b == [b[0]] + b[1..];
    }
  }

  lemma HeadIsLeast(a: seq<Text>, x: Text)
    requires Ascending(a) && x in a
    ensures x == a[0] || Below(a[0], x)
  {
  }

  lemma TailExcludesHead(a: seq<Text>, x: Text)
    requires Ascending(a) && a != []
    ensures x in a[1..] <==> x in a && x != a[0]
  {
    BelowIsTotal(a[0], a[0]);
    assert a == [a[0]] + a[1..];
    if x in a[1..] {
      var i :| 0 <= i < |a| - 1 && a[1..][i] == x;
      assert Below(a[0], a[i + 1]);
    }
  }

  // At every depth the keys ascend.
  ghost predicate KeysAscend(v: Json) {
    match v
    case Array(items) => forall i :: 0 <= i < |items| ==> KeysAscend(items[i])
    case Object(order, fields) => Ascending(order) && forall k :: k in fields ==> KeysAscend(fields[k])
    case _ => true
  }

  // The sorted form is the same value with its keys ascending at every depth, each field listed once.
  lemma {:induction false} SortKeysSorts(v: Json)
    requires WellFormed(v)
    ensures KeysAscend(SortKeys(v)) && WellFormed(SortKeys(v)) && SameUpToKeyOrder(v, SortKeys(v))
  {
    match v
    case Array(items) =>
      forall i | 0 <= i < |items|
        ensures KeysAscend(SortKeys(items[i])) && WellFormed(SortKeys(items[i])) &&
                SameUpToKeyOrder(items[i], SortKeys(items[i]))
      {
        SortKeysSorts(items[i]);
      }
    case Object(order, fields) =>
      SortedIsAscending(order);
      AscendingIsDistinct(Sorted(order));
      forall k | k in fields
        ensures KeysAscend(SortKeys(fields[k])) && WellFormed(SortKeys(fields[k])) &&
                SameUpToKeyOrder(fields[k], SortKeys(fields[k]))
      {
        SortKeysSorts(fields[k]);
      }
    case _ =>
  }

  lemma AscendingIsDistinct(keys: seq<Text>)
    requires Ascending(keys)
    ensures Distinct(keys)
  {
    forall i, j | 0 <= i < j < |keys| ensures keys[i] != keys[j] {
      BelowIsTotal(keys[i], keys[j]);
      BelowIsTotal(keys[i], keys[i]);
    }
  }

  // Sorting keys forgets their order, at every depth, and nothing else.
  lemma {:induction false} SortKeysIffSame(v: Json, w: Json)
    requires WellFormed(v) && WellFormed(w)
    ensures SortKeys(v) == SortKeys(w) <==> SameUpToKeyOrder(v, w)
    decreases v, 1
  {
    match v
    case Array(items) => if w.Array? { SortArrayIffSame(v, w); }
    case Object(order, fields) => if w.Object? { SortObjectIffSame(v, w); }
    case _ =>
  }

  lemma SortArrayIffSame(v: Json, w: Json)
    requires v.Array? && w.Array? && WellFormed(v) && WellFormed(w)
    ensures SortKeys(v) == SortKeys(w) <==> SameUpToKeyOrder(v, w)
    decreases v, 0
  {
    var s, t := SortKeys(v).items, SortKeys(w).items;
    forall i | 0 <= i < |v.items| && i < |w.items|
      ensures s[i] == t[i] <==> SameUpToKeyOrder(v.items[i], w.items[i])
    {
      SortKeysIffSame(v.items[i], w.items[i]);
    }
    assert s == t <==> |s| == |t| && forall i :: 0 <= i < |s| ==> s[i] == t[i];
  }

  lemma SortObjectIffSame(v: Json, w: Json)
    requires v.Object? && w.Object? && WellFormed(v) && WellFormed(w)
    ensures SortKeys(v) == SortKeys(w) <==> SameUpToKeyOrder(v, w)
    decreases v, 0
  {
    var s, t := SortKeys(v).fields, SortKeys(w).fields;
    forall k | k in v.fields && k in w.fields
      ensures s[k] == t[k] <==> SameUpToKeyOrder(v.fields[k], w.fields[k])
    {
      SortKeysIffSame(v.fields[k], w.fields[k]);
    }
    assert s.Keys == v.fields.Keys && t.Keys == w.fields.Keys;
    assert s == t <==> s.Keys == t.Keys && forall k :: k in s ==> s[k] == t[k];
    if s == t {
      SortedIsAscending(v.order);
      SortedIsAscending(w.order);
      AscendingIsUnique(Sorted(v.order), Sorted(w.order));
    }
  }

  // ----- The hash -----

  function Xor(a: nat, b: nat): nat {
    if a == 0 && b == 0 then 0 else (if a % 2 == b % 2 then 0 else 1) + 2 * Xor(a / 2, b / 2)
  }

  lemma XorBits(a: nat, b: nat)
    ensures Xor(a, b) / 2 == Xor(a / 2, b / 2)
    ensures Xor(a, b) % 2 == if a % 2 == b % 2 then 0 else 1
  {
  }

  lemma {:induction false} XorCancels(a: nat, b: nat)
    ensures Xor(Xor(a, b), b) == a
  {
    if a != 0 || b != 0 {
      XorCancels(a / 2, b / 2);
      XorBits(a, b);
      XorBits(Xor(a, b), b);
    }
  }

  lemma {:induction false} XorIsSymmetric(a: nat, b: nat)
    ensures Xor(a, b) == Xor(b, a)
  {
    if a != 0 || b != 0 { XorIsSymmetric(a / 2, b / 2); }
  }

  function Pow2(n: nat): nat {
    if n == 0 then 1 else 2 * Pow2(n - 1)
  }

  lemma Pow2ByFour(n: nat)
    ensures Pow2(n + 4) == 16 * Pow2(n)
  {
    assert Pow2(n + 4) == 2 * Pow2(n + 3) && Pow2(n + 3) == 2 * Pow2(n + 2);
    assert Pow2(n + 2) == 2 * Pow2(n + 1) && Pow2(n + 1) == 2 * Pow2(n);
  }

  lemma WordWidth()
    ensures Pow2(4) == 16 && Pow2(32) == MODULUS
  {
    Pow2ByFour(0); Pow2ByFour(4); Pow2ByFour(8); Pow2ByFour(12);
    Pow2ByFour(16); Pow2ByFour(20); Pow2ByFour(24); Pow2ByFour(28);
  }

  lemma {:induction false} XorStaysInWidth(a: nat, b: nat, width: nat)
    requires a < Pow2(width) && b < Pow2(width)
    ensures Xor(a, b) < Pow2(width)
  {
    if a != 0 || b != 0 { XorStaysInWidth(a / 2, b / 2, width - 1); }
  }

  lemma XorIsWord(h: Word, c: Unit)
    ensures Xor(h, c) < MODULUS
  {
    WordWidth();
    XorStaysInWidth(h, c, 32);
  }

  // One turn of the loop: hash ^= unit; hash = Math.imul(hash, PRIME).
  function Step(h: Word, c: Unit): Word {
    (Xor(h, c) * PRIME) % MODULUS
  }

  function Unstep(h: Word, c: Unit): Word {
    XorIsWord((h * PRIME_INVERSE) % MODULUS, c);
    Xor((h * PRIME_INVERSE) % MODULUS, c)
  }

  lemma {:induction false} MultiplicationUndone(x: Word)
    ensures (((x * PRIME) % MODULUS) * PRIME_INVERSE) % MODULUS == x
    ensures (((x * PRIME_INVERSE) % MODULUS) * PRIME) % MODULUS == x
  {
    UndoneBy(x, PRIME, PRIME_INVERSE);
    UndoneBy(x, PRIME_INVERSE, PRIME);
  }

  lemma {:induction false} UndoneBy(x: Word, p: nat, inverse: nat)
    requires p * inverse == PRIME * PRIME_INVERSE
    ensures (((x * p) % MODULUS) * inverse) % MODULUS == x
  {
    var q, r := (x * p) / MODULUS, (x * p) % MODULUS;
    var k := (PRIME * PRIME_INVERSE) / MODULUS;
    assert PRIME * PRIME_INVERSE == k * MODULUS + 1;
    calc {
      r * inverse;
      (x * p - q * MODULUS) * inverse;
      x * (p * inverse) - q * inverse * MODULUS;
      x * (k * MODULUS + 1) - q * inverse * MODULUS;
      x + (x * k - q * inverse) * MODULUS;
    }
    RemainderOf(x, x * k - q * inverse);
  }

  lemma RemainderOf(x: Word, n: int)
    ensures (x + n * MODULUS) % MODULUS == x
  {
  }

  // Each turn of the loop is a bijection on 32-bit words, whatever the code unit.
  lemma {:induction false} StepIsBijective(h: Word, c: Unit)
    ensures Unstep(Step(h, c), c) == h
    ensures Step(Unstep(h, c), c) == h
  {
    XorIsWord(h, c);
    MultiplicationUndone(Xor(h, c));
    XorCancels(h, c);
    MultiplicationUndone(h);
    XorCancels((h * PRIME_INVERSE) % MODULUS, c);
  }

  lemma StepSeparatesUnits(h: Word, c: Unit, d: Unit)
    requires Step(h, c) == Step(h, d)
    ensures c == d
  {
    XorIsWord(h, c); XorIsWord(h, d);
    MultiplicationUndone(Xor(h, c)); MultiplicationUndone(Xor(h, d));
    XorIsSymmetric(h, c); XorIsSymmetric(h, d);
    XorCancels(c, h); XorCancels(d, h);
  }

  // The hash state after a text, starting from `h`.
  function Hash(h: Word, text: Text): Word {
    if text == [] then h else Step(Hash(h, text[..|text| - 1]), text[|text| - 1])
  }

  // The numbers are those of the 32-bit FNV-1a function.
  lemma ConstantsAreFnv(h: Word, c: Unit)
    ensures Hash(OFFSET_BASIS, []) == 2_166_136_261
    ensures Step(h, c) == (Xor(h, c) * 16_777_619) % 4_294_967_296
  {
  }

  lemma {:induction false} HashOfConcatenation(h: Word, p: Text, q: Text)
    ensures Hash(h, p + q) == Hash(Hash(h, p), q)
  {
    if q == [] {
      assert p + q == p;
    } else {
      assert (p + q)[..|p + q| - 1] == p + q[..|q| - 1];
      HashOfConcatenation(h, p, q[..|q| - 1]);
    }
  }

  // A common continuation keeps apart what was apart.
  lemma {:induction false} HashIsInjectiveInState(h: Word, g: Word, text: Text)
    ensures Hash(h, text) == Hash(g, text) <==> h == g
  {
    if text != [] {
      var before, c := text[..|text| - 1], text[|text| - 1];
      HashIsInjectiveInState(h, g, before);
      StepIsBijective(Hash(h, before), c);
      StepIsBijective(Hash(g, before), c);
    }
  }

  // Two texts of one length that differ in exactly one code unit never have the same hash state.
  lemma {:induction false} OneUnitNeverCollides(p: Text, c: Unit, d: Unit, q: Text)
    ensures Hash(OFFSET_BASIS, p + [c] + q) == Hash(OFFSET_BASIS, p + [d] + q) <==> c == d
  {
    var h := Hash(OFFSET_BASIS, p);
    HashOfConcatenation(OFFSET_BASIS, p + [c], q);
    HashOfConcatenation(OFFSET_BASIS, p + [d], q);
    HashIsInjectiveInState(Hash(OFFSET_BASIS, p + [c]), Hash(OFFSET_BASIS, p + [d]), q);
    assert (p + [c])[..|p|] == p && (p + [d])[..|p|] == p;
    if Step(h, c) == Step(h, d) { StepSeparatesUnits(h, c, d); }
  }

  // ----- The hexadecimal form -----

  type Digit = d: int | 0 <= d < 16

  // toString(16)
  function ToHex(n: nat): seq<Digit> {
    if n < 16 then [n] else ToHex(n / 16) + [n % 16]
  }

  // padStart(8, "0")
  function Padded(digits: seq<Digit>): seq<Digit>
    decreases 8 - |digits|
  {
    if |digits| >= 8 then digits else Padded([0] + digits)
  }

  function Value(digits: seq<Digit>): nat {
    if digits == [] then 0 else 16 * Value(digits[..|digits| - 1]) + digits[|digits| - 1]
  }

  lemma {:induction false} ToHexReadsBack(n: nat)
    ensures Value(ToHex(n)) == n
  {
    if n >= 16 {
      ToHexReadsBack(n / 16);
      assert ToHex(n)[..|ToHex(n)| - 1] == ToHex(n / 16);
    } else {
      assert ToHex(n)[..0] == [];
    }
  }

  lemma {:induction false} ToHexLength(n: nat, length: nat)
    requires length >= 1 && n < Pow2(4 * length)
    ensures 1 <= |ToHex(n)| <= length
  {
    WordWidth();
    if n >= 16 {
      Pow2ByFour(4 * (length - 1));
      ToHexLength(n / 16, length - 1);
    }
  }

  lemma {:induction false} LeadingZero(digits: seq<Digit>)
    ensures Value([0] + digits) == Value(digits)
  {
    if digits != [] {
      assert ([0] + digits)[..|digits|] == [0] + digits[..|digits| - 1];
      LeadingZero(digits[..|digits| - 1]);
    } else {
      assert ([0] + digits)[..0] == [];
    }
  }

  lemma {:induction false} PaddingKeepsValue(digits: seq<Digit>)
    ensures Value(Padded(digits)) == Value(digits)
    ensures |digits| <= 8 ==> |Padded(digits)| == 8
    decreases 8 - |digits|
  {
    if |digits| < 8 {
      LeadingZero(digits);
      PaddingKeepsValue([0] + digits);
    }
  }

  // The printed form has eight digits and reads back as the hash.
  lemma HexFormReadsBack(h: Word)
    ensures |Padded(ToHex(h))| == 8 && Value(Padded(ToHex(h))) == h
  {
    WordWidth();
    ToHexLength(h, 8);
    ToHexReadsBack(h);
    PaddingKeepsValue(ToHex(h));
  }

  // ----- stableHash -----

  function StableHashOf(v: Json, stringify: Json -> Text): seq<Digit> {
    Padded(ToHex(Hash(OFFSET_BASIS, stringify(SortKeys(v)))))
  }

  method ComputeStableHash(v: Json, stringify: Json -> Text) returns (digits: seq<Digit>)
    ensures digits == StableHashOf(v, stringify)
    ensures |digits| == 8 && Value(digits) == Hash(OFFSET_BASIS, stringify(SortKeys(v)))
  {
    var canonical := stringify(SortKeys(v));
    var hash: Word := OFFSET_BASIS;
    for i := 0 to |canonical|
      invariant hash == Hash(OFFSET_BASIS, canonical[..i])
    {
      assert canonical[..i + 1][..i] == canonical[..i];
      hash := Step(hash, canonical[i]);
    }
    assert canonical[..|canonical|] == canonical;
    digits := Padded(ToHex(hash));
    HexFormReadsBack(hash);
  }

  // Values equal up to key order at every depth have the same hash.
  lemma {:induction false} StableHashIgnoresKeyOrder(v: Json, w: Json, stringify: Json -> Text)
    requires WellFormed(v) && WellFormed(w) && SameUpToKeyOrder(v, w)
    ensures StableHashOf(v, stringify) == StableHashOf(w, stringify)
  {
    SortKeysIffSame(v, w);
  }

  // Where the canonical texts differ in one code unit, so do the printed hashes.
  lemma {:induction false} StableHashSeparatesOneUnit(
    v: Json, w: Json, stringify: Json -> Text, p: Text, c: Unit, d: Unit, q: Text)
    requires stringify(SortKeys(v)) == p + [c] + q && stringify(SortKeys(w)) == p + [d] + q && c != d
    ensures StableHashOf(v, stringify) != StableHashOf(w, stringify)
  {
    OneUnitNeverCollides(p, c, d, q);
    HexFormReadsBack(Hash(OFFSET_BASIS, p + [c] + q));
    HexFormReadsBack(Hash(OFFSET_BASIS, p + [d] + q));
  }
}
