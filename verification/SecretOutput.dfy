/** The inspection of adapter results in private_shield/secret_broker.py: the walk over a returned value that looks for
the raw secret, bounded in depth and in visits.

A result is a graph: references to objects that may share children and form cycles. A text is known by its UTF-8 bytes,
which a text with lone surrogates does not have, and a binary object by its bytes, which a released view does not give. */
module SecretOutput {
  import opened Common

  type Ref = nat

  // Plain is None, a bool, an int or a float; Other is every unsupported type.
  datatype Obj =
    | Text(utf8: Option<Bytes>)
    | Binary(bytes: Option<Bytes>)
    | Plain
    | Items(items: seq<Ref>)
    | Mapping(entries: seq<(Ref, Ref)>)
    | Other

  type Heap = Ref -> Obj

  datatype Fault = StructuralLimits | RawSecret | Cyclic | KeyNotText | UnsupportedType | NotEncodable | NotReadable

  const MAX_DEPTH := 32
  const MAX_VISITS := 10_000

  // A child, and whether it is a mapping's key.
  datatype Child = Child(item: Ref, key: bool)

  // A mapping has each key before its value.
  function Children(obj: Obj): seq<Child> {
    match obj
    case Items(items) => seq(|items|, i requires 0 <= i < |items| => Child(items[i], false))
    case Mapping(entries) => KeysAndValues(entries)
    case _ => []
  }

  function KeysAndValues(entries: seq<(Ref, Ref)>): (children: seq<Child>)
    ensures |children| == 2 * |entries|
  {
    if entries == [] then []
    else
      var (key, value) := entries[|entries| - 1];
      KeysAndValues(entries[..|entries| - 1]) + [Child(key, true), Child(value, false)]
  }

  lemma {:induction false} EntryChildren(entries: seq<(Ref, Ref)>, i: nat)
    requires i < |entries|
    ensures KeysAndValues(entries)[2 * i] == Child(entries[i].0, true)
    ensures KeysAndValues(entries)[2 * i + 1] == Child(entries[i].1, false)
  {
    if i < |entries| - 1 { EntryChildren(entries[..|entries| - 1], i); }
  }

  // ----- The walk -----

  // One call of the inner function: an item, its depth and the containers it is inside of.
  datatype Visit = Visit(child: Child, depth: nat, above: set<Ref>)

  // What is wrong with the visit that comes after `visited` others.
  function FaultAt(heap: Heap, secret: Bytes, visit: Visit, visited: nat): Option<Fault> {
    var obj := heap(visit.child.item);
    if visit.child.key && !obj.Text? then Some(KeyNotText)
    else if visit.depth > MAX_DEPTH || visited + 1 > MAX_VISITS then Some(StructuralLimits)
    else
      match obj
      case Text(None) => Some(NotEncodable)
      case Text(Some(utf8)) => if Contains(utf8, secret) then Some(RawSecret) else None
      case Binary(None) => Some(NotReadable)
      case Binary(Some(bytes)) => if Contains(bytes, secret) then Some(RawSecret) else None
      case Plain => None
      case Items(_) => if visit.child.item in visit.above then Some(Cyclic) else None
      case Mapping(_) => if visit.child.item in visit.above then Some(Cyclic) else None
      case Other => Some(UnsupportedType)
  }

  // The number of visits there have been after the child, or the fault that ends the walk.
  function Walked(heap: Heap, secret: Bytes, child: Child, depth: nat, visited: nat, above: set<Ref>): Result<nat, Fault>
    requires depth <= MAX_DEPTH + 1
    decreases MAX_DEPTH + 1 - depth, 0
  {
    match FaultAt(heap, secret, Visit(child, depth, above), visited)
    case Some(fault) => Err(fault)
    case None => WalkedAll(heap, secret, Children(heap(child.item)), depth + 1, visited + 1, above + {child.item})
  }

  function WalkedAll(
    heap: Heap, secret: Bytes, children: seq<Child>, depth: nat, visited: nat, above: set<Ref>): Result<nat, Fault>
    requires depth <= MAX_DEPTH + 1
    decreases MAX_DEPTH + 1 - depth, 1 + |children|
  {
    if children == [] then Ok(visited)
    else
      match WalkedAll(heap, secret, children[..|children| - 1], depth, visited, above)
      case Err(fault) => Err(fault)
      case Ok(n) => Walked(heap, secret, children[|children| - 1], depth, n, above)
  }

  // A visit without a fault to an item without children is all there is to its walk.
  lemma LeafWalk(heap: Heap, secret: Bytes, child: Child, depth: nat, visited: nat, above: set<Ref>)
    requires depth <= MAX_DEPTH + 1 && Children(heap(child.item)) == []
    requires FaultAt(heap, secret, Visit(child, depth, above), visited).None?
    ensures Walked(heap, secret, child, depth, visited, above) == Ok(visited + 1)
  {
  }

  lemma {:induction false} FaultStops(
    heap: Heap, secret: Bytes, children: seq<Child>, i: nat, depth: nat, visited: nat, above: set<Ref>)
    requires i <= |children| && depth <= MAX_DEPTH + 1
    requires WalkedAll(heap, secret, children[..i], depth, visited, above).Err?
    ensures WalkedAll(heap, secret, children, depth, visited, above) ==
            WalkedAll(heap, secret, children[..i], depth, visited, above)
    decreases |children|
  {
    if i == |children| {
      assert children[..i] == children;
    } else {
      var front := children[..|children| - 1];
      assert front[..i] == children[..i];
      FaultStops(heap, secret, front, i, depth, visited, above);
    }
  }

  // From i children to one more, and to all of them if that one has a fault.
  lemma WalkedOneMore(
    heap: Heap, secret: Bytes, children: seq<Child>, i: nat, depth: nat, visited: nat, above: set<Ref>, n: nat)
    requires i < |children| && depth <= MAX_DEPTH + 1
    requires WalkedAll(heap, secret, children[..i], depth, visited, above) == Ok(n)
    ensures WalkedAll(heap, secret, children[..i + 1], depth, visited, above) ==
            Walked(heap, secret, children[i], depth, n, above)
    ensures Walked(heap, secret, children[i], depth, n, above).Err? ==>
              WalkedAll(heap, secret, children, depth, visited, above) ==
              Walked(heap, secret, children[i], depth, n, above)
  {
    assert children[..i + 1][..i] == children[..i];
    assert WalkedAll(heap, secret, children[..i + 1], depth, visited, above) ==
           Walked(heap, secret, children[i], depth, n, above);
    if Walked(heap, secret, children[i], depth, n, above).Err? {
      FaultStops(heap, secret, children, i + 1, depth, visited, above);
    }
  }

  // A key that is a text is walked like any other item.
  lemma KeyWalk(heap: Heap, secret: Bytes, key: Ref, depth: nat, visited: nat, above: set<Ref>)
    requires depth <= MAX_DEPTH + 1
    ensures Walked(heap, secret, Child(key, true), depth, visited, above) ==
            if heap(key).Text? then Walked(heap, secret, Child(key, false), depth, visited, above) else Err(KeyNotText)
  {
    assert FaultAt(heap, secret, Visit(Child(key, true), depth, above), visited) ==
           if heap(key).Text? then FaultAt(heap, secret, Visit(Child(key, false), depth, above), visited)
           else Some(KeyNotText);
  }

  class OutputWalk {
    const heap: Heap
    const secret: Bytes
    var seen: set<Ref>
    var visited: nat

    constructor (heap: Heap, secret: Bytes)
      ensures this.heap == heap && this.secret == secret && seen == {} && visited == 0
    {
      this.heap, this.secret, seen, visited := heap, secret, {}, 0;
    }

    // Whatever the outcome, `seen` is left as it was found.
    method Walk(item: Ref, depth: nat) returns (fault: Option<Fault>)
      requires depth <= MAX_DEPTH + 1
      modifies this
      ensures seen == old(seen)
      ensures Walked(heap, secret, Child(item, false), depth, old(visited), old(seen)) ==
              if fault.Some? then Err(fault.value) else Ok(visited)
      decreases MAX_DEPTH + 1 - depth, 0
    {
      ghost var child := Child(item, false);
      visited := visited + 1;
      if depth > MAX_DEPTH || visited > MAX_VISITS {
        return Some(StructuralLimits);
      }
      if !heap(item).Items? && !heap(item).Mapping? {
        fault := Look(item, depth, seen, old(visited));
        if fault.None? { LeafWalk(heap, secret, child, depth, old(visited), seen); }
        return;
      }
      if item in seen {
        return Some(Cyclic);
      }
      seen := seen + {item};
      if heap(item).Mapping? {
        fault := WalkEntries(item, depth + 1);
      } else {
        fault := WalkItems(item, depth + 1);
      }
      seen := seen - {item};
    }

    // An item that is no container.
    method Look(item: Ref, ghost depth: nat, ghost above: set<Ref>, ghost before: nat) returns (fault: Option<Fault>)
      requires !heap(item).Items? && !heap(item).Mapping? && depth <= MAX_DEPTH && before < MAX_VISITS
      ensures fault == FaultAt(heap, secret, Visit(Child(item, false), depth, above), before)
    {
      match heap(item) {
        case Text(utf8) =>
          return if utf8.None? then Some(NotEncodable) else if Contains(utf8.value, secret) then Some(RawSecret) else None;
        case Binary(bytes) =>
          return if bytes.None? then Some(NotReadable) else if Contains(bytes.value, secret) then Some(RawSecret) else None;
        case Plain => return None;
        case _ => return Some(UnsupportedType);
      }
    }

    method WalkItems(item: Ref, depth: nat) returns (fault: Option<Fault>)
      requires depth <= MAX_DEPTH + 1 && heap(item).Items?
      modifies this
      ensures seen == old(seen)
      ensures WalkedAll(heap, secret, Children(heap(item)), depth, old(visited), old(seen)) ==
              if fault.Some? then Err(fault.value) else Ok(visited)
      decreases MAX_DEPTH + 1 - depth, 1
    {
      var items := heap(item).items;
      ghost var children := Children(heap(item));
      for i := 0 to |items|
        invariant seen == old(seen)
        invariant WalkedAll(heap, secret, children[..i], depth, old(visited), seen) == Ok(visited)
      {
        WalkedOneMore(heap, secret, children, i, depth, old(visited), seen, visited);
        fault := Walk(items[i], depth);
        if fault.Some? {
          return;
        }
      }
      assert children[..|items|] == children;
      return None;
    }

    method WalkEntries(item: Ref, depth: nat) returns (fault: Option<Fault>)
      requires depth <= MAX_DEPTH + 1 && heap(item).Mapping?
      modifies this
      ensures seen == old(seen)
      ensures WalkedAll(heap, secret, Children(heap(item)), depth, old(visited), old(seen)) ==
              if fault.Some? then Err(fault.value) else Ok(visited)
      decreases MAX_DEPTH + 1 - depth, 1
    {
      var entries := heap(item).entries;
      ghost var children := Children(heap(item));
      for i := 0 to |entries|
        invariant seen == old(seen)
        invariant WalkedAll(heap, secret, children[..2 * i], depth, old(visited), seen) == Ok(visited)
      {
        EntryChildren(entries, i);
        WalkedOneMore(heap, secret, children, 2 * i, depth, old(visited), seen, visited);
        KeyWalk(heap, secret, entries[i].0, depth, visited, seen);
        if !heap(entries[i].0).Text? {
          return Some(KeyNotText);
        }
        fault := Walk(entries[i].0, depth);
        if fault.Some? {
          return;
        }
        WalkedOneMore(heap, secret, children, 2 * i + 1, depth, old(visited), seen, visited);
        fault := Walk(entries[i].1, depth);
        if fault.Some? {
          return;
        }
      }
      assert children[..2 * |entries|] == children;
      return None;
    }
  }

  // ----- What the walk accepts -----

  function Inspected(heap: Heap, secret: Bytes, root: Ref): Result<nat, Fault> {
    Walked(heap, secret, Child(root, false), 0, 0, {})
  }

  // The visits an untroubled walk makes, shared items once for each way to them.
  function Visits(heap: Heap, item: Ref, depth: nat): nat
    requires depth <= MAX_DEPTH + 1
    decreases MAX_DEPTH + 1 - depth, 0
  {
    1 + if depth > MAX_DEPTH then 0 else VisitsOf(heap, Children(heap(item)), depth + 1)
  }

  function VisitsOf(heap: Heap, children: seq<Child>, depth: nat): nat
    requires depth <= MAX_DEPTH + 1
    decreases MAX_DEPTH + 1 - depth, 1 + |children|
  {
    if children == [] then 0
    else VisitsOf(heap, children[..|children| - 1], depth) + Visits(heap, children[|children| - 1].item, depth)
  }

  // Nothing is wrong with the item itself.
  predicate Fine(heap: Heap, secret: Bytes, item: Ref) {
    match heap(item)
    case Text(utf8) => utf8.Some? && !Contains(utf8.value, secret)
    case Binary(bytes) => bytes.Some? && !Contains(bytes.value, secret)
    case Plain => true
    case Items(_) => true
    case Mapping(entries) => TextKeys(heap, entries)
    case Other => false
  }

  predicate Linked(heap: Heap, parent: Ref, child: Ref) {
    exists i :: 0 <= i < |Children(heap(parent))| && Children(heap(parent))[i].item == child
  }

  predicate IsPath(heap: Heap, path: seq<Ref>) {
    path != [] && forall i :: 0 < i < |path| ==> StepAt(heap, path, i)
  }

  predicate StepAt(heap: Heap, path: seq<Ref>, i: nat)
    requires 0 < i < |path|
  {
    Linked(heap, path[i - 1], path[i])
  }

  // Every path from the item is short and ends in something fine.
  ghost predicate AllFine(heap: Heap, secret: Bytes, item: Ref, left: nat) {
    forall path :: IsPath(heap, path) && path[0] == item ==> |path| <= left && Fine(heap, secret, path[|path| - 1])
  }

  // The same, item by item.
  predicate FineBelow(heap: Heap, secret: Bytes, item: Ref, left: nat)
    decreases left
  {
    && left > 0 && Fine(heap, secret, item)
    && var children := Children(heap(item));
       forall i :: 0 <= i < |children| ==> FineBelow(heap, secret, children[i].item, left - 1)
  }

  lemma {:induction false} FinePaths(heap: Heap, secret: Bytes, path: seq<Ref>, left: nat)
    requires IsPath(heap, path) && FineBelow(heap, secret, path[0], left)
    ensures |path| <= left && Fine(heap, secret, path[|path| - 1])
    decreases |path|
  {
    if |path| > 1 {
      var rest := path[1..];
      assert StepAt(heap, path, 1);
      forall i | 0 < i < |rest| ensures StepAt(heap, rest, i) {
        assert StepAt(heap, path, i + 1);
      }
      FinePaths(heap, secret, rest, left - 1);
    }
  }

  lemma {:induction false} BadPath(heap: Heap, secret: Bytes, item: Ref, left: nat) returns (path: seq<Ref>)
    requires !FineBelow(heap, secret, item, left)
    ensures IsPath(heap, path) && path[0] == item && (|path| > left || !Fine(heap, secret, path[|path| - 1]))
    decreases left
  {
    if left == 0 || !Fine(heap, secret, item) {
      path := [item];
    } else {
      var children := Children(heap(item));
      var i :| 0 <= i < |children| && !FineBelow(heap, secret, children[i].item, left - 1);
      var rest := BadPath(heap, secret, children[i].item, left - 1);
      path := [item] + rest;
      assert Linked(heap, item, children[i].item);
      LongerPath(heap, item, rest, path);
    }
  }

  lemma LongerPath(heap: Heap, item: Ref, rest: seq<Ref>, path: seq<Ref>)
    requires IsPath(heap, rest) && Linked(heap, item, rest[0]) && path == [item] + rest
    ensures IsPath(heap, path)
  {
    forall j | 0 < j < |path| ensures StepAt(heap, path, j) {
      if j > 1 { assert StepAt(heap, rest, j - 1); }
    }
  }

  lemma FineBelowIffPaths(heap: Heap, secret: Bytes, item: Ref, left: nat)
    ensures FineBelow(heap, secret, item, left) <==> AllFine(heap, secret, item, left)
  {
    if FineBelow(heap, secret, item, left) {
      forall path | IsPath(heap, path) && path[0] == item
        ensures |path| <= left && Fine(heap, secret, path[|path| - 1])
      {
        FinePaths(heap, secret, path, left);
      }
    } else {
      var path := BadPath(heap, secret, item, left);
    }
  }

  // A key is a text and an item inside of itself is no part of a short graph.
  lemma {:induction false} FineIsMonotone(heap: Heap, secret: Bytes, item: Ref, left: nat)
    requires FineBelow(heap, secret, item, left)
    ensures FineBelow(heap, secret, item, left + 1)
    decreases left
  {
    var children := Children(heap(item));
    forall i | 0 <= i < |children| ensures FineBelow(heap, secret, children[i].item, left) {
      FineIsMonotone(heap, secret, children[i].item, left - 1);
    }
  }

  // Whatever is enough below s is enough, less one, below the item: s is a proper ancestor.
  ghost predicate Inside(heap: Heap, secret: Bytes, s: Ref, item: Ref) {
    forall n: nat :: FineBelow(heap, secret, s, n) ==> n > 0 && FineBelow(heap, secret, item, n - 1)
  }

  lemma {:induction false} NothingIsInsideItself(heap: Heap, secret: Bytes, item: Ref, n: nat)
    requires Inside(heap, secret, item, item)
    ensures !FineBelow(heap, secret, item, n)
    decreases n
  {
    if n > 0 { NothingIsInsideItself(heap, secret, item, n - 1); }
  }

  lemma ChildIsInside(heap: Heap, secret: Bytes, s: Ref, item: Ref, i: nat)
    requires i < |Children(heap(item))| && (s == item || Inside(heap, secret, s, item))
    ensures Inside(heap, secret, s, Children(heap(item))[i].item)
  {
    var c := Children(heap(item))[i].item;
    forall n: nat | FineBelow(heap, secret, s, n) ensures n > 0 && FineBelow(heap, secret, c, n - 1) {
      if s != item {
        assert FineBelow(heap, secret, item, n - 1);
        assert FineBelow(heap, secret, c, n - 2);
        FineIsMonotone(heap, secret, c, n - 2);
      }
    }
  }

  predicate KeyFine(heap: Heap, child: Child) {
    child.key ==> heap(child.item).Text?
  }

  // The keys of a mapping are its children marked so.
  predicate KeysFine(heap: Heap, children: seq<Child>) {
    forall i :: 0 <= i < |children| ==> KeyFine(heap, children[i])
  }

  predicate TextKeys(heap: Heap, entries: seq<(Ref, Ref)>) {
    forall i :: 0 <= i < |entries| ==> heap(entries[i].0).Text?
  }

  lemma KeysFineJoin(heap: Heap, before: seq<Child>, key: Ref, value: Ref)
    ensures KeysFine(heap, before + [Child(key, true), Child(value, false)]) <==>
            KeysFine(heap, before) && heap(key).Text?
  {
    var children := before + [Child(key, true), Child(value, false)];
    assert forall i :: 0 <= i < |before| ==> children[i] == before[i];
    assert children[|before|] == Child(key, true) && children[|before| + 1] == Child(value, false);
    if KeysFine(heap, children) {
      assert KeyFine(heap, children[|before|]);
      forall i | 0 <= i < |before| ensures KeyFine(heap, before[i]) { assert KeyFine(heap, children[i]); }
    }
  }

  lemma TextKeysJoin(heap: Heap, entries: seq<(Ref, Ref)>)
    requires entries != []
    ensures TextKeys(heap, entries) <==>
            TextKeys(heap, entries[..|entries| - 1]) && heap(entries[|entries| - 1].0).Text?
  {
    assert forall i :: 0 <= i < |entries| - 1 ==> entries[..|entries| - 1][i] == entries[i];
  }

  lemma {:induction false} KeysAreText(heap: Heap, entries: seq<(Ref, Ref)>)
    ensures KeysFine(heap, KeysAndValues(entries)) <==> TextKeys(heap, entries)
  {
    if entries != [] {
      var front, last := entries[..|entries| - 1], entries[|entries| - 1];
      KeysAreText(heap, front);
      KeysFineJoin(heap, KeysAndValues(front), last.0, last.1);
      TextKeysJoin(heap, entries);
    }
  }

  lemma NoFaultAt(heap: Heap, secret: Bytes, child: Child, depth: nat, visited: nat, above: set<Ref>)
    requires FaultAt(heap, secret, Visit(child, depth, above), visited).None?
    ensures depth <= MAX_DEPTH && visited < MAX_VISITS && KeyFine(heap, child)
    ensures heap(child.item).Mapping? || Fine(heap, secret, child.item)
  {
  }

  lemma OneMoreWalked(heap: Heap, secret: Bytes, children: seq<Child>, depth: nat, visited: nat, above: set<Ref>)
    requires depth <= MAX_DEPTH + 1 && children != []
    ensures
      var front, last := children[..|children| - 1], children[|children| - 1];
      var walked := WalkedAll(heap, secret, front, depth, visited, above);
      && VisitsOf(heap, children, depth) == VisitsOf(heap, front, depth) + Visits(heap, last.item, depth)
      && (walked.Ok? ==>
            WalkedAll(heap, secret, children, depth, visited, above) ==
            Walked(heap, secret, last, depth, walked.value, above))
  {
  }

  lemma FrontIsWalked(heap: Heap, secret: Bytes, children: seq<Child>, depth: nat, visited: nat, above: set<Ref>)
    requires depth <= MAX_DEPTH + 1 && children != []
    requires WalkedAll(heap, secret, children, depth, visited, above).Ok?
    ensures WalkedAll(heap, secret, children[..|children| - 1], depth, visited, above).Ok?
  {
  }

  predicate ChildFine(heap: Heap, secret: Bytes, child: Child, left: nat) {
    KeyFine(heap, child) && FineBelow(heap, secret, child.item, left)
  }

  predicate EachFine(heap: Heap, secret: Bytes, children: seq<Child>, left: nat) {
    children == [] ||
    (EachFine(heap, secret, children[..|children| - 1], left) &&
     ChildFine(heap, secret, children[|children| - 1], left))
  }

  lemma {:induction false} EachFineIff(heap: Heap, secret: Bytes, children: seq<Child>, left: nat)
    ensures EachFine(heap, secret, children, left) <==>
            forall i :: 0 <= i < |children| ==> ChildFine(heap, secret, children[i], left)
  {
    if children != [] {
      EachFineIff(heap, secret, children[..|children| - 1], left);
      assert forall i :: 0 <= i < |children| - 1 ==> children[..|children| - 1][i] == children[i];
    }
  }

  lemma FineIffEachFine(heap: Heap, secret: Bytes, item: Ref, left: nat)
    requires left > 0
    ensures FineBelow(heap, secret, item, left) <==>
            (heap(item).Mapping? || Fine(heap, secret, item)) &&
            EachFine(heap, secret, Children(heap(item)), left - 1)
  {
    EachFineIff(heap, secret, Children(heap(item)), left - 1);
    if heap(item).Mapping? {
      KeysAreText(heap, heap(item).entries);
    } else {
      OnlyMappingsHaveKeys(heap, item);
    }
  }

  lemma OnlyMappingsHaveKeys(heap: Heap, item: Ref)
    requires !heap(item).Mapping?
    ensures forall i :: 0 <= i < |Children(heap(item))| ==> KeyFine(heap, Children(heap(item))[i])
  {
  }

  // A walk without a fault goes through fine items only ...
  lemma {:induction false} WalkedIsFine(heap: Heap, secret: Bytes, child: Child, depth: nat, visited: nat, above: set<Ref>)
    requires depth <= MAX_DEPTH + 1 && Walked(heap, secret, child, depth, visited, above).Ok?
    ensures depth <= MAX_DEPTH && ChildFine(heap, secret, child, MAX_DEPTH + 1 - depth)
    ensures Walked(heap, secret, child, depth, visited, above) == Ok(visited + Visits(heap, child.item, depth))
    ensures visited + Visits(heap, child.item, depth) <= MAX_VISITS
    decreases MAX_DEPTH + 1 - depth, 0
  {
    var children := Children(heap(child.item));
    NoFaultAt(heap, secret, child, depth, visited, above);
    WalkedAreFine(heap, secret, children, depth + 1, visited + 1, above + {child.item});
    FineIffEachFine(heap, secret, child.item, MAX_DEPTH + 1 - depth);
  }

  lemma {:induction false} WalkedAreFine(
    heap: Heap, secret: Bytes, children: seq<Child>, depth: nat, visited: nat, above: set<Ref>)
    requires depth <= MAX_DEPTH + 1 && visited <= MAX_VISITS
    requires WalkedAll(heap, secret, children, depth, visited, above).Ok?
    ensures EachFine(heap, secret, children, MAX_DEPTH + 1 - depth)
    ensures WalkedAll(heap, secret, children, depth, visited, above) == Ok(visited + VisitsOf(heap, children, depth))
    ensures visited + VisitsOf(heap, children, depth) <= MAX_VISITS
    decreases MAX_DEPTH + 1 - depth, 1 + |children|
  {
    if children != [] {
      var front, last := children[..|children| - 1], children[|children| - 1];
      OneMoreWalked(heap, secret, children, depth, visited, above);
      FrontIsWalked(heap, secret, children, depth, visited, above);
      WalkedAreFine(heap, secret, front, depth, visited, above);
      WalkedIsFine(heap, secret, last, depth, visited + VisitsOf(heap, front, depth), above);
    }
  }

  // Every item on the path lies around this one.
  ghost predicate AllAround(heap: Heap, secret: Bytes, above: set<Ref>, item: Ref) {
    forall s :: s in above ==> Inside(heap, secret, s, item)
  }

  ghost predicate EachAround(heap: Heap, secret: Bytes, above: set<Ref>, children: seq<Child>) {
    children == [] ||
    (EachAround(heap, secret, above, children[..|children| - 1]) &&
     AllAround(heap, secret, above, children[|children| - 1].item))
  }

  // And around its children, with the item itself.
  lemma {:induction false} OnceMoreAround(heap: Heap, secret: Bytes, above: set<Ref>, item: Ref, n: nat)
    requires AllAround(heap, secret, above, item) && n <= |Children(heap(item))|
    ensures EachAround(heap, secret, above + {item}, Children(heap(item))[..n])
  {
    if n > 0 {
      var children := Children(heap(item));
      OnceMoreAround(heap, secret, above, item, n - 1);
      assert children[..n][..n - 1] == children[..n - 1];
      forall s | s in above + {item} ensures Inside(heap, secret, s, children[n - 1].item) {
        ChildIsInside(heap, secret, s, item, n - 1);
      }
    }
  }

  lemma NotOnThePath(heap: Heap, secret: Bytes, above: set<Ref>, item: Ref, left: nat)
    requires AllAround(heap, secret, above, item) && FineBelow(heap, secret, item, left)
    ensures item !in above
  {
    if item in above { NothingIsInsideItself(heap, secret, item, left); }
  }

  // ... and the other way round.
  lemma {:induction false} FineIsWalked(heap: Heap, secret: Bytes, child: Child, depth: nat, visited: nat, above: set<Ref>)
    requires depth <= MAX_DEPTH && ChildFine(heap, secret, child, MAX_DEPTH + 1 - depth)
    requires visited + Visits(heap, child.item, depth) <= MAX_VISITS
    requires AllAround(heap, secret, above, child.item)
    ensures Walked(heap, secret, child, depth, visited, above) == Ok(visited + Visits(heap, child.item, depth))
    decreases MAX_DEPTH + 1 - depth, 0
  {
    var item, children := child.item, Children(heap(child.item));
    NotOnThePath(heap, secret, above, item, MAX_DEPTH + 1 - depth);
    assert FaultAt(heap, secret, Visit(child, depth, above), visited).None?;
    OnceMoreAround(heap, secret, above, item, |children|);
    assert children[..|children|] == children;
    FineIffEachFine(heap, secret, item, MAX_DEPTH + 1 - depth);
    FineAreWalked(heap, secret, children, depth + 1, visited + 1, above + {item});
  }

  lemma {:induction false} FineAreWalked(
    heap: Heap, secret: Bytes, children: seq<Child>, depth: nat, visited: nat, above: set<Ref>)
    requires depth <= MAX_DEPTH + 1
    requires EachFine(heap, secret, children, MAX_DEPTH + 1 - depth)
    requires visited + VisitsOf(heap, children, depth) <= MAX_VISITS
    requires EachAround(heap, secret, above, children)
    ensures WalkedAll(heap, secret, children, depth, visited, above) == Ok(visited + VisitsOf(heap, children, depth))
    decreases MAX_DEPTH + 1 - depth, 1 + |children|
  {
    if children != [] {
      var front, last := children[..|children| - 1], children[|children| - 1];
      OneMoreWalked(heap, secret, children, depth, visited, above);
      FineAreWalked(heap, secret, front, depth, visited, above);
      LevelsAreLeft(heap, secret, last, depth);
      FineIsWalked(heap, secret, last, depth, visited + VisitsOf(heap, front, depth), above);
    }
  }

  lemma LevelsAreLeft(heap: Heap, secret: Bytes, child: Child, depth: nat)
    requires depth <= MAX_DEPTH + 1 && ChildFine(heap, secret, child, MAX_DEPTH + 1 - depth)
    ensures depth <= MAX_DEPTH
  {
  }

  // The walk accepts a result exactly when every path into it has at most 33 items and ends in a supported object that
  // does not hold the secret, with texts for keys, and the walk makes at most 10,000 visits.
  lemma AcceptedIff(heap: Heap, secret: Bytes, root: Ref)
    ensures Inspected(heap, secret, root).Ok? <==>
            AllFine(heap, secret, root, 33) && Visits(heap, root, 0) <= 10_000
  {
    WalkedIff(heap, secret, root, 0, MAX_DEPTH + 1);
  }

  lemma WalkedIff(heap: Heap, secret: Bytes, item: Ref, depth: nat, left: nat)
    requires depth <= MAX_DEPTH && left == MAX_DEPTH + 1 - depth
    ensures Walked(heap, secret, Child(item, false), depth, 0, {}).Ok? <==>
            AllFine(heap, secret, item, left) && Visits(heap, item, depth) <= MAX_VISITS
  {
    FineBelowIffPaths(heap, secret, item, left);
    if Walked(heap, secret, Child(item, false), depth, 0, {}).Ok? {
      WalkedIsFine(heap, secret, Child(item, false), depth, 0, {});
    }
    if FineBelow(heap, secret, item, left) && Visits(heap, item, depth) <= MAX_VISITS {
      FineIsAccepted(heap, secret, item, depth, left);
    }
  }

  lemma FineIsAccepted(heap: Heap, secret: Bytes, item: Ref, depth: nat, left: nat)
    requires depth <= MAX_DEPTH && left == MAX_DEPTH + 1 - depth
    requires FineBelow(heap, secret, item, left) && Visits(heap, item, depth) <= MAX_VISITS
    ensures Walked(heap, secret, Child(item, false), depth, 0, {}).Ok?
  {
    var child := Child(item, false);
    assert ChildFine(heap, secret, child, left);
    assert AllAround(heap, secret, {}, item);
    FineIsWalked(heap, secret, child, depth, 0, {});
  }

  // ----- Which fault is reported -----

  // Every visit below an item, in the order of the walk.
  function Trail(heap: Heap, child: Child, depth: nat, above: set<Ref>): seq<Visit>
    requires depth <= MAX_DEPTH + 1
    decreases MAX_DEPTH + 1 - depth, 0
  {
    [Visit(child, depth, above)] +
    if depth > MAX_DEPTH then []
    else TrailOf(heap, Children(heap(child.item)), depth + 1, above + {child.item})
  }

  function TrailOf(heap: Heap, children: seq<Child>, depth: nat, above: set<Ref>): seq<Visit>
    requires depth <= MAX_DEPTH + 1
    decreases MAX_DEPTH + 1 - depth, 1 + |children|
  {
    if children == [] then []
    else
      TrailOf(heap, children[..|children| - 1], depth, above) +
      Trail(heap, children[|children| - 1], depth, above)
  }

  predicate Faultless(heap: Heap, secret: Bytes, visits: seq<Visit>, visited: nat, i: nat)
    requires i < |visits|
  {
    FaultAt(heap, secret, visits[i], visited + i).None?
  }

  // The fault of the first visit that has one.
  ghost predicate Scans(heap: Heap, secret: Bytes, visits: seq<Visit>, visited: nat, result: Result<nat, Fault>) {
    match result
    case Ok(n) => n == visited + |visits| && forall i :: 0 <= i < |visits| ==> Faultless(heap, secret, visits, visited, i)
    case Err(fault) => exists k: nat :: FirstFault(heap, secret, visits, visited, k, fault)
  }

  predicate FirstFault(heap: Heap, secret: Bytes, visits: seq<Visit>, visited: nat, k: nat, fault: Fault) {
    && k < |visits| && FaultAt(heap, secret, visits[k], visited + k) == Some(fault)
    && forall i :: 0 <= i < k ==> Faultless(heap, secret, visits, visited, i)
  }

  lemma ScansConcat(
    heap: Heap, secret: Bytes, a: seq<Visit>, b: seq<Visit>, c: seq<Visit>, visited: nat, result: Result<nat, Fault>,
    result': Result<nat, Fault>)
    requires c == a + b && Scans(heap, secret, a, visited, result)
    requires result.Ok? ==> Scans(heap, secret, b, result.value, result')
    ensures Scans(heap, secret, c, visited, if result.Err? then result else result')
  {
    forall i | 0 <= i < |a| ensures Faultless(heap, secret, c, visited, i) == Faultless(heap, secret, a, visited, i) {
    }
    if result.Err? {
      var k: nat :| FirstFault(heap, secret, a, visited, k, result.error);
      assert FirstFault(heap, secret, c, visited, k, result.error);
    } else {
      forall i | |a| <= i < |c|
        ensures Faultless(heap, secret, c, visited, i) == Faultless(heap, secret, b, result.value, i - |a|)
      {
      }
      if result'.Err? {
        var k: nat :| FirstFault(heap, secret, b, result.value, k, result'.error);
        assert FirstFault(heap, secret, c, visited, |a| + k, result'.error);
      }
    }
  }

  // The recursive walk reports the first fault there is in the order of the visits, and none if there is none.
  lemma {:induction false} WalkScansTrail(
    heap: Heap, secret: Bytes, child: Child, depth: nat, visited: nat, above: set<Ref>)
    requires depth <= MAX_DEPTH + 1
    ensures Scans(heap, secret, Trail(heap, child, depth, above), visited,
                  Walked(heap, secret, child, depth, visited, above))
    decreases MAX_DEPTH + 1 - depth, 0
  {
    var visit := Visit(child, depth, above);
    var first := FaultAt(heap, secret, visit, visited);
    var trail := Trail(heap, child, depth, above);
    assert trail[0] == visit;
    if first.Some? {
      assert FirstFault(heap, secret, trail, visited, 0, first.value);
    } else {
      var children := Children(heap(child.item));
      WalkScansTrails(heap, secret, children, depth + 1, visited + 1, above + {child.item});
      assert Faultless(heap, secret, [visit], visited, 0);
      assert Scans(heap, secret, [visit], visited, Ok(visited + 1));
      ScansConcat(heap, secret, [visit], TrailOf(heap, children, depth + 1, above + {child.item}), trail, visited,
                  Ok(visited + 1), Walked(heap, secret, child, depth, visited, above));
    }
  }

  lemma {:induction false} WalkScansTrails(
    heap: Heap, secret: Bytes, children: seq<Child>, depth: nat, visited: nat, above: set<Ref>)
    requires depth <= MAX_DEPTH + 1
    ensures Scans(heap, secret, TrailOf(heap, children, depth, above), visited,
                  WalkedAll(heap, secret, children, depth, visited, above))
    decreases MAX_DEPTH + 1 - depth, 1 + |children|
  {
    if children != [] {
      var front, last := children[..|children| - 1], children[|children| - 1];
      var before := WalkedAll(heap, secret, front, depth, visited, above);
      WalkScansTrails(heap, secret, front, depth, visited, above);
      var n := if before.Ok? then before.value else 0;
      WalkScansTrail(heap, secret, last, depth, n, above);
      ScansConcat(heap, secret, TrailOf(heap, front, depth, above), Trail(heap, last, depth, above),
                  TrailOf(heap, children, depth, above), visited, before, Walked(heap, secret, last, depth, n, above));
    }
  }

  lemma ScanIsDetermined(
    heap: Heap, secret: Bytes, visits: seq<Visit>, visited: nat, result: Result<nat, Fault>, fault: Fault)
    requires Scans(heap, secret, visits, visited, result)
    ensures result == Err(fault) <==> exists k: nat :: FirstFault(heap, secret, visits, visited, k, fault)
  {
    if k: nat :| FirstFault(heap, secret, visits, visited, k, fault) {
      assert result.Ok? ==> Faultless(heap, secret, visits, visited, k);
      var j: nat :| FirstFault(heap, secret, visits, visited, j, result.error);
      assert j < k ==> Faultless(heap, secret, visits, visited, j);
      assert k < j ==> Faultless(heap, secret, visits, visited, k);
    }
  }

  lemma ReportedFaultIsFirst(
    heap: Heap, secret: Bytes, child: Child, depth: nat, visited: nat, above: set<Ref>, fault: Fault, trail: seq<Visit>)
    requires depth <= MAX_DEPTH + 1 && trail == Trail(heap, child, depth, above)
    ensures Walked(heap, secret, child, depth, visited, above) == Err(fault) <==>
            exists k: nat :: FirstFault(heap, secret, trail, visited, k, fault)
  {
    WalkScansTrail(heap, secret, child, depth, visited, above);
    ScanIsDetermined(heap, secret, trail, visited, Walked(heap, secret, child, depth, visited, above), fault);
  }
}
