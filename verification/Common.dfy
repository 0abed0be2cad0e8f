/** What the models share: options, results, bytes, one sequence occurring in another, and the order of texts. */
module Common {
  datatype Option<+T> = None | Some(value: T) {
    function GetOr(default: T): T {
      if Some? then value else default
    }
  }

  datatype Result<+T, +E> = Ok(value: T) | Err(error: E)

  type Byte = b: int | 0 <= b < 256
  type Bytes = seq<Byte>

  // Python's `needle in hay`, for text and for bytes.
  predicate OccursAt<T(==)>(needle: seq<T>, hay: seq<T>, i: nat) {
    i + |needle| <= |hay| && hay[i..i + |needle|] == needle
  }

  predicate Contains<T(==)>(hay: seq<T>, needle: seq<T>) {
    exists i :: 0 <= i <= |hay| && OccursAt(needle, hay, i)
  }

  lemma SliceOfSlice<T>(a: seq<T>, lo: nat, hi: nat, from: nat, end: nat)
    requires lo <= hi <= |a| && from <= end <= hi - lo
    ensures a[lo..hi][from..end] == a[lo + from..lo + end]
  {
    var inner := a[lo..hi];
    assert forall k :: 0 <= k < |inner| ==> inner[k] == a[lo + k];
    assert |inner[from..end]| == |a[lo + from..lo + end]|;
    forall k | 0 <= k < end - from ensures inner[from..end][k] == a[lo + from..lo + end][k] {
      assert inner[from..end][k] == inner[from + k];
    }
  }

  lemma ContainsIsTransitive<T>(a: seq<T>, b: seq<T>, c: seq<T>)
    requires Contains(a, b) && Contains(b, c)
    ensures Contains(a, c)
  {
    var i :| 0 <= i <= |a| && OccursAt(b, a, i);
    var j :| 0 <= j <= |b| && OccursAt(c, b, j);
    SliceOfSlice(a, i, i + |b|, j, j + |c|);
    assert OccursAt(c, a, i + j);
  }

  lemma ContainsItself<T>(a: seq<T>)
    ensures Contains(a, a)
  {
    assert OccursAt(a, a, 0);
  }

  // The order in which JavaScript and Python sort texts: unit by unit, a prefix first.
  predicate Below(a: seq<int>, b: seq<int>) {
    if a == [] then b != []
    else b != [] && (a[0] < b[0] || (a[0] == b[0] && Below(a[1..], b[1..])))
  }

  lemma {:induction false} BelowIsTotal(a: seq<int>, b: seq<int>)
    ensures !Below(a, a)
    ensures a == b || Below(a, b) || Below(b, a)
    ensures !(Below(a, b) && Below(b, a))
  {
    if a != [] && b != [] {
      BelowIsTotal(a[1..], b[1..]);
      if a[0] == b[0] && a[1..] == b[1..] { assert a == [a[0]] + a[1..] == b; }
    }
    if a != [] { BelowIsTotal(a[1..], a[1..]); }
  }

  lemma {:induction false} BelowIsTransitive(a: seq<int>, b: seq<int>, c: seq<int>)
    requires Below(a, b) && Below(b, c)
    ensures Below(a, c)
  {
    if a != [] && a[0] == b[0] == c[0] { BelowIsTransitive(a[1..], b[1..], c[1..]); }
  }

  // `kept` is what is left of `all` without what is dropped: `at` lists where it stood.
  predicate SiftedAt<T(==)>(all: seq<T>, dropped: T -> bool, kept: seq<T>, at: seq<nat>) {
    && |at| == |kept|
    && (forall i :: 0 <= i < |at| ==> at[i] < |all| && kept[i] == all[at[i]] && !dropped(kept[i]))
    && (forall i, j :: 0 <= i < j < |at| ==> at[i] < at[j])
    && (forall k :: 0 <= k < |all| && !dropped(all[k]) ==> k in at)
  }

  ghost predicate Sifted<T>(all: seq<T>, dropped: T -> bool, kept: seq<T>) {
    exists at :: SiftedAt(all, dropped, kept, at)
  }

  lemma NothingSifted<T>(dropped: T -> bool)
    ensures Sifted([], dropped, [])
  {
    assert SiftedAt<T>([], dropped, [], []);
  }

  lemma SiftedSnoc<T>(all: seq<T>, dropped: T -> bool, kept: seq<T>, x: T)
    requires Sifted(all, dropped, kept)
    ensures dropped(x) ==> Sifted(all + [x], dropped, kept)
    ensures !dropped(x) ==> Sifted(all + [x], dropped, kept + [x])
  {
    var at :| SiftedAt(all, dropped, kept, at);
    var n: nat := |all|;
    var more := if dropped(x) then at else at + [n];
    SiftedSnocAt(all, dropped, kept, x, at, more);
  }

  // The same with names for what it is about.
  lemma SiftOne<T>(all: seq<T>, whole: seq<T>, dropped: T -> bool, kept: seq<T>, more: seq<T>, x: T)
    requires Sifted(all, dropped, kept) && whole == all + [x]
    requires more == kept + if dropped(x) then [] else [x]
    ensures Sifted(whole, dropped, more)
  {
    SiftedSnoc(all, dropped, kept, x);
    assert kept + [] == kept;
  }

  lemma SiftedSnocAt<T>(all: seq<T>, dropped: T -> bool, kept: seq<T>, x: T, at: seq<nat>, more: seq<nat>)
    requires SiftedAt(all, dropped, kept, at) && more == if dropped(x) then at else at + [|all|]
    ensures SiftedAt(all + [x], dropped, if dropped(x) then kept else kept + [x], more)
  {
    var longer := all + [x];
    forall k | 0 <= k < |longer| && !dropped(longer[k]) ensures k in more {
      if k < |all| {
        assert longer[k] == all[k];
        var i :| 0 <= i < |at| && at[i] == k;
        assert more[i] == k;
      } else {
        assert more[|at|] == k;
      }
    }
  }

  lemma SiftedFront<T>(all: seq<T>, dropped: T -> bool, kept: seq<T>, x: T)
    requires Sifted(all + [x], dropped, kept)
    ensures dropped(x) ==> Sifted(all, dropped, kept)
    ensures !dropped(x) ==> kept != [] && kept[|kept| - 1] == x && Sifted(all, dropped, kept[..|kept| - 1])
  {
    var at :| SiftedAt(all + [x], dropped, kept, at);
    if dropped(x) {
      WithoutDropped(all, dropped, kept, x, at);
    } else {
      LastIsLast(all, dropped, kept, x, at);
      SiftedFrontAt(all, dropped, kept, x, at);
    }
  }

  lemma LastIsLast<T>(all: seq<T>, dropped: T -> bool, kept: seq<T>, x: T, at: seq<nat>)
    requires SiftedAt(all + [x], dropped, kept, at) && !dropped(x)
    ensures at != [] && at[|at| - 1] == |all| && kept[|kept| - 1] == x
  {
    var longer := all + [x];
    assert longer[|all|] == x;
    var i :| 0 <= i < |at| && at[i] == |all|;
    BelowTop(at, i);
  }

  lemma BelowTop(at: seq<nat>, i: nat)
    requires i < |at| && forall i, j :: 0 <= i < j < |at| ==> at[i] < at[j]
    ensures at[i] < at[|at| - 1] || i == |at| - 1
  {
  }

  lemma WithoutDropped<T>(all: seq<T>, dropped: T -> bool, kept: seq<T>, x: T, at: seq<nat>)
    requires SiftedAt(all + [x], dropped, kept, at) && dropped(x)
    ensures SiftedAt(all, dropped, kept, at)
  {
    var longer := all + [x];
    forall i | 0 <= i < |at| ensures at[i] < |all| && kept[i] == all[at[i]] {
      assert longer[at[i]] == kept[i];
      assert longer[|all|] == x;
    }
    forall k | 0 <= k < |all| && !dropped(all[k]) ensures k in at { assert longer[k] == all[k]; }
  }

  lemma SiftedFrontAt<T>(all: seq<T>, dropped: T -> bool, kept: seq<T>, x: T, at: seq<nat>)
    requires SiftedAt(all + [x], dropped, kept, at) && at != [] && at[|at| - 1] == |all|
    ensures Sifted(all, dropped, kept[..|kept| - 1])
  {
    var front := at[..|at| - 1];
    forall k | 0 <= k < |all| && !dropped(all[k]) ensures k in front {
      assert (all + [x])[k] == all[k];
      var i :| 0 <= i < |at| && at[i] == k;
      assert front[i] == k;
    }
    assert SiftedAt(all, dropped, kept[..|kept| - 1], front);
  }

  // There is only one way to sift.
  lemma {:induction false} SiftedIsUnique<T>(all: seq<T>, dropped: T -> bool, kept: seq<T>, kept': seq<T>)
    requires Sifted(all, dropped, kept) && Sifted(all, dropped, kept')
    ensures kept == kept'
  {
    if all == [] {
      OfNothing(all, dropped, kept);
      OfNothing(all, dropped, kept');
    } else {
      var front, x := all[..|all| - 1], all[|all| - 1];
      assert all == front + [x];
      SiftedFront(front, dropped, kept, x);
      SiftedFront(front, dropped, kept', x);
      if dropped(x) {
        SiftedIsUnique(front, dropped, kept, kept');
      } else {
        SiftedIsUnique(front, dropped, kept[..|kept| - 1], kept'[..|kept'| - 1]);
        SameLast(kept, kept');
      }
    }
  }

  lemma OfNothing<T>(all: seq<T>, dropped: T -> bool, kept: seq<T>)
    requires all == [] && Sifted(all, dropped, kept)
    ensures kept == []
  {
    var at :| SiftedAt(all, dropped, kept, at);
    if at != [] { SomethingSifted(all, dropped, kept, at); }
  }

  lemma SomethingSifted<T>(all: seq<T>, dropped: T -> bool, kept: seq<T>, at: seq<nat>)
    requires SiftedAt(all, dropped, kept, at) && at != []
    ensures all != []
  {
    assert at[0] < |all|;
  }

  lemma SameLast<T>(a: seq<T>, b: seq<T>)
    requires a != [] && b != [] && a[..|a| - 1] == b[..|b| - 1] && a[|a| - 1] == b[|b| - 1]
    ensures a == b
  {
    assert a == a[..|a| - 1] + [a[|a| - 1]] && b == b[..|b| - 1] + [b[|b| - 1]];
  }
}
