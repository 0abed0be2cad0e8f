/** Hash-linked, signed entries: what the evidence ledger and the receipt chain have in common.

The digests and signatures are parameters.  A hash covers an entry's body together with the hash before it; a
signature covers the hash.  The hash an entry names is whatever value its field holds; only a text links it. */
module HashChain {
  import opened JsonValues

  datatype Entry<B> = Entry(body: B, previous: Json, hash: string, signature: string)

  // `digest` stands for SHA-256 over the canonical form, `sign` for the HMAC under the chain's key.
  datatype Crypto<!B> = Crypto(digest: (B, Json) -> string, sign: string -> string)

  function Sealed<B>(c: Crypto<B>, body: B, previous: Json): Entry<B> {
    var hash := c.digest(body, previous);
    Entry(body, previous, hash, c.sign(hash))
  }

  predicate Authentic<B>(c: Crypto<B>, e: Entry<B>) {
    e.hash == c.digest(e.body, e.previous) && e.signature == c.sign(e.hash)
  }

  // The hash a further entry has to name.
  function Head<B>(start: string, entries: seq<Entry<B>>): string {
    if entries == [] then start else entries[|entries| - 1].hash
  }

  // Entry `i` is authentic and names the hash before it, the first one `start`.
  predicate LinkAt<B>(c: Crypto<B>, start: string, entries: seq<Entry<B>>, i: nat)
    requires i < |entries|
  {
    Authentic(c, entries[i]) && entries[i].previous == Text(if i == 0 then start else entries[i - 1].hash)
  }

  predicate Linked<B>(c: Crypto<B>, start: string, entries: seq<Entry<B>>) {
    forall i :: 0 <= i < |entries| ==> LinkAt(c, start, entries, i)
  }

  // The verification loop of both modules.
  method Verify<B(==)>(c: Crypto<B>, start: string, entries: seq<Entry<B>>) returns (ok: bool)
    ensures ok <==> Linked(c, start, entries)
  {
    var previous := start;
    for i := 0 to |entries|
      invariant previous == if i == 0 then start else entries[i - 1].hash
      invariant forall j :: 0 <= j < i ==> LinkAt(c, start, entries, j)
    {
      var e := entries[i];
      if e.previous != Text(previous) || e.hash != c.digest(e.body, e.previous) || e.signature != c.sign(e.hash) {
        assert !LinkAt(c, start, entries, i);
        return false;
      }
      previous := e.hash;
    }
    return true;
  }

  lemma AppendKeepsLinked<B>(c: Crypto<B>, start: string, entries: seq<Entry<B>>, body: B)
    requires Linked(c, start, entries)
    ensures Linked(c, start, entries + [Sealed(c, body, Text(Head(start, entries)))])
  {
    var longer := entries + [Sealed(c, body, Text(Head(start, entries)))];
    forall i | 0 <= i < |longer| ensures LinkAt(c, start, longer, i) {
      if i < |entries| { assert LinkAt(c, start, entries, i); }
    }
  }

  // Any cut leaves two chains, the later one starting from the hash before it.
  lemma LinkedSplits<B>(c: Crypto<B>, start: string, entries: seq<Entry<B>>, k: nat)
    requires Linked(c, start, entries) && k <= |entries|
    ensures Linked(c, start, entries[..k])
    ensures Linked(c, Head(start, entries[..k]), entries[k..])
  {
    forall i | 0 <= i < k ensures LinkAt(c, start, entries[..k], i) {
      assert LinkAt(c, start, entries, i);
    }
    forall i | 0 <= i < |entries| - k ensures LinkAt(c, Head(start, entries[..k]), entries[k..], i) {
      assert LinkAt(c, start, entries, k + i);
    }
  }

  // No entry of one list shares its hash with a different entry of the other.
  ghost predicate NoCollision<B>(entries: seq<Entry<B>>, entries': seq<Entry<B>>) {
    forall i, j :: 0 <= i < |entries| && 0 <= j < |entries'| && entries[i].hash == entries'[j].hash ==>
      entries[i].body == entries'[j].body && entries[i].previous == entries'[j].previous
  }

  lemma LastEntriesAgree<B>(
    c: Crypto<B>, start: string, entries: seq<Entry<B>>, start': string, entries': seq<Entry<B>>)
    requires Linked(c, start, entries) && Linked(c, start', entries') && NoCollision(entries, entries')
    requires entries != [] && entries' != [] && Head(start, entries) == Head(start', entries')
    ensures entries[|entries| - 1] == entries'[|entries'| - 1]
    ensures Head(start, entries[..|entries| - 1]) == Head(start', entries'[..|entries'| - 1])
  {
    var m, n := |entries| - 1, |entries'| - 1;
    assert LinkAt(c, start, entries, m) && LinkAt(c, start', entries', n);
    assert entries[m] == entries'[n];
    assert entries[m].previous == Text(Head(start, entries[..m]));
    assert entries'[n].previous == Text(Head(start', entries'[..n]));
  }

  // Two chains of one length that end in one hash are the same chain from the same start, unless they collide.
  lemma {:induction false} HeadDeterminesChain<B>(
    c: Crypto<B>, start: string, entries: seq<Entry<B>>, start': string, entries': seq<Entry<B>>)
    requires NoCollision(entries, entries') && Linked(c, start, entries) && Linked(c, start', entries')
    requires |entries| == |entries'| && Head(start, entries) == Head(start', entries')
    ensures entries == entries' && start == start'
    decreases |entries|
  {
    if entries != [] {
      var n := |entries| - 1;
      LastEntriesAgree(c, start, entries, start', entries');
      LinkedSplits(c, start, entries, n);
      LinkedSplits(c, start', entries', n);
      HeadDeterminesChain(c, start, entries[..n], start', entries'[..n]);
      assert entries == entries[..n] + [entries[n]] && entries' == entries'[..n] + [entries'[n]];
    }
  }
}
