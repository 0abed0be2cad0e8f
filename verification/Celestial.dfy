/** The glyph cipher of celestial/language.py.

A text is a sequence of code points, lone surrogates included; those are what UTF-8 cannot encode. The keyed digest is
a parameter, of which the cipher uses the first four bytes. */
module Celestial {
  import opened Common

  type CodePoint = c: int | 0 <= c < 0x110000
  type Text = seq<CodePoint>

  datatype Prefix = Prefix(b0: Byte, b1: Byte, b2: Byte, b3: Byte)

  // The first bytes of the digest under a seed, of a character and a counter.
  type Digest = (Text, CodePoint, nat) -> Prefix

  const PUA_BASE: int := 0xE000
  const GLYPH_LENGTH := 8
  // Where counter.to_bytes(4, "big") overflows.
  const COUNTER_END := 0x1_0000_0000

  datatype Error = EmptySeed | DuplicateCharset | NotEncodable | CounterOverflow

  datatype Language = Language(glyphMap: map<CodePoint, Text>, reverseMap: map<Text, CodePoint>)

  predicate Encodable(c: CodePoint) {
    !(0xD800 <= c <= 0xDFFF)
  }

  predicate AllEncodable(text: Text) {
    forall i :: 0 <= i < |text| ==> Encodable(text[i])
  }

  // Surrogates are what UTF-8 has no form for.
  lemma AllEncodableIff(text: Text)
    ensures AllEncodable(text) <==> forall c :: c in text ==> c < 0xD800 || 0xDFFF < c
  {
    assert forall i :: 0 <= i < |text| ==> text[i] in text;
  }

  predicate Distinct<T(==)>(s: seq<T>) {
    forall i, j :: 0 <= i < j < |s| ==> s[i] != s[j]
  }

  predicate GlyphChar(c: CodePoint) {
    PUA_BASE <= c < PUA_BASE + 16
  }

  predicate GlyphShaped(text: Text) {
    |text| == GLYPH_LENGTH && forall i :: 0 <= i < |text| ==> GlyphChar(text[i])
  }

  // ----- The alphabet -----

  // Two code points for each byte.
  function Glyph(p: Prefix): (glyph: Text)
    ensures GlyphShaped(glyph)
  {
    [ PUA_BASE + p.b0 / 16, PUA_BASE + p.b0 % 16, PUA_BASE + p.b1 / 16, PUA_BASE + p.b1 % 16,
      PUA_BASE + p.b2 / 16, PUA_BASE + p.b2 % 16, PUA_BASE + p.b3 / 16, PUA_BASE + p.b3 % 16]
  }

  // Each byte stands as two hexadecimal digits, the high one first, in the order of the bytes.
  lemma GlyphSpellsBytes(p: Prefix)
    ensures
      var g, zero := Glyph(p), 0xE000;
      && p.b0 == (g[0] - zero) * 16 + g[1] - zero && p.b1 == (g[2] - zero) * 16 + g[3] - zero
      && p.b2 == (g[4] - zero) * 16 + g[5] - zero && p.b3 == (g[6] - zero) * 16 + g[7] - zero
      && forall i :: 0 <= i < 8 ==> 0 <= g[i] - zero < 16
  {
    assert forall i :: 0 <= i < 8 ==> GlyphChar(Glyph(p)[i]);
  }

  lemma GlyphKeepsBytes(p: Prefix, q: Prefix)
    ensures Glyph(p) == Glyph(q) <==> p == q
  {
    var g, h := Glyph(p), Glyph(q);
    NibblesKeepByte(p.b0, q.b0, g[0], g[1], h[0], h[1]);
    NibblesKeepByte(p.b1, q.b1, g[2], g[3], h[2], h[3]);
    NibblesKeepByte(p.b2, q.b2, g[4], g[5], h[4], h[5]);
    NibblesKeepByte(p.b3, q.b3, g[6], g[7], h[6], h[7]);
  }

  lemma NibblesKeepByte(b: Byte, c: Byte, high: int, low: int, high': int, low': int)
    requires high == PUA_BASE + b / 16 && low == PUA_BASE + b % 16
    requires high' == PUA_BASE + c / 16 && low' == PUA_BASE + c % 16
    ensures high == high' && low == low' ==> b == c
  {
  }

  function GlyphAt(digest: Digest, seed: Text, ch: CodePoint, counter: nat): Text {
    Glyph(digest(seed, ch, counter))
  }

  // The counter's glyph is the first of the character's glyphs that is not used yet.
  predicate FirstFresh(digest: Digest, seed: Text, ch: CodePoint, used: seq<Text>, counter: nat) {
    && GlyphAt(digest, seed, ch, counter) !in used
    && forall k :: 0 <= k < counter ==> GlyphAt(digest, seed, ch, k) in used
  }

  predicate NoneFresh(digest: Digest, seed: Text, ch: CodePoint, used: seq<Text>) {
    forall k :: 0 <= k < COUNTER_END ==> GlyphAt(digest, seed, ch, k) in used
  }

  // The glyphs of the charset, in its order.
  ghost predicate Rolled(digest: Digest, seed: Text, charset: Text, glyphs: seq<Text>) {
    |glyphs| == |charset| && forall i :: 0 <= i < |charset| ==> RolledAt(digest, seed, charset, glyphs, i)
  }

  ghost predicate RolledAt(digest: Digest, seed: Text, charset: Text, glyphs: seq<Text>, i: nat)
    requires i < |charset| == |glyphs|
  {
    exists k :: 0 <= k < COUNTER_END && FirstFresh(digest, seed, charset[i], glyphs[..i], k) &&
                glyphs[i] == GlyphAt(digest, seed, charset[i], k)
  }

  // Generation stops with an error at the first character that has no encoding or no fresh glyph.
  ghost predicate FailsWith(digest: Digest, seed: Text, charset: Text, error: Error) {
    exists i: nat, glyphs ::
      FailsAt(digest, seed, charset, i, glyphs) &&
      error == if Encodable(charset[i]) then CounterOverflow else NotEncodable
  }

  ghost predicate FailsAt(digest: Digest, seed: Text, charset: Text, i: nat, glyphs: seq<Text>) {
    && i < |charset| && AllEncodable(charset[..i]) && Rolled(digest, seed, charset[..i], glyphs)
    && (!Encodable(charset[i]) || NoneFresh(digest, seed, charset[i], glyphs))
  }

  lemma RolledPrefix(digest: Digest, seed: Text, charset: Text, glyphs: seq<Text>, n: nat)
    requires Rolled(digest, seed, charset, glyphs) && n <= |charset|
    ensures Rolled(digest, seed, charset[..n], glyphs[..n])
  {
    forall i | 0 <= i < n ensures RolledAt(digest, seed, charset[..n], glyphs[..n], i) {
      assert RolledAt(digest, seed, charset, glyphs, i);
      assert glyphs[..n][..i] == glyphs[..i];
    }
  }

  lemma RolledGrows(digest: Digest, seed: Text, charset: Text, glyphs: seq<Text>, i: nat, k: nat)
    requires i < |charset| && Rolled(digest, seed, charset[..i], glyphs) && k < COUNTER_END
    requires FirstFresh(digest, seed, charset[i], glyphs, k)
    ensures Rolled(digest, seed, charset[..i + 1], glyphs + [GlyphAt(digest, seed, charset[i], k)])
  {
    var more := glyphs + [GlyphAt(digest, seed, charset[i], k)];
    assert more[..i] == glyphs;
    var longer := charset[..i + 1];
    forall j | 0 <= j <= i ensures RolledAt(digest, seed, longer, more, j) {
      if j < i {
        assert RolledAt(digest, seed, charset[..i], glyphs, j);
        assert more[..j] == glyphs[..j];
      } else {
        assert FirstFresh(digest, seed, longer[j], more[..j], k);
      }
    }
  }

  // The alphabet depends on nothing but the digest, the seed and the charset.
  lemma {:induction false} AlphabetIsDetermined(
    digest: Digest, seed: Text, charset: Text, glyphs: seq<Text>, glyphs': seq<Text>)
    requires Rolled(digest, seed, charset, glyphs) && Rolled(digest, seed, charset, glyphs')
    ensures glyphs == glyphs'
    decreases |charset|
  {
    if charset != [] {
      var n := |charset| - 1;
      RolledPrefix(digest, seed, charset, glyphs, n);
      RolledPrefix(digest, seed, charset, glyphs', n);
      AlphabetIsDetermined(digest, seed, charset[..n], glyphs[..n], glyphs'[..n]);
      assert RolledAt(digest, seed, charset, glyphs, n) && RolledAt(digest, seed, charset, glyphs', n);
      var k :| 0 <= k < COUNTER_END && FirstFresh(digest, seed, charset[n], glyphs[..n], k) &&
               glyphs[n] == GlyphAt(digest, seed, charset[n], k);
      var k' :| 0 <= k' < COUNTER_END && FirstFresh(digest, seed, charset[n], glyphs'[..n], k') &&
                glyphs'[n] == GlyphAt(digest, seed, charset[n], k');
      assert k == k';
      assert glyphs == glyphs[..n] + [glyphs[n]] && glyphs' == glyphs'[..n] + [glyphs'[n]];
    }
  }

  lemma RolledGlyphsAreDistinct(digest: Digest, seed: Text, charset: Text, glyphs: seq<Text>)
    requires Rolled(digest, seed, charset, glyphs)
    ensures Distinct(glyphs)
    ensures forall i :: 0 <= i < |glyphs| ==> GlyphShaped(glyphs[i])
  {
    forall i, j | 0 <= i < j < |glyphs| ensures glyphs[i] != glyphs[j] {
      assert RolledAt(digest, seed, charset, glyphs, j);
      assert glyphs[..j][i] == glyphs[i];
    }
    forall i | 0 <= i < |glyphs| ensures GlyphShaped(glyphs[i]) {
      assert RolledAt(digest, seed, charset, glyphs, i);
    }
  }

  // Digests that differ in the first counters need at most one re-roll for each glyph already used.
  lemma RerollsAreFew(digest: Digest, seed: Text, ch: CodePoint, used: seq<Text>, counter: nat)
    requires forall j, k :: 0 <= j < k <= |used| ==> digest(seed, ch, j) != digest(seed, ch, k)
    requires forall k :: 0 <= k < counter ==> GlyphAt(digest, seed, ch, k) in used
    ensures counter <= |used|
  {
    if counter > |used| {
      var roll := (k: nat) => GlyphAt(digest, seed, ch, k);
      forall j: nat, k: nat | j < k <= |used| ensures roll(j) != roll(k) {
        GlyphKeepsBytes(digest(seed, ch, j), digest(seed, ch, k));
      }
      Pigeonhole(roll, used, |used| + 1);
    }
  }

  // Different values out of a sequence are no more than its elements.
  lemma Pigeonhole<T>(f: nat -> T, s: seq<T>, n: nat)
    requires forall j: nat, k: nat :: j < k < n ==> f(j) != f(k)
    requires forall k: nat :: k < n ==> f(k) in s
    ensures n <= |s|
  {
    var elements := set x | x in s;
    ImageSize(f, n, elements);
    TakenAtMost(s);
  }

  lemma {:induction false} ImageSize<T>(f: nat -> T, n: nat, elements: set<T>)
    requires forall j: nat, k: nat :: j < k < n ==> f(j) != f(k)
    requires forall k: nat :: k < n ==> f(k) in elements
    ensures n <= |elements|
    decreases n
  {
    if n > 0 {
      ImageSize(f, n - 1, elements - {f(n - 1)});
    }
  }

  lemma {:induction false} TakenAtMost<T>(s: seq<T>)
    ensures |set x | x in s| <= |s|
  {
    if s != [] {
      var rest := s[1..];
      TakenAtMost(rest);
      assert s == [s[0]] + rest;
      assert (set x | x in s) == (set x | x in rest) + {s[0]};
    }
  }

  ghost predicate Speaks(lang: Language, charset: Text, glyphs: seq<Text>) {
    && |glyphs| == |charset|
    && lang.glyphMap.Keys == (set c | c in charset) && lang.reverseMap.Keys == (set g | g in glyphs)
    && (forall i :: 0 <= i < |charset| ==> lang.glyphMap[charset[i]] == glyphs[i])
    && (forall i :: 0 <= i < |charset| ==> lang.reverseMap[glyphs[i]] == charset[i])
  }

  // What encoding and decoding need of the two dictionaries: they are inverse, and every glyph has the glyph shape.
  ghost predicate Valid(lang: Language) {
    && (forall c :: c in lang.glyphMap ==>
          GlyphShaped(lang.glyphMap[c]) && lang.glyphMap[c] in lang.reverseMap && lang.reverseMap[lang.glyphMap[c]] == c)
    && (forall g :: g in lang.reverseMap ==> lang.reverseMap[g] in lang.glyphMap && lang.glyphMap[lang.reverseMap[g]] == g)
  }

  lemma SpeakingIsValid(digest: Digest, seed: Text, charset: Text, glyphs: seq<Text>, lang: Language)
    requires Rolled(digest, seed, charset, glyphs) && Speaks(lang, charset, glyphs)
    ensures Valid(lang)
  {
    RolledGlyphsAreDistinct(digest, seed, charset, glyphs);
    forall c | c in lang.glyphMap
      ensures GlyphShaped(lang.glyphMap[c]) && lang.glyphMap[c] in lang.reverseMap &&
              lang.reverseMap[lang.glyphMap[c]] == c
    {
      var i :| 0 <= i < |charset| && charset[i] == c;
    }
    forall g | g in lang.reverseMap
      ensures lang.reverseMap[g] in lang.glyphMap && lang.glyphMap[lang.reverseMap[g]] == g
    {
      var i :| 0 <= i < |glyphs| && glyphs[i] == g;
    }
  }

  method Roll(digest: Digest, seed: Text, ch: CodePoint, used: seq<Text>) returns (counter: Option<nat>)
    ensures counter.Some? ==> counter.value < COUNTER_END && FirstFresh(digest, seed, ch, used, counter.value)
    ensures counter.None? ==> NoneFresh(digest, seed, ch, used)
  {
    var k := 0;
    while k < COUNTER_END
      invariant 0 <= k <= COUNTER_END
      invariant forall j :: 0 <= j < k ==> GlyphAt(digest, seed, ch, j) in used
    {
      if GlyphAt(digest, seed, ch, k) !in used {
        return Some(k);
      }
      k := k + 1;
    }
    return None;
  }

  // The constructor: a seed and a charset give a valid language or the first error there is.
  method NewLanguage(digest: Digest, seed: Text, charset: Text) returns (r: Result<Language, Error>)
    ensures r == Err(EmptySeed) <==> seed == []
    ensures r == Err(DuplicateCharset) <==> seed != [] && !Distinct(charset)
    ensures r.Ok? ==>
              && AllEncodable(seed) && AllEncodable(charset) && Valid(r.value)
              && exists glyphs :: Rolled(digest, seed, charset, glyphs) && Speaks(r.value, charset, glyphs)
    ensures r.Err? && r.error.NotEncodable? ==> !AllEncodable(seed) || FailsWith(digest, seed, charset, NotEncodable)
    ensures r.Err? && r.error.CounterOverflow? ==> AllEncodable(seed) && FailsWith(digest, seed, charset, CounterOverflow)
  {
    if seed == [] {
      return Err(EmptySeed);
    }
    if !Distinct(charset) {
      return Err(DuplicateCharset);
    }
    if !AllEncodable(seed) {
      return Err(NotEncodable);
    }
    var glyphs: seq<Text> := [];
    var lang := Language(map[], map[]);
    for i := 0 to |charset|
      invariant AllEncodable(charset[..i])
      invariant Rolled(digest, seed, charset[..i], glyphs)
      invariant Speaks(lang, charset[..i], glyphs)
    {
      var ch := charset[i];
      if !Encodable(ch) {
        assert FailsAt(digest, seed, charset, i, glyphs);
        return Err(NotEncodable);
      }
      var counter := Roll(digest, seed, ch, glyphs);
      if counter.None? {
        assert FailsAt(digest, seed, charset, i, glyphs);
        return Err(CounterOverflow);
      }
      var glyph := GlyphAt(digest, seed, ch, counter.value);
      RolledGrows(digest, seed, charset, glyphs, i, counter.value);
      LanguageGrows(lang, charset, glyphs, i, glyph);
      lang := Language(lang.glyphMap[ch := glyph], lang.reverseMap[glyph := ch]);
      glyphs := glyphs + [glyph];
    }
    assert charset[..|charset|] == charset;
    SpeakingIsValid(digest, seed, charset, glyphs, lang);
    return Ok(lang);
  }

  lemma LanguageGrows(lang: Language, charset: Text, glyphs: seq<Text>, i: nat, glyph: Text)
    requires i < |charset| && Distinct(charset) && Speaks(lang, charset[..i], glyphs) && glyph !in glyphs
    ensures Speaks(Language(lang.glyphMap[charset[i] := glyph], lang.reverseMap[glyph := charset[i]]),
                   charset[..i + 1], glyphs + [glyph])
  {
    var more, moreGlyphs := charset[..i + 1], glyphs + [glyph];
    assert more == charset[..i] + [charset[i]];
    forall j | 0 <= j < i ensures more[j] == charset[..i][j] && more[j] != charset[i] && moreGlyphs[j] == glyphs[j] {
    }
    assert (set c | c in more) == (set c | c in charset[..i]) + {charset[i]};
    assert (set g | g in moreGlyphs) == (set g | g in glyphs) + {glyph};
  }

  // ----- Encoding and decoding -----

  function Token(lang: Language, c: CodePoint): Text {
    if c in lang.glyphMap then lang.glyphMap[c] else [c]
  }

  function Encoded(lang: Language, message: Text): Text {
    if message == [] then [] else Token(lang, message[0]) + Encoded(lang, message[1..])
  }

  // encoded[i : i + 8] at the front of what is left.
  function Chunk(text: Text): Text {
    if |text| < GLYPH_LENGTH then text else text[..GLYPH_LENGTH]
  }

  predicate StartsWithGlyph(lang: Language, text: Text) {
    |text| >= GLYPH_LENGTH && text[..GLYPH_LENGTH] in lang.reverseMap
  }

  function Decoded(lang: Language, text: Text): Text {
    if text == [] then []
    else if StartsWithGlyph(lang, text) then [lang.reverseMap[text[..GLYPH_LENGTH]]] + Decoded(lang, text[GLYPH_LENGTH..])
    else [text[0]] + Decoded(lang, text[1..])
  }

  method EncodeMessage(lang: Language, message: Text) returns (encoded: Text)
    requires Valid(lang)
    ensures encoded == Encoded(lang, message)
    ensures Decoded(lang, encoded) == message <==> Unambiguous(lang, message)
  {
    encoded := [];
    for i := 0 to |message|
      invariant encoded + Encoded(lang, message[i..]) == Encoded(lang, message)
    {
      assert message[i..][1..] == message[i + 1..];
      encoded := encoded + Token(lang, message[i]);
    }
    RoundTripIff(lang, message);
  }

  method DecodeMessage(lang: Language, encoded: Text) returns (message: Text)
    requires Valid(lang)
    ensures message == Decoded(lang, encoded)
    ensures Encoded(lang, message) == encoded <==> Settled(lang, encoded)
  {
    message := [];
    var i := 0;
    while i < |encoded|
      invariant 0 <= i <= |encoded|
      invariant message + Decoded(lang, encoded[i..]) == Decoded(lang, encoded)
    {
      var rest := encoded[i..];
      ShortChunkIsUnknown(lang, rest);
      if Chunk(rest) in lang.reverseMap {
        assert rest[GLYPH_LENGTH..] == encoded[i + GLYPH_LENGTH..];
        Regroup(message, lang.reverseMap[Chunk(rest)], Decoded(lang, rest[GLYPH_LENGTH..]), Decoded(lang, rest));
        message := message + [lang.reverseMap[Chunk(rest)]];
        i := i + GLYPH_LENGTH;
      } else {
        assert rest[1..] == encoded[i + 1..];
        Regroup(message, encoded[i], Decoded(lang, rest[1..]), Decoded(lang, rest));
        message := message + [encoded[i]];
        i := i + 1;
      }
    }
    ReencodedIff(lang, encoded);
  }

  lemma Regroup(front: Text, c: CodePoint, tail: Text, rest: Text)
    requires rest == [c] + tail
    ensures front + [c] + tail == front + rest
  {
  }

  // At the end of a text the slice is shorter than a glyph, and no key of the dictionary is.
  lemma ShortChunkIsUnknown(lang: Language, text: Text)
    requires Valid(lang)
    ensures Chunk(text) in lang.reverseMap <==> StartsWithGlyph(lang, text)
  {
    if Chunk(text) in lang.reverseMap {
      assert GlyphShaped(lang.glyphMap[lang.reverseMap[Chunk(text)]]);
    }
  }

  // ----- The round trip -----

  // A character outside the charset from which the encoding reads like a glyph.
  predicate Ambiguous(lang: Language, message: Text, i: nat)
    requires i < |message|
  {
    message[i] !in lang.glyphMap && StartsWithGlyph(lang, Encoded(lang, message[i..]))
  }

  predicate Unambiguous(lang: Language, message: Text) {
    forall i :: 0 <= i < |message| ==> !Ambiguous(lang, message, i)
  }

  lemma UnambiguousSplits(lang: Language, message: Text)
    requires message != []
    ensures Unambiguous(lang, message) <==> !Ambiguous(lang, message, 0) && Unambiguous(lang, message[1..])
  {
    var rest := message[1..];
    forall i | 0 <= i < |rest| ensures Ambiguous(lang, rest, i) <==> Ambiguous(lang, message, i + 1) {
      assert rest[i..] == message[i + 1..];
    }
    if Unambiguous(lang, rest) && !Ambiguous(lang, message, 0) {
      forall i | 0 <= i < |message| ensures !Ambiguous(lang, message, i) {
        assert i > 0 ==> !Ambiguous(lang, rest, i - 1);
      }
    }
    if Unambiguous(lang, message) {
      forall i | 0 <= i < |rest| ensures !Ambiguous(lang, rest, i) {
        assert !Ambiguous(lang, message, i + 1);
      }
    }
  }

  // Decoding undoes encoding exactly for the unambiguous messages.
  lemma {:induction false} RoundTripIff(lang: Language, message: Text)
    requires Valid(lang)
    ensures Decoded(lang, Encoded(lang, message)) == message <==> Unambiguous(lang, message)
    decreases |message|
  {
    if message != [] {
      var c, rest := message[0], message[1..];
      var text := Encoded(lang, message);
      RoundTripIff(lang, rest);
      UnambiguousSplits(lang, message);
      assert message == [c] + rest && message[0..] == message;
      if c in lang.glyphMap {
        assert text[..GLYPH_LENGTH] == lang.glyphMap[c] && text[GLYPH_LENGTH..] == Encoded(lang, rest);
        HeadAndTail(c, Decoded(lang, Encoded(lang, rest)), message);
      } else {
        assert text[0] == c && text[1..] == Encoded(lang, rest);
        HeadAndTail(if StartsWithGlyph(lang, text) then lang.reverseMap[text[..GLYPH_LENGTH]] else c,
                    if StartsWithGlyph(lang, text) then Decoded(lang, text[GLYPH_LENGTH..]) else Decoded(lang, text[1..]),
                    message);
      }
    }
  }

  lemma HeadAndTail(c: CodePoint, tail: Text, message: Text)
    requires message != []
    ensures [c] + tail == message <==> c == message[0] && tail == message[1..]
  {
    assert ([c] + tail)[1..] == tail;
    assert message == [message[0]] + message[1..];
  }

  // The messages the documentation promises the round trip for: no character outside the charset is one that glyphs
  // are made of.
  lemma {:induction false} PlainMessagesRoundTrip(lang: Language, message: Text)
    requires Valid(lang)
    requires forall i :: 0 <= i < |message| ==> message[i] in lang.glyphMap || message[i] < 0xE000 || 0xE00F < message[i]
    ensures Decoded(lang, Encoded(lang, message)) == message
  {
    forall i | 0 <= i < |message| ensures !Ambiguous(lang, message, i) {
      GlyphsStartLikeGlyphs(lang, Encoded(lang, message[i..]));
    }
    RoundTripIff(lang, message);
  }

  lemma GlyphsStartLikeGlyphs(lang: Language, text: Text)
    requires Valid(lang)
    ensures StartsWithGlyph(lang, text) ==> GlyphChar(text[0])
  {
    if StartsWithGlyph(lang, text) {
      assert GlyphShaped(lang.glyphMap[lang.reverseMap[text[..GLYPH_LENGTH]]]);
      assert text[0] == text[..GLYPH_LENGTH][0];
    }
  }

  // A message that spells a glyph out is read as the glyph's character.
  lemma SpelledGlyphIsMisread(lang: Language, c: CodePoint)
    requires Valid(lang) && c in lang.glyphMap
    requires forall i :: 0 <= i < GLYPH_LENGTH ==> lang.glyphMap[c][i] !in lang.glyphMap
    ensures Encoded(lang, lang.glyphMap[c]) == lang.glyphMap[c]
    ensures Decoded(lang, Encoded(lang, lang.glyphMap[c])) == [c] != lang.glyphMap[c]
  {
    var glyph := lang.glyphMap[c];
    EncodedOfForeign(lang, glyph);
    assert glyph[..GLYPH_LENGTH] == glyph && glyph[GLYPH_LENGTH..] == [];
  }

  lemma {:induction false} EncodedOfForeign(lang: Language, text: Text)
    requires forall i :: 0 <= i < |text| ==> text[i] !in lang.glyphMap
    ensures Encoded(lang, text) == text
  {
    if text != [] {
      EncodedOfForeign(lang, text[1..]);
      assert text == [text[0]] + text[1..];
    }
  }

  // No two unambiguous messages have the same encoding.
  lemma EncodingIsInjective(lang: Language, m: Text, n: Text)
    requires Valid(lang) && Unambiguous(lang, m) && Unambiguous(lang, n)
    requires Encoded(lang, m) == Encoded(lang, n)
    ensures m == n
  {
    RoundTripIff(lang, m);
    RoundTripIff(lang, n);
  }

  // ----- The other round trip -----

  // No character that decoding passes through belongs to the charset.
  predicate Settled(lang: Language, text: Text) {
    if text == [] then true
    else if StartsWithGlyph(lang, text) then Settled(lang, text[GLYPH_LENGTH..])
    else text[0] !in lang.glyphMap && Settled(lang, text[1..])
  }

  // Encoding what was decoded gives the text back exactly when it is settled, and a longer one when it is not.
  lemma {:induction false} ReencodedIff(lang: Language, text: Text)
    requires Valid(lang)
    ensures Encoded(lang, Decoded(lang, text)) == text <==> Settled(lang, text)
    ensures |Encoded(lang, Decoded(lang, text))| >= |text|
    ensures |Encoded(lang, Decoded(lang, text))| == |text| <==> Settled(lang, text)
    decreases |text|
  {
    if text != [] {
      var known := StartsWithGlyph(lang, text);
      var width := if known then GLYPH_LENGTH else 1;
      var c := if known then lang.reverseMap[text[..GLYPH_LENGTH]] else text[0];
      var rest := text[width..];
      ReencodedIff(lang, rest);
      var decoded := Decoded(lang, text);
      assert decoded[0] == c && decoded[1..] == Decoded(lang, rest);
      assert text == text[..width] + rest;
      assert Encoded(lang, decoded) == Token(lang, c) + Encoded(lang, Decoded(lang, rest));
      TokenWidth(lang, c);
      if known || c !in lang.glyphMap {
        assert Token(lang, c) == text[..width];
        assert Encoded(lang, decoded)[width..] == Encoded(lang, Decoded(lang, rest));
      }
    }
  }

  lemma TokenWidth(lang: Language, c: CodePoint)
    requires Valid(lang)
    ensures |Token(lang, c)| == if c in lang.glyphMap then GLYPH_LENGTH else 1
  {
  }
}
