/** Extremes, squares, quotients and sums of reals. */
module Reals {
  function Max(a: real, b: real): real {
    if a < b then b else a
  }

  function Min(a: real, b: real): real {
    if b < a then b else a
  }

  // What rounding to an integer gives.
  predicate NearestTo(n: int, v: real) {
    -0.5 <= n as real - v <= 0.5
  }

  lemma SquareSign(r: real, s: real)
    requires s == r * r
    ensures s >= 0.0
    ensures s == 0.0 <==> r == 0.0
  {
    if r > 0.0 { ProductIsPositive(r, r, s); } else if r < 0.0 { ProductIsPositive(-r, -r, s); }
  }

  lemma ProductIsPositive(p: real, q: real, s: real)
    requires p > 0.0 && q > 0.0 && s == p * q
    ensures s > 0.0
  {
  }

  function Square(r: real): (s: real)
    ensures s >= 0.0
    ensures s == 0.0 <==> r == 0.0
  {
    SquareSign(r, r * r);
    r * r
  }

  lemma QuotientTimes(p: real, q: real)
    requires q != 0.0
    ensures (p / q) * q == p
  {
  }

  lemma QuotientSign(p: real, q: real)
    requires p >= 0.0 && q > 0.0
    ensures p / q >= 0.0
    ensures p / q == 0.0 <==> p == 0.0
  {
    QuotientTimes(p, q);
  }

  lemma QuotientAtMostOne(p: real, q: real)
    requires 0.0 <= p <= q && q > 0.0
    ensures p / q <= 1.0
    ensures p / q == 1.0 <==> p == q
  {
    QuotientTimes(p, q);
    Complement(p / q, q, p);
  }

  lemma Complement(r: real, q: real, p: real)
    requires q > 0.0 && r * q == p
    ensures p <= q <==> r <= 1.0
    ensures p == q <==> r == 1.0
  {
    FactorSign(q, 1.0 - r, q - p);
  }

  lemma FactorSign(p: real, q: real, s: real)
    requires p > 0.0 && s == p * q
    ensures s >= 0.0 <==> q >= 0.0
    ensures s == 0.0 <==> q == 0.0
  {
    if q > 0.0 { ProductIsPositive(p, q, s); } else if q < 0.0 { ProductIsPositive(p, -q, -s); }
  }

  function Sum(v: seq<real>): real {
    if v == [] then 0.0 else Sum(v[..|v| - 1]) + v[|v| - 1]
  }

  // w == s + c q + d r at index i.
  predicate Combined(w: seq<real>, s: seq<real>, c: real, q: seq<real>, d: real, r: seq<real>, i: nat)
    requires |w| == |s| == |q| == |r| && i < |w|
  {
    w[i] == s[i] + c * q[i] + d * r[i]
  }

  // Summing is linear; the sums are named, so that only their names meet in products.
  lemma {:induction false} SumOfCombination(
    w: seq<real>, s: seq<real>, c: real, q: seq<real>, d: real, r: seq<real>, sw: real, ss: real, sq: real, sr: real)
    requires |w| == |s| == |q| == |r|
    requires forall i :: 0 <= i < |w| ==> Combined(w, s, c, q, d, r, i)
    requires sw == Sum(w) && ss == Sum(s) && sq == Sum(q) && sr == Sum(r)
    ensures sw == ss + c * sq + d * sr
    decreases |w|
  {
    if w == [] {
      NothingCombined(sw, ss, c, sq, d, sr);
    } else {
      var n := |w| - 1;
      forall i | 0 <= i < n ensures Combined(w[..n], s[..n], c, q[..n], d, r[..n], i) {
        assert Combined(w, s, c, q, d, r, i);
      }
      var fw, fs, fq, fr := Sum(w[..n]), Sum(s[..n]), Sum(q[..n]), Sum(r[..n]);
      SumOfCombination(w[..n], s[..n], c, q[..n], d, r[..n], fw, fs, fq, fr);
      assert Combined(w, s, c, q, d, r, n);
      CombinationGrows(fw, fs, fq, fr, w[n], s[n], q[n], r[n], sw, ss, sq, sr, c, d);
    }
  }

  lemma NothingCombined(sw: real, ss: real, c: real, sq: real, d: real, sr: real)
    requires sw == 0.0 && ss == 0.0 && sq == 0.0 && sr == 0.0
    ensures sw == ss + c * sq + d * sr
  {
  }

  lemma TimesZero(c: real)
    ensures c * 0.0 == 0.0
  {
  }

  lemma CombinationGrows(
    sw: real, ss: real, sq: real, sr: real, w: real, s: real, q: real, r: real,
    sw': real, ss': real, sq': real, sr': real, c: real, d: real)
    requires sw == ss + c * sq + d * sr && w == s + c * q + d * r
    requires sw' == sw + w && ss' == ss + s && sq' == sq + q && sr' == sr + r
    ensures sw' == ss' + c * sq' + d * sr'
  {
    assert c * (sq + q) == c * sq + c * q;
    assert d * (sr + r) == d * sr + d * r;
  }

  lemma {:induction false} SumOfNonNegative(v: seq<real>)
    requires forall i :: 0 <= i < |v| ==> v[i] >= 0.0
    ensures Sum(v) >= 0.0
    ensures Sum(v) == 0.0 <==> forall i :: 0 <= i < |v| ==> v[i] == 0.0
  {
    if v != [] {
      var rest := v[..|v| - 1];
      SumOfNonNegative(rest);
      assert forall i :: 0 <= i < |rest| ==> rest[i] == v[i];
    }
  }
}
