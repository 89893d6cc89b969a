/** What the reference definition of the evaluators comes to, in terms of the samples
    alone: a rate is the rise over the window per second, an instant value the latest one,
    a group the series that agree on its labels. */
module EvalMeaning {
  import opened Sets
  import opened Options
  import opened Chunks
  import opened Eval

  // ---- rates ----

  /** first and last are the earliest and the latest of at least two samples of xs in
      [t - w, t]. */
  ghost predicate Ends(xs: seq<Pt>, w: int, t: int, first: Pt, last: Pt) {
    && first in xs && last in xs && t - w <= first.ts < last.ts <= t
    && forall x :: x in xs && t - w <= x.ts <= t ==> first.ts <= x.ts <= last.ts
  }

  /** Over w milliseconds r a second makes the rise from first to last. */
  predicate IsRise(r: real, first: Pt, last: Pt, w: int) {
    r * (w as real) == (last.v - first.v) * 1000.0
  }

  lemma WindowEnds(xs: seq<Pt>, w: int, t: int, first: Pt, last: Pt, win: seq<Pt>)
    requires SamplesOk(xs) && 0 < w <= MAX_INT64 && Int64(t) && win == InWindow(xs, SaturatingSub(t, w), t)
    requires Ends(xs, w, t, first, last)
    ensures |win| >= 2 && win[0] == first && win[|win| - 1] == last
  {
    WindowElements(xs, SaturatingSub(t, w), t);
    InTime(xs, first);
    InTime(xs, last);
    Extremes(win, first, last);
  }

  lemma Extremes(win: seq<Pt>, first: Pt, last: Pt)
    requires Ascending(win) && first in win && last in win && first.ts < last.ts
    requires forall x :: x in win ==> first.ts <= x.ts <= last.ts
    ensures |win| >= 2 && win[0] == first && win[|win| - 1] == last
  {
    var i :| 0 <= i < |win| && win[i] == first;
    var j :| 0 <= j < |win| && win[j] == last;
    var a, b := win[0], win[|win| - 1];
    assert a in win && b in win;
    assert i == 0 || a.ts < first.ts;
    assert j == |win| - 1 || last.ts < b.ts;
  }

  lemma InTime(xs: seq<Pt>, x: Pt)
    requires SamplesOk(xs) && x in xs
    ensures Int64(x.ts)
  {
    var i :| 0 <= i < |xs| && xs[i] == x;
  }

  /** A series with two samples in the window has a rate: their rise, per second. */
  lemma RateIsRise(src: Source, sel: nat, w: int, t: int, l: Labels, first: Pt, last: Pt)
    requires SourceOk(src) && 0 < w <= MAX_INT64 && Int64(t) && sel in src && l in src[sel] && Ends(src[sel][l], w, t, first, last)
    ensures var at := At(src, Rate(sel, w), t); l in at && IsRise(at[l], first, last, w)
  {
    var xs := src[sel][l];
    assert SeriesOk(src[sel]);
    var r := EndsRate(xs, w, t, first, last);
    AtRate(src, sel, w, t, l, r);
  }

  lemma EndsRate(xs: seq<Pt>, w: int, t: int, first: Pt, last: Pt) returns (r: real)
    requires SamplesOk(xs) && 0 < w <= MAX_INT64 && Int64(t) && Ends(xs, w, t, first, last)
    ensures RateAt(xs, w, t) == Some(r) && IsRise(r, first, last, w)
  {
    WindowEnds(xs, w, t, first, last, InWindow(xs, SaturatingSub(t, w), t));
    r := RateAt(xs, w, t).value;
    PerSecondIs(first, last, w);
  }

  lemma PerSecondIs(first: Pt, last: Pt, w: int)
    requires w > 0
    ensures IsRise(PerSecond(first, last, w), first, last, w)
  {
    RiseOverWindow(last.v - first.v, w);
  }

  lemma AtRate(src: Source, sel: nat, w: int, t: int, l: Labels, r: real)
    requires 0 < w <= MAX_INT64 && Int64(t) && sel in src && l in src[sel] && RateAt(src[sel][l], w, t) == Some(r)
    ensures var at := At(src, Rate(sel, w), t); l in at && at[l] == r
  {
  }

  lemma RiseOverWindow(rise: real, w: int)
    requires w > 0
    ensures rise / (w as real / 1000.0) * (w as real) == rise * 1000.0
  {
    var s := w as real / 1000.0;
    assert w as real == s * 1000.0;
    assert rise / s * s == rise;
    assert rise / s * (s * 1000.0) == rise / s * s * 1000.0;
  }

  /** A series with fewer than two has none. */
  lemma NoRate(src: Source, sel: nat, w: int, t: int, l: Labels)
    requires SourceOk(src) && 0 < w <= MAX_INT64 && Int64(t) && sel in src && l in src[sel]
    requires forall x, y :: x in src[sel][l] && y in src[sel][l] && t - w <= x.ts <= t && t - w <= y.ts <= t ==> x == y
    ensures l !in At(src, Rate(sel, w), t)
  {
    var xs := src[sel][l];
    var win := InWindow(xs, SaturatingSub(t, w), t);
    assert SeriesOk(src[sel]);
    WindowElements(xs, SaturatingSub(t, w), t);
    NoTwo(win);
  }

  lemma NoTwo(win: seq<Pt>)
    requires Ascending(win) && forall x, y :: x in win && y in win ==> x == y
    ensures |win| < 2
  {
    if win != [] {
      var a, b := win[0], win[|win| - 1];
      assert a in win && b in win;
      assert |win| == 1 || a.ts < b.ts;
    }
  }

  lemma EndsExist(xs: seq<Pt>, w: int, t: int) returns (first: Pt, last: Pt)
    requires SamplesOk(xs) && 0 < w <= MAX_INT64 && Int64(t) && RateAt(xs, w, t).Some?
    ensures Ends(xs, w, t, first, last)
  {
    var win := InWindow(xs, SaturatingSub(t, w), t);
    WindowElements(xs, SaturatingSub(t, w), t);
    first, last := win[0], win[|win| - 1];
    assert first in win && last in win;
    forall x | x in xs && t - w <= x.ts <= t ensures first.ts <= x.ts <= last.ts {
      InTime(xs, x);
      assert x in win;
      var i :| 0 <= i < |win| && win[i] == x;
    }
  }

  /** A series that never falls never has a negative rate. */
  lemma RisingHasNoNegativeRate(src: Source, sel: nat, w: int, t: int, l: Labels)
    requires SourceOk(src) && 0 < w <= MAX_INT64 && Int64(t) && sel in src && l in src[sel]
    requires forall x, y :: x in src[sel][l] && y in src[sel][l] && x.ts <= y.ts ==> x.v <= y.v
    ensures l in At(src, Rate(sel, w), t) ==> At(src, Rate(sel, w), t)[l] >= 0.0
  {
    var at := At(src, Rate(sel, w), t);
    assert SeriesOk(src[sel]);
    if l in at {
      var first, last := EndsExist(src[sel][l], w, t);
      RateIsRise(src, sel, w, t, l, first, last);
      NotNegative(at[l], w as real);
    }
  }

  lemma NotNegative(a: real, n: real)
    requires n > 0.0 && a * n >= 0.0
    ensures a >= 0.0
  {
  }

  /** A series that rises by c a second, sampled at both ends of the window, has rate c. */
  lemma SteadyRise(src: Source, sel: nat, w: int, t: int, l: Labels, c: real, d: real, first: Pt, last: Pt)
    requires SourceOk(src) && 0 < w <= MAX_INT64 && Int64(t) && sel in src && l in src[sel]
    requires forall x :: x in src[sel][l] ==> x.v == c * (x.ts as real / 1000.0) + d
    requires first in src[sel][l] && last in src[sel][l] && first.ts == t - w && last.ts == t
    ensures var at := At(src, Rate(sel, w), t); l in at && at[l] == c
  {
    var xs := src[sel][l];
    assert SeriesOk(src[sel]);
    assert Ends(xs, w, t, first, last);
    var r := EndsRate(xs, w, t, first, last);
    RiseOf(first.ts, last.ts, w, c, d);
    var rise := last.v - first.v;
    assert rise == (c * (last.ts as real / 1000.0) + d) - (c * (first.ts as real / 1000.0) + d);
    assert r * (w as real) == rise * 1000.0 == c * (w as real);
    SameFactor(r, c, w as real);
    AtRate(src, sel, w, t, l, r);
  }

  lemma RiseOf(a: int, b: int, w: int, c: real, d: real)
    requires b - a == w
    ensures ((c * (b as real / 1000.0) + d) - (c * (a as real / 1000.0) + d)) * 1000.0 == c * (w as real)
  {
    var x, y := a as real / 1000.0, b as real / 1000.0;
    assert (y - x) * 1000.0 == w as real;
    Distributes(c, x, y);
    assert c * (y - x) * 1000.0 == c * ((y - x) * 1000.0);
  }

  lemma Distributes(c: real, x: real, y: real)
    ensures c * y - c * x == c * (y - x)
  {
  }

  lemma SameFactor(a: real, b: real, n: real)
    requires n > 0.0 && a * n == b * n
    ensures a == b
  {
    assert (a - b) * n == 0.0;
  }

  // ---- instant values ----

  /** A series has an instant value exactly when it has a sample at or before t, and then
      it is the latest one's. */
  lemma InstantIsLatest(src: Source, sel: nat, t: int, l: Labels)
    requires SourceOk(src) && Int64(t) && sel in src && l in src[sel]
    ensures l in At(src, Selector(sel), t) <==> exists x :: x in src[sel][l] && x.ts <= t
    ensures forall x :: x in src[sel][l] && x.ts <= t && (forall y :: y in src[sel][l] && y.ts <= t ==> y.ts <= x.ts) ==>
      l in At(src, Selector(sel), t) && At(src, Selector(sel), t)[l] == x.v
  {
    assert SeriesOk(src[sel]);
    LatestMeans(src[sel][l], t);
  }

  lemma LatestMeans(xs: seq<Pt>, t: int)
    requires Ascending(xs)
    ensures LatestAt(xs, t).Some? <==> exists x :: x in xs && x.ts <= t
    ensures forall x :: x in xs && x.ts <= t && (forall y :: y in xs && y.ts <= t ==> y.ts <= x.ts) ==> LatestAt(xs, t) == Some(x)
  {
    var n := TimeCut(xs, t);
    LatestIsBefore(xs, t, n);
    if n > 0 { assert xs[n - 1] in xs; }
    forall x | x in xs && x.ts <= t && (forall y :: y in xs && y.ts <= t ==> y.ts <= x.ts) ensures LatestAt(xs, t) == Some(x) {
      var i :| 0 <= i < |xs| && xs[i] == x;
      var y := xs[n - 1];
      assert i < n && y.ts <= x.ts;
      assert i == n - 1 || x.ts < y.ts;
    }
  }

  lemma {:induction false} TimeCut(xs: seq<Pt>, t: int) returns (n: nat)
    requires Ascending(xs)
    ensures n <= |xs| && (forall k :: 0 <= k < n ==> xs[k].ts <= t) && (forall k :: n <= k < |xs| ==> xs[k].ts > t)
  {
    if xs == [] || xs[|xs| - 1].ts <= t {
      n := |xs|;
    } else {
      n := TimeCut(xs[..|xs| - 1], t);
    }
  }

  // ---- groups ----

  predicate Agree(a: Labels, b: Labels, groups: seq<Text>) {
    forall n :: n in groups ==> a.Get(n) == b.Get(n)
  }

  /** Two series are in one group exactly when they agree on every label it names, an
      absent one reading as empty. */
  lemma SameGroupIff(a: Labels, b: Labels, groups: seq<Text>)
    ensures GroupOf(a, groups) == GroupOf(b, groups) <==> Agree(a, b, groups)
  {
    var g, h := GroupOf(a, groups), GroupOf(b, groups);
    if g == h {
      forall n | n in groups ensures a.Get(n) == b.Get(n) { assert g.pairs[n] == h.pairs[n]; }
    }
    if Agree(a, b, groups) { SameMap(g.pairs, h.pairs); }
  }

  /** A group carries the labels it names, with its members' values, and no other. */
  lemma GroupLabels(a: Labels, groups: seq<Text>, n: Text)
    ensures GroupOf(a, groups).Get(n) == if n in groups then a.Get(n) else []
    ensures n in GroupOf(a, groups).pairs <==> n in groups
  {
  }

  /** A sum has a group exactly where the inner expression has a member of it. */
  lemma GroupExistsIff(src: Source, inner: Expr, groups: seq<Text>, t: int, l: Labels)
    requires ExprOk(inner) && Int64(t)
    ensures GroupOf(l, groups) in At(src, Sum(inner, groups), t) <==>
      exists k :: k in At(src, inner, t) && Agree(k, l, groups)
  {
    var m := At(src, inner, t);
    GroupedIff(m, groups, l);
    assert At(src, Sum(inner, groups), t) == Grouped(m, groups);
  }

  lemma GroupedIff(m: map<Labels, real>, groups: seq<Text>, l: Labels)
    ensures GroupOf(l, groups) in GroupsIn(m, groups) <==> exists k :: k in m && Agree(k, l, groups)
  {
    if GroupOf(l, groups) in GroupsIn(m, groups) {
      var k :| k in m && GroupOf(k, groups) == GroupOf(l, groups);
      SameGroupIff(k, l, groups);
    }
    if k :| k in m && Agree(k, l, groups) {
      SameGroupIff(k, l, groups);
      assert GroupOf(k, groups) in GroupsIn(m, groups);
    }
  }

  /** Adding one series to a group adds its value to the group's and to no other's. */
  lemma GroupGains(m: map<Labels, real>, groups: seq<Text>, l: Labels, v: real, g: Labels)
    requires l !in m
    ensures var after := Grouped(m[l := v], groups); var before := Grouped(m, groups);
      g in after <==> g in before || g == GroupOf(l, groups)
    ensures var after := Grouped(m[l := v], groups); var before := Grouped(m, groups);
      g in after ==> after[g] == (if g in before then before[g] else 0.0) + (if g == GroupOf(l, groups) then v else 0.0)
  {
    var m' := m[l := v];
    GroupsGain(m, groups, l, v, g);
    var M, M' := Members(m, g, groups), Members(m', g, groups);
    SumSame(M, m, m');
    if g == GroupOf(l, groups) {
      assert M' == M + {l};
      SumTakesAny(M', m', l);
      assert M' - {l} == M;
      if g !in GroupsIn(m, groups) { NoMembers(m, groups, g); }
    } else {
      assert M' == M;
    }
  }

  lemma GroupsGain(m: map<Labels, real>, groups: seq<Text>, l: Labels, v: real, g: Labels)
    requires l !in m
    ensures g in GroupsIn(m[l := v], groups) <==> g in GroupsIn(m, groups) || g == GroupOf(l, groups)
  {
    var m' := m[l := v];
    if g in GroupsIn(m', groups) { var k :| k in m' && GroupOf(k, groups) == g; }
    if g in GroupsIn(m, groups) {
      var k :| k in m && GroupOf(k, groups) == g;
      assert k in m';
    }
    assert l in m';
  }

  lemma NoMembers(m: map<Labels, real>, groups: seq<Text>, g: Labels)
    requires g !in GroupsIn(m, groups)
    ensures Members(m, g, groups) == {}
  {
    forall l | l in m ensures GroupOf(l, groups) != g { assert GroupOf(l, groups) in GroupsIn(m, groups); }
  }

  lemma {:induction false} SumSame(S: set<Labels>, m: map<Labels, real>, m': map<Labels, real>)
    requires S <= m.Keys && S <= m'.Keys && forall l :: l in S ==> m[l] == m'[l]
    ensures SumOf(S, m) == SumOf(S, m')
  {
    if S != {} { SumSame(S - {Pick(S)}, m, m'); }
  }
}
