/** The metric query evaluators. A reference definition says what an expression is
    worth at one instant, series by series; the instant evaluator computes it, and the
    range evaluator, with its single pass and two pointers, agrees with it at every
    tick. Values are exact reals. */
module Eval {
  import opened Clock
  import opened Options
  import opened Sets
  import opened Chunks
  import BitStreams
  import Varints

  type Text = seq<BitStreams.Byte>
  /** A label set; a name it lacks reads as empty. */
  datatype Labels = Labels(pairs: map<Text, Text>) {
    function Get(name: Text): Text { if name in pairs then pairs[name] else [] }
  }

  datatype Pt = Pt(ts: int, v: real)

  datatype Expr =
    | Selector(sel: nat)
    | Rate(range: nat, windowMs: nat)
    | Sum(inner: Expr, groups: seq<Text>)
    | Scalar(value: real)

  /** A fixed source: each selector's series, each with its samples in time order. */
  type Source = map<nat, map<Labels, seq<Pt>>>

  predicate Ascending(xs: seq<Pt>) {
    forall i, j :: 0 <= i < j < |xs| ==> xs[i].ts < xs[j].ts
  }

  predicate SamplesOk(xs: seq<Pt>) {
    Ascending(xs) && forall i :: 0 <= i < |xs| ==> Int64(xs[i].ts)
  }

  /** Label values have 32-bit lengths. */
  predicate LabelsOk(l: Labels) {
    forall n :: n in l.pairs ==> |l.pairs[n]| < 0x1_0000_0000
  }

  ghost predicate SeriesOk(m: map<Labels, seq<Pt>>) {
    forall l :: l in m ==> SamplesOk(m[l]) && LabelsOk(l)
  }

  ghost predicate SourceOk(src: Source) {
    forall sel :: sel in src ==> SeriesOk(src[sel])
  }

  predicate ExprOk(e: Expr) {
    match e
    case Rate(_, w) => 0 < w <= MAX_INT64
    case Sum(inner, _) => ExprOk(inner)
    case _ => true
  }

  // ---- Select ----

  function Matching(src: Source, sel: nat): map<Labels, seq<Pt>> {
    if sel in src then src[sel] else map[]
  }

  function InWindow(xs: seq<Pt>, lo: int, hi: int): seq<Pt> {
    if xs == [] then []
    else
      var n := |xs| - 1;
      InWindow(xs[..n], lo, hi) + (if lo <= xs[n].ts <= hi then [xs[n]] else [])
  }

  /** The latest sample at or before t. */
  function LatestAt(xs: seq<Pt>, t: int): Option<Pt> {
    if xs == [] then None
    else
      var n := |xs| - 1;
      if xs[n].ts <= t then Some(xs[n]) else LatestAt(xs[..n], t)
  }

  /** One series' data: in-range samples, and the anchor before them if wanted. */
  datatype SeriesData = SeriesData(anchor: Option<Pt>, samples: seq<Pt>)

  function SelectOne(xs: seq<Pt>, minT: int, maxT: int, anchor: bool): SeriesData {
    SeriesData(if anchor && minT > MIN_INT64 && minT <= maxT then LatestAt(xs, minT - 1) else None, InWindow(xs, minT, maxT))
  }

  function Select(src: Source, sel: nat, minT: int, maxT: int, anchor: bool): map<Labels, SeriesData> {
    map l | l in Matching(src, sel) :: SelectOne(Matching(src, sel)[l], minT, maxT, anchor)
  }

  // ---- the reference definition ----

  function SaturatingSub(a: int, b: int): (d: int)
    requires Int64(a) && Int64(b) && b >= 0
    ensures Int64(d) && d == Max(a - b, MIN_INT64)
  {
    if b > 0 && a < MIN_INT64 + b then MIN_INT64 else a - b
  }

  function RateAt(xs: seq<Pt>, w: int, t: int): Option<real>
    requires 0 < w <= MAX_INT64 && Int64(t)
  {
    var win := InWindow(xs, SaturatingSub(t, w), t);
    if |win| < 2 then None else Some(PerSecond(win[0], win[|win| - 1], w))
  }

  function PerSecond(first: Pt, last: Pt, w: int): real
    requires w > 0
  {
    (last.v - first.v) / (w as real / 1000.0)
  }

  /** The labels a group keeps: the named ones, absent ones as empty. */
  function GroupOf(l: Labels, groups: seq<Text>): Labels {
    Labels(map n | n in groups :: l.Get(n))
  }

  ghost function SumOf(S: set<Labels>, m: map<Labels, real>): real
    requires S <= m.Keys
  {
    if S == {} then 0.0
    else
      var l := Pick(S);
      m[l] + SumOf(S - {l}, m)
  }

  ghost function Pick(S: set<Labels>): (l: Labels)
    requires S != {}
    ensures l in S
  {
    var l :| l in S;
    l
  }

  function Members(m: map<Labels, real>, g: Labels, groups: seq<Text>): set<Labels> {
    set l | l in m && GroupOf(l, groups) == g
  }

  /** Every non-empty group with the sum of its members. */
  ghost function Grouped(m: map<Labels, real>, groups: seq<Text>): map<Labels, real> {
    map g | g in GroupsIn(m, groups) :: SumOf(Members(m, g, groups), m)
  }

  function GroupsIn(m: map<Labels, real>, groups: seq<Text>): set<Labels> {
    set l | l in m :: GroupOf(l, groups)
  }

  /** What e is worth at t. */
  ghost function At(src: Source, e: Expr, t: int): map<Labels, real>
    requires ExprOk(e) && Int64(t)
  {
    match e
    case Selector(sel) => map l | l in Matching(src, sel) && LatestAt(Matching(src, sel)[l], t).Some? :: LatestAt(Matching(src, sel)[l], t).value.v
    case Rate(sel, w) => map l | l in Matching(src, sel) && RateAt(Matching(src, sel)[l], w, t).Some? :: RateAt(Matching(src, sel)[l], w, t).value
    case Sum(inner, groups) => Grouped(At(src, inner, t), groups)
    case Scalar(v) => map[Labels(map[]) := v]
  }

  // ---- sums ----

  lemma {:induction false} SumTakesAny(S: set<Labels>, m: map<Labels, real>, l: Labels)
    requires S <= m.Keys && l in S
    ensures SumOf(S, m) == m[l] + SumOf(S - {l}, m)
  {
    var p := Pick(S);
    if p != l {
      SumTakesAny(S - {p}, m, l);
      SumTakesAny(S - {l}, m, p);
      assert S - {p} - {l} == S - {l} - {p};
    }
  }

  lemma {:induction false} SumSame(S: set<Labels>, m: map<Labels, real>, m': map<Labels, real>)
    requires S <= m.Keys && S <= m'.Keys && forall l :: l in S ==> m[l] == m'[l]
    ensures SumOf(S, m) == SumOf(S, m')
  {
    if S != {} { SumSame(S - {Pick(S)}, m, m'); }
  }

  /** One more series adds its value to its group and touches no other. */
  lemma GroupedAdd(m: map<Labels, real>, l: Labels, v: real, groups: seq<Text>,
                   m': map<Labels, real>, G: map<Labels, real>, g: Labels)
    requires l !in m && m' == m[l := v] && G == Grouped(m, groups) && g == GroupOf(l, groups)
    ensures Grouped(m', groups) == G[g := Or0(G, g) + v]
  {
    var G' := Grouped(m', groups);
    assert G'.Keys == G.Keys + {g} by { GroupsAdd(m, l, v, groups); }
    forall h | h in G' ensures G'[h] == Or0(G, h) + (if h == g then v else 0.0) {
      GroupedAddAt(m, l, v, groups, h, G, G', g);
    }
    OneChanged(G, G', g, v);
  }

  lemma OneChanged(G: map<Labels, real>, G': map<Labels, real>, g: Labels, v: real)
    requires G'.Keys == G.Keys + {g} && forall h :: h in G' ==> G'[h] == Or0(G, h) + (if h == g then v else 0.0)
    ensures G' == G[g := Or0(G, g) + v]
  {
  }

  lemma GroupedAddAt(m: map<Labels, real>, l: Labels, v: real, groups: seq<Text>, h: Labels,
                     G: map<Labels, real>, G': map<Labels, real>, g: Labels)
    requires l !in m && h in G' && G == Grouped(m, groups) && G' == Grouped(m[l := v], groups) && g == GroupOf(l, groups)
    ensures G'[h] == Or0(G, h) + (if h == g then v else 0.0)
  {
    MembersAdd(m, l, v, h, groups);
  }

  lemma GroupsAdd(m: map<Labels, real>, l: Labels, v: real, groups: seq<Text>)
    requires l !in m
    ensures GroupsIn(m[l := v], groups) == GroupsIn(m, groups) + {GroupOf(l, groups)}
  {
    var m' := m[l := v];
    assert l in m';
    forall h | h in GroupsIn(m, groups) ensures h in GroupsIn(m', groups) {
      var k :| k in m && GroupOf(k, groups) == h;
      assert k in m';
    }
  }

  lemma MembersAdd(m: map<Labels, real>, l: Labels, v: real, h: Labels, groups: seq<Text>)
    requires l !in m
    ensures SumOf(Members(m[l := v], h, groups), m[l := v]) == SumOf(Members(m, h, groups), m) + (if h == GroupOf(l, groups) then v else 0.0)
    ensures h !in Grouped(m, groups) ==> SumOf(Members(m, h, groups), m) == 0.0
  {
    var m' := m[l := v];
    var S, S' := Members(m, h, groups), Members(m', h, groups);
    SumSame(S, m, m');
    if h == GroupOf(l, groups) {
      assert S' == S + {l};
      SumTakesAny(S', m', l);
      assert S' - {l} == S;
    } else {
      assert S' == S;
    }
    if h !in Grouped(m, groups) {
      forall k | k in m ensures GroupOf(k, groups) != h { assert GroupOf(k, groups) in GroupsIn(m, groups); }
      assert S == {};
    }
  }

  // ---- groupKey ----

  /** Each value of the group as a 4-byte length and its bytes. */
  function KeyOf(g: Labels, groups: seq<Text>): Text {
    if groups == [] then []
    else
      var v := g.Get(groups[0]);
      Varints.BE(|v|, 4) + v + KeyOf(g, groups[1..])
  }

  /** Length-prefixed keys are unambiguous: distinct groups never share one. */
  lemma {:induction false} KeyInjective(g: Labels, h: Labels, groups: seq<Text>)
    requires LabelsOk(g) && LabelsOk(h) && KeyOf(g, groups) == KeyOf(h, groups)
    ensures forall n :: n in groups ==> g.Get(n) == h.Get(n)
  {
    if groups != [] {
      var a, b := g.Get(groups[0]), h.Get(groups[0]);
      SplitKey(a, KeyOf(g, groups[1..]), b, KeyOf(h, groups[1..]));
      KeyInjective(g, h, groups[1..]);
    }
  }

  lemma SplitKey(a: Text, r: Text, b: Text, s: Text)
    requires |a| < 0x1_0000_0000 && |b| < 0x1_0000_0000
    requires Varints.BE(|a|, 4) + a + r == Varints.BE(|b|, 4) + b + s
    ensures a == b && r == s
  {
    var p, q := Varints.BE(|a|, 4), Varints.BE(|b|, 4);
    KeyParts(p, a, r);
    KeyParts(q, b, s);
    assert |a| == |b| by {
      Varints.Pow256Values();
      Varints.BERoundTrip(|a|, 4);
      Varints.BERoundTrip(|b|, 4);
    }
  }

  lemma KeyParts(p: Text, a: Text, r: Text)
    requires |p| == 4
    ensures var x := p + a + r; x[..4] == p && x[4..4 + |a|] == a && x[4 + |a|..] == r
  {
  }

  lemma SameKeySameGroup(l: Labels, k: Labels, groups: seq<Text>)
    requires LabelsOk(l) && LabelsOk(k)
    ensures KeyOf(l, groups) == KeyOf(k, groups) <==> GroupOf(l, groups) == GroupOf(k, groups)
  {
    if KeyOf(l, groups) == KeyOf(k, groups) {
      KeyInjective(l, k, groups);
      assert GroupOf(l, groups).pairs == GroupOf(k, groups).pairs;
    }
    if GroupOf(l, groups) == GroupOf(k, groups) { KeyByGroup(l, k, groups, groups); }
  }

  lemma {:induction false} KeyByGroup(l: Labels, k: Labels, groups: seq<Text>, some: seq<Text>)
    requires GroupOf(l, groups) == GroupOf(k, groups) && forall n :: n in some ==> n in groups
    ensures KeyOf(l, some) == KeyOf(k, some)
  {
    if some != [] {
      assert GroupOf(l, groups).pairs[some[0]] == GroupOf(k, groups).pairs[some[0]];
      KeyByGroup(l, k, groups, some[1..]);
    }
  }

  method GroupKey(l: Labels, groups: seq<Text>) returns (key: Text)
    ensures key == KeyOf(l, groups)
  {
    key := [];
    var i := 0;
    ghost var all := KeyOf(l, groups);
    assert groups[0..] == groups;
    while i < |groups|
      invariant 0 <= i <= |groups|
      invariant key + KeyOf(l, groups[i..]) == all
    {
      var v := l.Get(groups[i]);
      ghost var before := key;
      key := key + Varints.BE(|v|, 4) + v;
      KeyNext(l, groups, i, before, key, all);
      i := i + 1;
    }
    assert key + [] == key;
  }

  lemma KeyNext(l: Labels, groups: seq<Text>, i: nat, key: Text, key': Text, all: Text)
    requires i < |groups| && key + KeyOf(l, groups[i..]) == all
    requires var v := l.Get(groups[i]); key' == key + Varints.BE(|v|, 4) + v
    ensures key' + KeyOf(l, groups[i + 1..]) == all
  {
    var v, rest := l.Get(groups[i]), KeyOf(l, groups[i + 1..]);
    var n := Varints.BE(|v|, 4);
    assert groups[i..][1..] == groups[i + 1..];
    assert all == key + (n + v + rest);
    ConcatAssoc(key, n, v);
    ConcatAssoc(key, n + v, rest);
  }

  // ---- windows and the two pointers ----

  lemma {:induction false} WindowElements(xs: seq<Pt>, lo: int, hi: int)
    requires Ascending(xs)
    ensures Ascending(InWindow(xs, lo, hi)) && forall x :: x in InWindow(xs, lo, hi) <==> x in xs && lo <= x.ts <= hi
  {
    if xs != [] {
      var n := |xs| - 1;
      WindowElements(xs[..n], lo, hi);
      assert xs == xs[..n] + [xs[n]];
      var w := InWindow(xs[..n], lo, hi);
      forall i | 0 <= i < |w| ensures w[i].ts < xs[n].ts {
        assert w[i] in xs[..n];
        var k :| 0 <= k < n && xs[..n][k] == w[i];
        assert xs[k] == w[i];
      }
    }
  }

  /** A window of a wider window is the window itself. */
  lemma {:induction false} WindowOfWindow(xs: seq<Pt>, a: int, b: int, lo: int, hi: int)
    requires a <= lo && hi <= b
    ensures InWindow(InWindow(xs, a, b), lo, hi) == InWindow(xs, lo, hi)
  {
    if xs != [] {
      var n := |xs| - 1;
      WindowOfWindow(xs[..n], a, b, lo, hi);
      var w := InWindow(xs[..n], a, b);
      if a <= xs[n].ts <= b { assert (w + [xs[n]])[..|w|] == w; } else { assert w + [] == w; }
    }
  }

  /** Between two pointers placed by time lies exactly the window. */
  lemma {:induction false} WindowIsSlice(xs: seq<Pt>, lo: int, hi: int, i: nat, j: nat)
    requires i <= j <= |xs|
    requires forall k :: 0 <= k < i ==> xs[k].ts < lo
    requires forall k :: i <= k < j ==> lo <= xs[k].ts <= hi
    requires forall k :: j <= k < |xs| ==> xs[k].ts > hi
    ensures InWindow(xs, lo, hi) == xs[i..j]
  {
    var n := |xs| - 1;
    if i == j {
      WindowIsEmpty(xs, lo, hi);
      assert xs[i..j] == [];
    } else if j == |xs| {
      var p := xs[..n];
      WindowIsSlice(p, lo, hi, i, n);
      assert xs[i..j] == p[i..n] + [xs[n]];
    } else {
      var p := xs[..n];
      WindowIsSlice(p, lo, hi, i, j);
      assert xs[i..j] == p[i..j];
    }
  }

  lemma {:induction false} WindowIsEmpty(xs: seq<Pt>, lo: int, hi: int)
    requires forall k :: 0 <= k < |xs| ==> !(lo <= xs[k].ts <= hi)
    ensures InWindow(xs, lo, hi) == []
  {
    if xs != [] { WindowIsEmpty(xs[..|xs| - 1], lo, hi); }
  }

  lemma {:induction false} LatestIsBefore(xs: seq<Pt>, t: int, i: nat)
    requires Ascending(xs) && i <= |xs|
    requires (forall k :: 0 <= k < i ==> xs[k].ts <= t) && (forall k :: i <= k < |xs| ==> xs[k].ts > t)
    ensures LatestAt(xs, t) == if i == 0 then None else Some(xs[i - 1])
  {
    if i < |xs| { LatestIsBefore(xs[..|xs| - 1], t, i); }
  }

  /** The latest sample at or before t, from a select's anchor and samples. */
  lemma {:induction false} LatestFromSelect(xs: seq<Pt>, minT: int, maxT: int, t: int)
    requires SamplesOk(xs) && minT <= t <= maxT
    ensures var sd := SelectOne(xs, minT, maxT, true);
      LatestAt(xs, t) == if LatestAt(sd.samples, t).Some? then LatestAt(sd.samples, t) else sd.anchor
  {
    if xs != [] {
      var n := |xs| - 1;
      LatestFromSelect(xs[..n], minT, maxT, t);
      if xs[n].ts <= t {
        if xs[n].ts < minT { AllBelow(xs, minT, maxT); }
      } else if minT <= xs[n].ts <= maxT {
        var w := InWindow(xs[..n], minT, maxT);
        assert (w + [xs[n]])[..|w|] == w;
      } else {
        assert InWindow(xs[..n], minT, maxT) + [] == InWindow(xs[..n], minT, maxT);
      }
    }
  }

  lemma {:induction false} AllBelow(xs: seq<Pt>, lo: int, hi: int)
    requires xs != [] && Ascending(xs) && xs[|xs| - 1].ts < lo
    ensures InWindow(xs, lo, hi) == []
  {
    if |xs| > 1 { AllBelow(xs[..|xs| - 1], lo, hi); }
  }

  // ---- instant evaluation ----

  /** Binary search: how many samples are at or before t. */
  method CountUpTo(xs: seq<Pt>, t: int) returns (i: nat)
    requires Ascending(xs)
    ensures i <= |xs| && (forall k :: 0 <= k < i ==> xs[k].ts <= t) && (forall k :: i <= k < |xs| ==> xs[k].ts > t)
  {
    var lo, hi := 0, |xs|;
    while lo < hi
      invariant 0 <= lo <= hi <= |xs|
      invariant (forall k :: 0 <= k < lo ==> xs[k].ts <= t) && (forall k :: hi <= k < |xs| ==> xs[k].ts > t)
    {
      var mid := (lo + hi) / 2;
      if xs[mid].ts > t { hi := mid; } else { lo := mid + 1; }
    }
    i := lo;
  }

  method LatestAtOrBefore(sd: SeriesData, t: int) returns (o: Option<Pt>)
    requires Ascending(sd.samples) && (sd.anchor.Some? ==> sd.anchor.value.ts <= t)
    ensures o == if LatestAt(sd.samples, t).Some? then LatestAt(sd.samples, t) else sd.anchor
  {
    var i := CountUpTo(sd.samples, t);
    LatestIsBefore(sd.samples, t, i);
    if i > 0 { return Some(sd.samples[i - 1]); }
    if sd.anchor.Some? && sd.anchor.value.ts <= t { return sd.anchor; }
    o := None;
  }

  lemma {:induction false} LatestIsEarlier(xs: seq<Pt>, t: int)
    ensures LatestAt(xs, t).Some? ==> LatestAt(xs, t).value.ts <= t
  {
    if xs != [] { LatestIsEarlier(xs[..|xs| - 1], t); }
  }

  /** One series of an instant query, read through a select at the instant. */
  method InstantOf(sd: SeriesData, ghost xs: seq<Pt>, t: int) returns (o: Option<Pt>)
    requires SamplesOk(xs) && Int64(t) && sd == SelectOne(xs, t, t, true)
    ensures o == LatestAt(xs, t)
  {
    WindowElements(xs, t, t);
    LatestIsEarlier(xs, t - 1);
    LatestFromSelect(xs, t, t, t);
    o := LatestAtOrBefore(sd, t);
  }

  method InstantQuery(src: Source, sel: nat, t: int) returns (r: map<Labels, real>)
    requires SourceOk(src) && Int64(t)
    ensures r == At(src, Selector(sel), t)
  {
    var series := Select(src, sel, t, t, true);
    ghost var all := Matching(src, sel);
    r := map[];
    var todo := series.Keys;
    while todo != {}
      invariant todo <= series.Keys == all.Keys
      invariant r == LatestBut(all, t, todo)
      decreases todo
    {
      var l :| l in todo;
      assert SeriesOk(all);
      LatestNext(all, t, todo, l);
      var s := InstantOf(series[l], all[l], t);
      if s.Some? { r := r[l := s.value.v]; }
      todo := todo - {l};
    }
  }

  /** The latest values of the series not in todo. */
  function LatestBut(all: map<Labels, seq<Pt>>, t: int, todo: set<Labels>): map<Labels, real> {
    map l | l in all && l !in todo && LatestAt(all[l], t).Some? :: LatestAt(all[l], t).value.v
  }

  lemma LatestNext(all: map<Labels, seq<Pt>>, t: int, todo: set<Labels>, l: Labels)
    requires l in all && l in todo
    ensures var o := LatestAt(all[l], t);
      LatestBut(all, t, todo - {l}) == if o.Some? then LatestBut(all, t, todo)[l := o.value.v] else LatestBut(all, t, todo)
  {
  }

  method RateInstant(src: Source, sel: nat, w: int, t: int) returns (r: map<Labels, real>)
    requires SourceOk(src) && Int64(t) && 0 < w <= MAX_INT64
    ensures r == At(src, Rate(sel, w), t)
  {
    var series := Select(src, sel, SaturatingSub(t, w), t, false);
    ghost var all := Matching(src, sel);
    r := map[];
    var todo := series.Keys;
    while todo != {}
      invariant todo <= series.Keys == all.Keys
      invariant r == RatesBut(all, w, t, todo)
      decreases todo
    {
      var l :| l in todo;
      RatesNext(all, w, t, todo, l);
      var xs := series[l].samples;
      if |xs| >= 2 {
        r := r[l := PerSecond(xs[0], xs[|xs| - 1], w)];
      }
      todo := todo - {l};
    }
  }

  /** The rates of the series not in todo. */
  function RatesBut(all: map<Labels, seq<Pt>>, w: int, t: int, todo: set<Labels>): map<Labels, real>
    requires Int64(t) && 0 < w <= MAX_INT64
  {
    map l | l in all && l !in todo && RateAt(all[l], w, t).Some? :: RateAt(all[l], w, t).value
  }

  lemma RatesNext(all: map<Labels, seq<Pt>>, w: int, t: int, todo: set<Labels>, l: Labels)
    requires Int64(t) && 0 < w <= MAX_INT64 && l in all && l in todo
    ensures var r := RateAt(all[l], w, t);
      RatesBut(all, w, t, todo - {l}) == if r.Some? then RatesBut(all, w, t, todo)[l := r.value] else RatesBut(all, w, t, todo)
  {
  }

  // ---- aggregation ----

  /** What each group has so far, keyed by its unambiguous key. */
  ghost predicate Keyed<V(!new)>(values: map<Text, V>, labels: map<Text, Labels>, G: map<Labels, V>, groups: seq<Text>) {
    && values.Keys == labels.Keys
    && (forall key :: key in labels ==> labels[key] in G && key == KeyOf(labels[key], groups) && values[key] == G[labels[key]])
    && (forall g :: g in G ==> KeyOf(g, groups) in labels && labels[KeyOf(g, groups)] == g)
  }

  /** A group's own labels have its key. */
  lemma KeyOfGroup(l: Labels, groups: seq<Text>)
    requires LabelsOk(l)
    ensures LabelsOk(GroupOf(l, groups)) && KeyOf(GroupOf(l, groups), groups) == KeyOf(l, groups)
    ensures GroupOf(GroupOf(l, groups), groups) == GroupOf(l, groups)
  {
    assert GroupOf(GroupOf(l, groups), groups).pairs == GroupOf(l, groups).pairs;
    SameKeySameGroup(GroupOf(l, groups), l, groups);
  }

  /** G's labels are groups, with readable keys. */
  ghost predicate AreGroups<V(!new)>(G: map<Labels, V>, groups: seq<Text>) {
    forall g :: g in G ==> GroupOf(g, groups) == g && LabelsOk(g)
  }

  /** A series' key is its group's, and no other group's. */
  lemma KeyIsGroups<V(!new)>(G: map<Labels, V>, groups: seq<Text>, l: Labels)
    requires AreGroups(G, groups) && LabelsOk(l)
    ensures IsKey(G, groups, KeyOf(l, groups), GroupOf(l, groups))
  {
    KeyOfGroup(l, groups);
    forall h | h in G ensures KeyOf(h, groups) == KeyOf(l, groups) <==> h == GroupOf(l, groups) {
      KeyOfMember(h, l, groups);
    }
  }

  lemma KeyOfMember(h: Labels, l: Labels, groups: seq<Text>)
    requires LabelsOk(h) && LabelsOk(l) && GroupOf(h, groups) == h
    ensures KeyOf(h, groups) == KeyOf(l, groups) <==> h == GroupOf(l, groups)
  {
    SameKeySameGroup(h, l, groups);
  }

  lemma KeyedSet<V(!new)>(values: map<Text, V>, labels: map<Text, Labels>, G: map<Labels, V>, groups: seq<Text>, key: Text, g: Labels, v: V,
                           values': map<Text, V>, labels': map<Text, Labels>, G': map<Labels, V>)
    requires Keyed(values, labels, G, groups) && IsKey(G, groups, key, g)
    requires values' == values[key := v] && labels' == labels[key := g] && G' == G[g := v]
    ensures Keyed(values', labels', G', groups)
  {
  }

  /** A key has a value exactly when its group does, and it is the group's. */
  lemma KeyedGet<V(!new)>(values: map<Text, V>, labels: map<Text, Labels>, G: map<Labels, V>, groups: seq<Text>, key: Text, g: Labels)
    requires Keyed(values, labels, G, groups) && IsKey(G, groups, key, g)
    ensures (key in values <==> g in G) && (key in values ==> values[key] == G[g])
    ensures key in labels <==> g in G
    ensures key in labels ==> labels[key] == g
  {
  }

  method Ungroup<V(!new)>(values: map<Text, V>, labels: map<Text, Labels>, ghost G: map<Labels, V>, groups: seq<Text>) returns (r: map<Labels, V>)
    requires Keyed(values, labels, G, groups)
    ensures r == G
  {
    r := map[];
    var todo := values.Keys;
    while todo != {}
      invariant todo <= values.Keys
      invariant forall g :: g in r ==> g in G && r[g] == G[g]
      invariant forall key :: key in values && key !in todo ==> labels[key] in r
      decreases todo
    {
      var key :| key in todo;
      r := r[labels[key] := values[key]];
      todo := todo - {key};
    }
    forall g | g in G ensures g in r { assert labels[KeyOf(g, groups)] in r; }
  }

  ghost predicate AllLabelsOk<V(!new)>(m: map<Labels, V>) {
    forall l :: l in m ==> LabelsOk(l)
  }

  const NO_LABELS := Labels(map[])

  lemma NoGroups(l: Labels)
    ensures GroupOf(l, []) == NO_LABELS
  {
    assert GroupOf(l, []).pairs == map[];
  }

  /** The sum of everything, when there is anything and no grouping. */
  method Total(m: map<Labels, real>) returns (total: real)
    requires m != map[]
    ensures Grouped(m, []) == map[NO_LABELS := total]
  {
    total := 0.0;
    var todo := m.Keys;
    NothingTotals(m);
    while todo != {}
      invariant todo <= m.Keys && Totals(m, todo, total)
      decreases todo
    {
      var l :| l in todo;
      ghost var todo0, total0 := todo, total;
      total := total + m[l];
      todo := todo - {l};
      TotalNext(m, todo0, total0, l, todo, total);
    }
    assert Done(m, {}) == m;
  }

  /** total is the sum of the series no longer in todo. */
  ghost predicate Totals(m: map<Labels, real>, todo: set<Labels>, total: real) {
    var done := Done(m, todo);
    if done == map[] then total == 0.0 else Grouped(done, []) == map[NO_LABELS := total]
  }

  lemma NothingTotals(m: map<Labels, real>)
    ensures Totals(m, m.Keys, 0.0)
  {
    assert Done(m, m.Keys) == map[];
  }

  lemma TotalNext(m: map<Labels, real>, todo: set<Labels>, total: real, l: Labels, todo': set<Labels>, total': real)
    requires l in todo && l in m && Totals(m, todo, total) && todo' == todo - {l} && total' == total + m[l]
    ensures Totals(m, todo', total')
  {
    var done, done' := Done(m, todo), Done(m, todo');
    var G := Grouped(done, []);
    DoneNext(m, todo, l);
    NoGroups(l);
    GroupedAdd(done, l, m[l], [], done', G, NO_LABELS);
    assert done == map[] ==> G == map[];
  }

  method AggregateInstant(m: map<Labels, real>, groups: seq<Text>) returns (r: map<Labels, real>)
    requires AllLabelsOk(m)
    ensures r == Grouped(m, groups)
  {
    if m == map[] {
      return map[];
    }
    if groups == [] {
      var total := Total(m);
      return map[NO_LABELS := total];
    }
    r := AggregateGroups(m, groups);
  }

  /** m without the series still to do. */
  ghost function Done<V(!new)>(m: map<Labels, V>, todo: set<Labels>): map<Labels, V> {
    map l | l in m && l !in todo :: m[l]
  }

  lemma DoneNext<V(!new)>(m: map<Labels, V>, todo: set<Labels>, l: Labels)
    requires l in todo && l in m
    ensures Done(m, todo - {l}) == Done(m, todo)[l := m[l]] && l !in Done(m, todo)
  {
  }

  method AggregateGroups(m: map<Labels, real>, groups: seq<Text>) returns (r: map<Labels, real>)
    requires AllLabelsOk(m)
    ensures r == Grouped(m, groups)
  {
    var values: map<Text, real>, labels: map<Text, Labels> := map[], map[];
    var todo := m.Keys;
    ghost var G: map<Labels, real> := map[];
    assert Done(m, todo) == map[] && Grouped(map[], groups) == map[];
    while todo != {}
      invariant todo <= m.Keys
      invariant SumsDone(G, m, todo, groups) && Keyed(values, labels, G, groups) && AreGroups(G, groups)
      decreases todo
    {
      var l :| l in todo;
      values, labels, G := AddMember(values, labels, G, m, todo, l, groups);
      todo := todo - {l};
    }
    assert Done(m, {}) == m;
    r := Ungroup(values, labels, G, groups);
  }

  method AddMember(values: map<Text, real>, labels: map<Text, Labels>, ghost G: map<Labels, real>, m: map<Labels, real>, ghost todo: set<Labels>, l: Labels, groups: seq<Text>)
    returns (values': map<Text, real>, labels': map<Text, Labels>, ghost G': map<Labels, real>)
    requires l in todo && l in m && LabelsOk(l)
    requires SumsDone(G, m, todo, groups) && Keyed(values, labels, G, groups) && AreGroups(G, groups)
    ensures SumsDone(G', m, todo - {l}, groups) && Keyed(values', labels', G', groups) && AreGroups(G', groups)
  {
    var key := GroupKey(l, groups);
    var g := GroupOf(l, groups);
    KeyIsGroups(G, groups, l);
    values', labels', G' := AddValue(values, labels, G, groups, key, g, m[l]);
    GroupedDone(G, G', m, todo, l, g, groups);
  }

  ghost predicate SumsDone(G: map<Labels, real>, m: map<Labels, real>, todo: set<Labels>, groups: seq<Text>) {
    G == Grouped(Done(m, todo), groups)
  }

  lemma GroupedDone(G: map<Labels, real>, G': map<Labels, real>, m: map<Labels, real>, todo: set<Labels>, l: Labels, g: Labels, groups: seq<Text>)
    requires l in todo && l in m && SumsDone(G, m, todo, groups)
    requires g == GroupOf(l, groups) && G' == G[g := Or0(G, g) + m[l]]
    ensures SumsDone(G', m, todo - {l}, groups)
  {
    DoneNext(m, todo, l);
    GroupedAdd(Done(m, todo), l, m[l], groups, Done(m, todo - {l}), G, g);
  }

  /** One series' value added under its group's key. */
  method AddValue(values: map<Text, real>, labels: map<Text, Labels>, ghost G: map<Labels, real>, groups: seq<Text>, key: Text, g: Labels, v: real)
    returns (values': map<Text, real>, labels': map<Text, Labels>, ghost G': map<Labels, real>)
    requires Keyed(values, labels, G, groups) && AreGroups(G, groups) && IsKey(G, groups, key, g)
    ensures G' == G[g := Or0(G, g) + v]
    ensures Keyed(values', labels', G', groups) && AreGroups(G', groups)
  {
    KeyedGet(values, labels, G, groups, key, g);
    var sum := (if key in values then values[key] else 0.0) + v;
    labels' := SetOnce(labels, key, g);
    values' := values[key := sum];
    G' := G[g := sum];
    KeyedSet(values, labels, G, groups, key, g, sum, values', labels', G');
    GroupsSet(G, groups, g, sum, G');
  }

  /** key is the key of group g, and of no other group. */
  ghost predicate IsKey<V(!new)>(G: map<Labels, V>, groups: seq<Text>, key: Text, g: Labels) {
    && KeyOf(g, groups) == key && GroupOf(g, groups) == g && LabelsOk(g)
    && forall h :: h in G ==> (KeyOf(h, groups) == key <==> h == g)
  }

  /** groupLabels is filled at a key's first series; later ones have the same group. */
  function SetOnce(labels: map<Text, Labels>, key: Text, g: Labels): (r: map<Text, Labels>)
    requires key in labels ==> labels[key] == g
    ensures r == labels[key := g]
  {
    if key in labels then labels else labels[key := g]
  }

  lemma GroupsSet<V(!new)>(G: map<Labels, V>, groups: seq<Text>, g: Labels, v: V, G': map<Labels, V>)
    requires AreGroups(G, groups) && GroupOf(g, groups) == g && LabelsOk(g) && G' == G[g := v]
    ensures AreGroups(G', groups)
  {
  }

  // ---- range results ----

  type RangeResult = map<Labels, map<int, real>>

  /** A range result read at one tick. */
  function AtTick(r: RangeResult, t: int): map<Labels, real> {
    map l | l in r && t in r[l] :: r[l][t]
  }

  /** A series' points added to its group's, tick by tick. */
  function AddTicks(a: map<int, real>, b: map<int, real>): map<int, real> {
    map t | t in a.Keys + b.Keys :: Or0(a, t) + Or0(b, t)
  }

  function OrEmpty(T: RangeResult, g: Labels): map<int, real> { if g in T then T[g] else map[] }

  lemma AtTickNew(done: RangeResult, l: Labels, points: map<int, real>, t: int, done': RangeResult)
    requires l !in done && done' == done[l := points]
    ensures AtTick(done', t) == if t in points then AtTick(done, t)[l := points[t]] else AtTick(done, t)
  {
  }

  lemma AtTickAdd(T: RangeResult, g: Labels, points: map<int, real>, t: int, T': RangeResult)
    requires T' == T[g := AddTicks(OrEmpty(T, g), points)]
    ensures AtTick(T', t)
      == if t in points then AtTick(T, t)[g := Or0(AtTick(T, t), g) + points[t]] else AtTick(T, t)
  {
    var a := OrEmpty(T, g);
    assert t in AddTicks(a, points) <==> t in a || t in points;
    assert t in a <==> g in AtTick(T, t);
  }

  /** Adding a series to its group's points adds its value at each of its ticks. */
  lemma AddAtTick(done: RangeResult, T: RangeResult, l: Labels, points: map<int, real>, groups: seq<Text>, t: int,
                  done': RangeResult, T': RangeResult, g: Labels)
    requires l !in done && AtTick(T, t) == Grouped(AtTick(done, t), groups)
    requires g == GroupOf(l, groups) && done' == done[l := points] && T' == T[g := AddTicks(OrEmpty(T, g), points)]
    ensures AtTick(T', t) == Grouped(AtTick(done', t), groups)
  {
    var D, D', A, A' := AtTick(done, t), AtTick(done', t), AtTick(T, t), AtTick(T', t);
    AtTickNew(done, l, points, t, done');
    AtTickAdd(T, g, points, t, T');
    SumsFollow(D, D', A, A', l, points, groups, t, g);
  }

  lemma SumsFollow(D: map<Labels, real>, D': map<Labels, real>, A: map<Labels, real>, A': map<Labels, real>,
                   l: Labels, points: map<int, real>, groups: seq<Text>, t: int, g: Labels)
    requires l !in D && A == Grouped(D, groups) && g == GroupOf(l, groups)
    requires D' == if t in points then D[l := points[t]] else D
    requires A' == if t in points then A[g := Or0(A, g) + points[t]] else A
    ensures A' == Grouped(D', groups)
  {
    if t in points { GroupedAdd(D, l, points[t], groups, D', A, g); }
  }

  /** T is done, aggregated, at every tick. */
  ghost predicate Aggregates(T: RangeResult, done: RangeResult, groups: seq<Text>) {
    forall t :: AtTick(T, t) == Grouped(AtTick(done, t), groups)
  }

  lemma AggregatesAdd(done: RangeResult, T: RangeResult, l: Labels, points: map<int, real>, groups: seq<Text>)
    requires l !in done && Aggregates(T, done, groups)
    ensures Aggregates(T[GroupOf(l, groups) := AddTicks(OrEmpty(T, GroupOf(l, groups)), points)], done[l := points], groups)
  {
    var g := GroupOf(l, groups);
    var T', done' := T[g := AddTicks(OrEmpty(T, g), points)], done[l := points];
    forall t: int {:trigger AtTick(T', t)} ensures AtTick(T', t) == Grouped(AtTick(done', t), groups) {
      AddAtTick(done, T, l, points, groups, t, done', T', g);
    }
  }

  ghost predicate NoneEmpty(r: RangeResult) {
    forall l :: l in r ==> r[l] != map[]
  }

  method AggregateRange(rs: RangeResult, groups: seq<Text>) returns (r: RangeResult)
    requires AllLabelsOk(rs) && NoneEmpty(rs)
    ensures Aggregates(r, rs, groups)
    ensures NoneEmpty(r) && AllLabelsOk(r)
  {
    var ticks: map<Text, map<int, real>>, labels: map<Text, Labels> := map[], map[];
    var todo := rs.Keys;
    ghost var T: RangeResult := map[];
    assert Done(rs, todo) == map[];
    NothingAggregates(groups);
    while todo != {}
      invariant todo <= rs.Keys
      invariant Aggregates(T, Done(rs, todo), groups) && Keyed(ticks, labels, T, groups) && AreGroups(T, groups) && NoneEmpty(T)
      decreases todo
    {
      var l :| l in todo;
      DoneNext(rs, todo, l);
      var key := GroupKey(l, groups);
      KeyIsGroups(T, groups, l);
      AggregatesAdd(Done(rs, todo), T, l, rs[l], groups);
      ticks, labels, T := AddSeries(ticks, labels, T, groups, key, GroupOf(l, groups), rs[l]);
      todo := todo - {l};
    }
    assert Done(rs, {}) == rs;
    r := Ungroup(ticks, labels, T, groups);
  }

  lemma NothingAggregates(groups: seq<Text>)
    ensures Aggregates(map[], map[], groups)
  {
    forall t: int {:trigger AtTick(map[], t)} ensures AtTick(map[], t) == Grouped(AtTick(map[], t), groups) {
      assert AtTick(map[], t) == map[];
      assert Grouped(map[], groups) == map[];
    }
  }

  /** One series' points added under its group's key. */
  method AddSeries(ticks: map<Text, map<int, real>>, labels: map<Text, Labels>, ghost T: RangeResult, groups: seq<Text>, key: Text, g: Labels, points: map<int, real>)
    returns (ticks': map<Text, map<int, real>>, labels': map<Text, Labels>, ghost T': RangeResult)
    requires Keyed(ticks, labels, T, groups) && AreGroups(T, groups) && IsKey(T, groups, key, g) && NoneEmpty(T) && points != map[]
    ensures T' == T[g := AddTicks(OrEmpty(T, g), points)]
    ensures Keyed(ticks', labels', T', groups) && AreGroups(T', groups) && NoneEmpty(T')
  {
    KeyedGet(ticks, labels, T, groups, key, g);
    var sum := AddTicks(if key in ticks then ticks[key] else map[], points);
    SomePoint(OrEmpty(T, g), points);
    labels' := SetOnce(labels, key, g);
    ticks' := ticks[key := sum];
    T' := T[g := sum];
    KeyedSet(ticks, labels, T, groups, key, g, sum, ticks', labels', T');
    GroupsSet(T, groups, g, sum, T');
    NoneEmptySet(T, g, sum, T');
  }

  lemma NoneEmptySet(T: RangeResult, g: Labels, sum: map<int, real>, T': RangeResult)
    requires NoneEmpty(T) && sum != map[] && T' == T[g := sum]
    ensures NoneEmpty(T')
  {
  }

  lemma SomePoint(a: map<int, real>, b: map<int, real>)
    requires b != map[]
    ensures AddTicks(a, b) != map[]
  {
    assert AddTicks(a, b).Keys == a.Keys + b.Keys;
    assert b.Keys <= AddTicks(a, b).Keys;
  }

  // ---- one series over the ticks ----

  /** The rate at every tick that has one. */
  function RatePoints(xs: seq<Pt>, w: int, ticks: set<int>): map<int, real>
    requires 0 < w <= MAX_INT64 && forall t :: t in ticks ==> Int64(t)
  {
    map t | t in ticks && RateAt(xs, w, t).Some? :: RateAt(xs, w, t).value
  }

  /** The latest value at every tick that has one. */
  function LatestPoints(xs: seq<Pt>, ticks: set<int>): map<int, real> {
    map t | t in ticks && LatestAt(xs, t).Some? :: LatestAt(xs, t).value.v
  }

  lemma TicksInt64(start: int, end: int, step: int)
    requires step > 0 && Int64(start) && Int64(end)
    ensures forall t :: t in Ticks(start, end, step) ==> Int64(t)
  {
    TicksFrom(start, end, step);
  }

  /** The condition the tick loops need and no more: where the tick after the last one
      fits, the loop stops there; where it does not, the int64 sum wraps to one at or
      before end and the loop goes on. */
  lemma LoopStopsIff(start: int, end: int, step: int)
    requires Int64(start) && Int64(end) && start <= end && 0 < step <= MAX_INT64
    ensures var last := PastLast(start, end, step) - step;
      start <= last <= end && (Wrap64(last + step) > end <==> PastLast(start, end, step) <= MAX_INT64)
  {
    LastTickIs(start, end, step);
    PastLastIsPast(start, end, step);
    var past := PastLast(start, end, step);
    if past <= MAX_INT64 { assert (past - MIN_INT64) % 0x1_0000_0000_0000_0000 == past - MIN_INT64; }
    if past > MAX_INT64 { assert (past - MIN_INT64) % 0x1_0000_0000_0000_0000 == past - MIN_INT64 - 0x1_0000_0000_0000_0000; }
  }

  /** The window between the pointers is the tick's, so its ends give the tick's rate. */
  lemma PointersFrame(xs: seq<Pt>, samples: seq<Pt>, w: int, start: int, end: int, t: int, lo: nat, hi: nat)
    requires SamplesOk(xs) && 0 < w <= MAX_INT64 && Int64(start) && Int64(end) && start <= t <= end
    requires samples == InWindow(xs, SaturatingSub(start, w), end) && Ascending(samples)
    requires lo <= hi <= |samples|
    requires (forall k :: 0 <= k < hi ==> samples[k].ts <= t) && (hi < |samples| ==> samples[hi].ts > t)
    requires (forall k :: 0 <= k < lo ==> samples[k].ts < SaturatingSub(t, w)) && (lo < hi ==> samples[lo].ts >= SaturatingSub(t, w))
    ensures RateAt(xs, w, t) == if hi - lo < 2 then None else Some(PerSecond(samples[lo], samples[hi - 1], w))
  {
    WindowOfWindow(xs, SaturatingSub(start, w), end, SaturatingSub(t, w), t);
    FrameIsSlice(samples, SaturatingSub(t, w), t, lo, hi);
    SliceRate(xs, w, t, samples[lo..hi]);
  }

  lemma FrameIsSlice(samples: seq<Pt>, a: int, t: int, lo: nat, hi: nat)
    requires Ascending(samples) && lo <= hi <= |samples|
    requires (forall k :: 0 <= k < hi ==> samples[k].ts <= t) && (hi < |samples| ==> samples[hi].ts > t)
    requires (forall k :: 0 <= k < lo ==> samples[k].ts < a) && (lo < hi ==> samples[lo].ts >= a)
    ensures InWindow(samples, a, t) == samples[lo..hi]
  {
    forall k | lo <= k < hi ensures samples[k].ts >= a { assert k == lo || samples[lo].ts <= samples[k].ts; }
    forall k | hi <= k < |samples| ensures samples[k].ts > t { assert k == hi || samples[hi].ts <= samples[k].ts; }
    WindowIsSlice(samples, a, t, lo, hi);
  }

  lemma SliceRate(xs: seq<Pt>, w: int, t: int, win: seq<Pt>)
    requires 0 < w <= MAX_INT64 && Int64(t) && win == InWindow(xs, SaturatingSub(t, w), t)
    ensures RateAt(xs, w, t) == if |win| < 2 then None else Some(PerSecond(win[0], win[|win| - 1], w))
  {
  }

  /** Moves both pointers to a tick. */
  method Advance(samples: seq<Pt>, w: int, t: int, lo0: nat, hi0: nat) returns (lo: nat, hi: nat)
    requires Ascending(samples) && 0 < w <= MAX_INT64 && Int64(t) && Behind(samples, w, t, lo0, hi0)
    ensures lo <= hi <= |samples|
    ensures (forall k :: 0 <= k < hi ==> samples[k].ts <= t) && (hi < |samples| ==> samples[hi].ts > t)
    ensures (forall k :: 0 <= k < lo ==> samples[k].ts < SaturatingSub(t, w)) && (lo < hi ==> samples[lo].ts >= SaturatingSub(t, w))
  {
    lo, hi := lo0, hi0;
    while hi < |samples| && samples[hi].ts <= t
      invariant lo <= hi <= |samples| && forall k :: 0 <= k < hi ==> samples[k].ts <= t
    {
      hi := hi + 1;
    }
    while lo < hi && samples[lo].ts < SaturatingSub(t, w)
      invariant lo <= hi && forall k :: 0 <= k < lo ==> samples[k].ts < SaturatingSub(t, w)
    {
      lo := lo + 1;
    }
  }

  /** The ticks before t are done, t is the next one. */
  ghost predicate AtNext(all: set<int>, done: set<int>, t: int, end: int, step: int) {
    step > 0 && all == done + Ticks(t, end, step) && forall u :: u in done ==> Int64(u) && u < t
  }

  lemma NextDone(all: set<int>, done: set<int>, t: int, end: int, step: int)
    requires AtNext(all, done, t, end, step) && t <= end && Int64(t)
    ensures AtNext(all, done + {t}, t + step, end, step)
  {
  }

  /** The pointers never pass a window that starts at t or later. */
  predicate Behind(samples: seq<Pt>, w: int, t: int, lo: int, hi: int)
    requires 0 < w <= MAX_INT64 && Int64(t)
  {
    && 0 <= lo <= hi <= |samples|
    && (forall k :: 0 <= k < hi ==> samples[k].ts <= t) && (forall k :: 0 <= k < lo ==> samples[k].ts < SaturatingSub(t, w))
  }

  /** rateRange on one series. */
  method RateSeries(samples: seq<Pt>, ghost xs: seq<Pt>, w: int, start: int, end: int, step: int) returns (points: map<int, real>)
    requires SamplesOk(xs) && 0 < w <= MAX_INT64 && Int64(start) && Int64(end) && step > 0 && PastLast(start, end, step) <= MAX_INT64
    requires samples == InWindow(xs, SaturatingSub(start, w), end)
    requires forall t :: t in Ticks(start, end, step) ==> Int64(t)
    ensures points == RatePoints(xs, w, Ticks(start, end, step))
  {
    WindowElements(xs, SaturatingSub(start, w), end);
    points := map[];
    var lo, hi := 0, 0;
    var t := start;
    ghost var done: set<int> := {};
    while t <= end
      invariant Int64(t) && start <= t && Behind(samples, w, t, lo, hi)
      invariant AtNext(Ticks(start, end, step), done, t, end, step)
      invariant PastLast(t, end, step) == PastLast(start, end, step)
      invariant points == RatePoints(xs, w, done)
      decreases end - t
    {
      lo, hi := Advance(samples, w, t, lo, hi);
      PointersFrame(xs, samples, w, start, end, t, lo, hi);
      RatePointsNext(xs, w, done, t);
      if hi - lo >= 2 {
        points := points[t := PerSecond(samples[lo], samples[hi - 1], w)];
      }
      NextDone(Ticks(start, end, step), done, t, end, step);
      done := done + {t};
      PastLastIsPast(t + step, end, step);
      t := t + step;
    }
  }

  lemma RatePointsNext(xs: seq<Pt>, w: int, done: set<int>, t: int)
    requires 0 < w <= MAX_INT64 && Int64(t) && forall u :: u in done ==> Int64(u) && u < t
    ensures RatePoints(xs, w, done + {t}) ==
      if RateAt(xs, w, t).Some? then RatePoints(xs, w, done)[t := RateAt(xs, w, t).value] else RatePoints(xs, w, done)
  {
  }

  lemma LatestPointsNext(xs: seq<Pt>, done: set<int>, t: int)
    requires t !in done
    ensures LatestPoints(xs, done + {t}) ==
      if LatestAt(xs, t).Some? then LatestPoints(xs, done)[t := LatestAt(xs, t).value.v] else LatestPoints(xs, done)
  {
  }

  /** cur is the latest of the samples before next, or the anchor. */
  predicate Latest(sd: SeriesData, t: int, cur: Option<Pt>, next: int) {
    && 0 <= next <= |sd.samples|
    && cur == (if next == 0 then sd.anchor else Some(sd.samples[next - 1]))
    && forall k :: 0 <= k < next ==> sd.samples[k].ts <= t
  }

  method AdvanceLatest(sd: SeriesData, ghost xs: seq<Pt>, start: int, end: int, t: int, cur0: Option<Pt>, next0: int) returns (cur: Option<Pt>, next: int)
    requires SamplesOk(xs) && start <= t <= end && sd == SelectOne(xs, start, end, true) && Latest(sd, t, cur0, next0)
    ensures Latest(sd, t, cur, next) && cur == LatestAt(xs, t)
  {
    cur, next := cur0, next0;
    while next < |sd.samples| && sd.samples[next].ts <= t
      invariant Latest(sd, t, cur, next)
    {
      cur := Some(sd.samples[next]);
      next := next + 1;
    }
    WindowElements(xs, start, end);
    LatestIsBefore(sd.samples, t, next);
    LatestFromSelect(xs, start, end, t);
  }

  /** RangeQueryContext on one series: ticks ascend, so next only moves forward. */
  method RangeSeries(sd: SeriesData, ghost xs: seq<Pt>, start: int, end: int, step: int) returns (points: map<int, real>)
    requires SamplesOk(xs) && Int64(start) && Int64(end) && start <= end && step > 0 && PastLast(start, end, step) <= MAX_INT64
    requires sd == SelectOne(xs, start, end, true)
    ensures points == LatestPoints(xs, Ticks(start, end, step))
  {
    points := map[];
    var cur := sd.anchor;
    var next := 0;
    var t := start;
    ghost var done: set<int> := {};
    while t <= end
      invariant Int64(t) && start <= t && Latest(sd, t, cur, next)
      invariant AtNext(Ticks(start, end, step), done, t, end, step)
      invariant PastLast(t, end, step) == PastLast(start, end, step)
      invariant points == LatestPoints(xs, done)
      decreases end - t
    {
      cur, next := AdvanceLatest(sd, xs, start, end, t, cur, next);
      LatestPointsNext(xs, done, t);
      if cur.Some? {
        points := points[t := cur.value.v];
      }
      NextDone(Ticks(start, end, step), done, t, end, step);
      done := done + {t};
      PastLastIsPast(t + step, end, step);
      t := t + step;
    }
  }

  // ---- whole expressions ----

  lemma GroupedLabelsOk(m: map<Labels, real>, groups: seq<Text>)
    requires AllLabelsOk(m)
    ensures AllLabelsOk(Grouped(m, groups))
  {
    forall g | g in Grouped(m, groups) ensures LabelsOk(g) {
      var l :| l in m && GroupOf(l, groups) == g;
      KeyOfGroup(l, groups);
    }
  }

  lemma {:induction false} AtLabelsOk(src: Source, e: Expr, t: int)
    requires SourceOk(src) && ExprOk(e) && Int64(t)
    ensures AllLabelsOk(At(src, e, t))
  {
    match e
    case Sum(inner, groups) =>
      AtLabelsOk(src, inner, t);
      GroupedLabelsOk(At(src, inner, t), groups);
    case Selector(sel) => assert SeriesOk(Matching(src, sel));
    case Rate(sel, _) => assert SeriesOk(Matching(src, sel));
    case _ =>
  }

  /** EvalInstantContext computes the reference value. */
  method EvalInstant(src: Source, e: Expr, t: int) returns (r: map<Labels, real>)
    requires SourceOk(src) && ExprOk(e) && Int64(t)
    ensures r == At(src, e, t)
  {
    match e
    case Selector(sel) => r := InstantQuery(src, sel, t);
    case Rate(sel, w) => r := RateInstant(src, sel, w, t);
    case Sum(inner, groups) =>
      var m := EvalInstant(src, inner, t);
      AtLabelsOk(src, inner, t);
      r := AggregateInstant(m, groups);
    case Scalar(v) => r := map[NO_LABELS := v];
  }

  /** r holds, at each tick, exactly what e is worth there, and nothing else. */
  ghost predicate Pointwise(r: RangeResult, src: Source, e: Expr, ticks: set<int>)
    requires ExprOk(e)
  {
    && NoneEmpty(r)
    && (forall t :: t in ticks && Int64(t) ==> AtTick(r, t) == At(src, e, t))
    && (forall t :: t !in ticks && Int64(t) ==> AtTick(r, t) == map[])
  }

  method RangeQuery(src: Source, sel: nat, start: int, end: int, step: int) returns (r: RangeResult)
    requires SourceOk(src) && Int64(start) && Int64(end) && start <= end && step > 0 && PastLast(start, end, step) <= MAX_INT64
    ensures Pointwise(r, src, Selector(sel), Ticks(start, end, step)) && AllLabelsOk(r)
  {
    var series := Select(src, sel, start, end, true);
    ghost var all, ticks := Matching(src, sel), Ticks(start, end, step);
    assert SeriesOk(all);
    r := map[];
    var todo := series.Keys;
    while todo != {}
      invariant todo <= series.Keys == all.Keys
      invariant r == Kept(LatestOf(all, todo, ticks))
      decreases todo
    {
      var l :| l in todo;
      var points := RangeSeries(series[l], all[l], start, end, step);
      assert LatestOf(all, todo - {l}, ticks) == LatestOf(all, todo, ticks)[l := points];
      KeepNext(LatestOf(all, todo, ticks), l, points);
      if points != map[] { r := r[l := points]; }
      todo := todo - {l};
    }
    SelectorPointwise(r, src, sel, ticks);
  }

  function LatestOf(all: map<Labels, seq<Pt>>, todo: set<Labels>, ticks: set<int>): RangeResult {
    map l | l in all && l !in todo :: LatestPoints(all[l], ticks)
  }

  function RatesOf(all: map<Labels, seq<Pt>>, todo: set<Labels>, w: int, ticks: set<int>): RangeResult
    requires 0 < w <= MAX_INT64 && forall t :: t in ticks ==> Int64(t)
  {
    map l | l in all && l !in todo :: RatePoints(all[l], w, ticks)
  }

  lemma KeepNext(r: RangeResult, l: Labels, points: map<int, real>)
    requires l !in r
    ensures Kept(r[l := points]) == if points == map[] then Kept(r) else Kept(r)[l := points]
  {
  }

  /** Series with no point are omitted. */
  function Kept(r: RangeResult): RangeResult {
    map l | l in r && r[l] != map[] :: r[l]
  }

  lemma SelectorPointwise(r: RangeResult, src: Source, sel: nat, ticks: set<int>)
    requires SourceOk(src) && r == Kept(LatestOf(Matching(src, sel), {}, ticks))
    ensures Pointwise(r, src, Selector(sel), ticks) && AllLabelsOk(r)
  {
    var all := Matching(src, sel);
    assert SeriesOk(all);
    forall t: int | Int64(t) ensures AtTick(r, t) == if t in ticks then At(src, Selector(sel), t) else map[] {
      forall l ensures l in AtTick(r, t) <==> l in all && t in LatestPoints(all[l], ticks) {
      }
    }
  }

  method RateRange(src: Source, sel: nat, w: int, start: int, end: int, step: int) returns (r: RangeResult)
    requires SourceOk(src) && Int64(start) && Int64(end) && start <= end && step > 0 && PastLast(start, end, step) <= MAX_INT64 && 0 < w <= MAX_INT64
    ensures Pointwise(r, src, Rate(sel, w), Ticks(start, end, step)) && AllLabelsOk(r)
  {
    var series := Select(src, sel, SaturatingSub(start, w), end, false);
    ghost var all, ticks := Matching(src, sel), Ticks(start, end, step);
    TicksInt64(start, end, step);
    assert SeriesOk(all);
    r := map[];
    var todo := series.Keys;
    while todo != {}
      invariant todo <= series.Keys == all.Keys
      invariant r == Kept(RatesOf(all, todo, w, ticks))
      decreases todo
    {
      var l :| l in todo;
      var points := RateSeries(series[l].samples, all[l], w, start, end, step);
      assert RatesOf(all, todo - {l}, w, ticks) == RatesOf(all, todo, w, ticks)[l := points];
      KeepNext(RatesOf(all, todo, w, ticks), l, points);
      if points != map[] { r := r[l := points]; }
      todo := todo - {l};
    }
    RatePointwise(r, src, sel, w, ticks);
  }

  lemma RatePointwise(r: RangeResult, src: Source, sel: nat, w: int, ticks: set<int>)
    requires SourceOk(src) && 0 < w <= MAX_INT64 && forall t :: t in ticks ==> Int64(t)
    requires r == Kept(RatesOf(Matching(src, sel), {}, w, ticks))
    ensures Pointwise(r, src, Rate(sel, w), ticks) && AllLabelsOk(r)
  {
    var all := Matching(src, sel);
    assert SeriesOk(all);
    forall t: int ensures AtTick(r, t) == if t in ticks then At(src, Rate(sel, w), t) else map[] {
      forall l ensures l in AtTick(r, t) <==> l in all && t in RatePoints(all[l], w, ticks) {
      }
    }
  }

  lemma SumPointwise(r: RangeResult, inner: RangeResult, src: Source, e: Expr, groups: seq<Text>, ticks: set<int>)
    requires ExprOk(e) && Pointwise(inner, src, e, ticks) && Aggregates(r, inner, groups) && NoneEmpty(r)
    ensures Pointwise(r, src, Sum(e, groups), ticks)
  {
    assert Grouped(map[], groups) == map[];
  }

  method ScalarPoints(v: real, start: int, end: int, step: int) returns (points: map<int, real>)
    requires Int64(start) && Int64(end) && start <= end && step > 0 && PastLast(start, end, step) <= MAX_INT64
    ensures points.Keys == Ticks(start, end, step) && forall t :: t in points ==> points[t] == v
  {
    points := map[];
    var t := start;
    ghost var done: set<int> := {};
    while t <= end
      invariant Int64(t) && AtNext(Ticks(start, end, step), done, t, end, step)
      invariant PastLast(t, end, step) == PastLast(start, end, step)
      invariant points.Keys == done && forall u :: u in points ==> points[u] == v
      decreases end - t
    {
      NextDone(Ticks(start, end, step), done, t, end, step);
      points := points[t := v];
      done := done + {t};
      PastLastIsPast(t + step, end, step);
      t := t + step;
    }
  }

  datatype RangeAnswer = BadRequest | Answer(series: RangeResult)

  /** EvalRangeContext is pointwise EvalInstantContext, for every expression: a series
      has a point at a tick exactly when it has an instant value there, and the same. */
  method EvalRange(src: Source, e: Expr, start: int, end: int, step: int) returns (a: RangeAnswer)
    requires SourceOk(src) && ExprOk(e) && Int64(start) && Int64(end) && Int64(step)
    requires step > 0 && start <= end ==> PastLast(start, end, step) <= MAX_INT64
    ensures a.BadRequest? <==> step <= 0 || end < start
    ensures a.Answer? ==> Pointwise(a.series, src, e, Ticks(start, end, step)) && AllLabelsOk(a.series)
    decreases e
  {
    if step <= 0 || end < start { return BadRequest; }
    match e
    case Selector(sel) =>
      var r := RangeQuery(src, sel, start, end, step);
      a := Answer(r);
    case Rate(sel, w) =>
      var r := RateRange(src, sel, w, start, end, step);
      a := Answer(r);
    case Sum(inner, groups) =>
      var i := EvalRange(src, inner, start, end, step);
      var r := AggregateRange(i.series, groups);
      SumPointwise(r, i.series, src, inner, groups, Ticks(start, end, step));
      a := Answer(r);
    case Scalar(v) =>
      var points := ScalarPoints(v, start, end, step);
      ScalarPointwise(points, src, v, Ticks(start, end, step), start);
      a := Answer(map[NO_LABELS := points]);
  }

  lemma ScalarPointwise(points: map<int, real>, src: Source, v: real, ticks: set<int>, start: int)
    requires points.Keys == ticks && start in ticks && forall t :: t in points ==> points[t] == v
    ensures Pointwise(map[NO_LABELS := points], src, Scalar(v), ticks)
  {
    var r: RangeResult := map[NO_LABELS := points];
    assert points != map[] by { assert start in points; }
    forall t: int ensures AtTick(r, t) == if t in ticks then map[NO_LABELS := v] else map[] {
    }
  }
}
