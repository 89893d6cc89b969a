/** The whole log-metric query: what each range operation counts, which streams share an
    output series, and that the single pass over what the source reads gives every series
    its value at every tick. */
module LogMetrics {
  import opened BitStreams
  import opened Clock
  import opened Chunks
  import opened Sets
  import opened Varints
  import opened Postings
  import Eval
  import LogWindow

  type Labels = map<Text, Text>

  datatype LogEntry = LogEntry(ts: int, line: Text)

  datatype Stream = Stream(labels: Labels, entries: seq<LogEntry>)

  datatype Op = CountOverTime | Rate | BytesOverTime | BytesRate

  /** No aggregation, or a sum by the names given, or without them. */
  datatype Agg = NoAgg | Sum(names: seq<Text>, without: bool)

  datatype Query = Query(op: Op, range: int, drop: seq<Text>, agg: Agg)

  // ---- the definition ----

  /** The entries in (lo, hi] that pass the line filters. */
  function InWindow(es: seq<LogEntry>, keep: Text -> bool, lo: int, hi: int): seq<LogEntry> {
    if es == [] then []
    else
      var e := es[|es| - 1];
      InWindow(es[..|es| - 1], keep, lo, hi) + (if keep(e.line) && lo < e.ts <= hi then [e] else [])
  }

  function WeightOf(e: LogEntry, op: Op): nat { if op.BytesOverTime? || op.BytesRate? then |e.line| else 1 }

  function Total(es: seq<LogEntry>, op: Op): nat {
    if es == [] then 0 else Total(es[..|es| - 1], op) + WeightOf(es[|es| - 1], op)
  }

  /** The rates are per second, and the range is in nanoseconds. */
  function Scale(op: Op, range: int): real
    requires range > 0
  {
    if op.Rate? || op.BytesRate? then 1_000_000_000.0 / (range as real) else 1.0
  }

  /** What a stream's entries are worth at t. */
  function Worth(es: seq<LogEntry>, keep: Text -> bool, q: Query, t: int): real
    requires Int64(t) && 0 < q.range <= MAX_INT64
  {
    Times(Scale(q.op, q.range), Total(InWindow(es, keep, LogWindow.WindowStart(t, q.range), t), q.op))
  }

  function Times(scale: real, n: int): real { scale * (n as real) }

  /** The labels a stream's series keeps: dropped names first, then the grouping. A sum
      that names nothing puts all in one series; an empty value counts as absent. */
  function OutLabels(l: Labels, q: Query): Labels {
    var m := map n | n in l && n !in q.drop :: l[n];
    match q.agg
    case NoAgg => m
    case Sum(names, without) =>
      if names == [] then map[]
      else if without then map n | n in m && n !in names && m[n] != [] :: m[n]
      else map n | n in m && n in names && m[n] != [] :: m[n]
  }

  predicate Feeds(s: Stream, q: Query, g: Labels) { OutLabels(s.labels, q) == g }

  /** Some stream of series g has an entry in the window that ends at t. */
  ghost predicate HasPoint(ss: seq<Stream>, keep: Text -> bool, q: Query, g: Labels, t: int)
    requires Int64(t) && 0 < q.range <= MAX_INT64
  {
    exists i :: 0 <= i < |ss| && Feeds(ss[i], q, g) && InWindow(ss[i].entries, keep, LogWindow.WindowStart(t, q.range), t) != []
  }

  /** The value of series g at t: the worth of all its streams. */
  ghost function ValueAt(ss: seq<Stream>, keep: Text -> bool, q: Query, g: Labels, t: int): real
    requires Int64(t) && 0 < q.range <= MAX_INT64
  {
    if ss == [] then 0.0
    else
      var s := ss[|ss| - 1];
      ValueAt(ss[..|ss| - 1], keep, q, g, t) + (if Feeds(s, q, g) then Worth(s.entries, keep, q, t) else 0.0)
  }

  // ---- what the operations mean ----

  lemma {:induction false} CountsEntries(es: seq<LogEntry>, op: Op)
    ensures op.CountOverTime? || op.Rate? ==> Total(es, op) == |es|
    ensures Total(es, BytesRate) == Total(es, BytesOverTime)
  {
    if es != [] { CountsEntries(es[..|es| - 1], op); }
  }

  /** v is as many per second as make w in secs seconds. */
  predicate PerSecond(v: real, w: real, secs: real) { v * secs == w }

  /** A rate, over its range in seconds, is the count; and bytes alike. */
  lemma RateTimesSeconds(ss: seq<Stream>, keep: Text -> bool, q: Query, over: Query, g: Labels, t: int, secs: real)
    requires Int64(t) && 0 < q.range <= MAX_INT64 && (q.op.Rate? || q.op.BytesRate?)
    requires over == q.(op := if q.op.Rate? then CountOverTime else BytesOverTime) && secs == q.range as real / 1_000_000_000.0
    ensures PerSecond(ValueAt(ss, keep, q, g, t), ValueAt(ss, keep, over, g, t), secs)
  {
    forall i | 0 <= i < |ss| ensures PerSecond(Worth(ss[i].entries, keep, q, t), Worth(ss[i].entries, keep, over, t), secs) {
      WorthTimesSeconds(ss[i].entries, keep, q, over, t, secs, Worth(ss[i].entries, keep, q, t), Worth(ss[i].entries, keep, over, t));
    }
    SumsPerSecond(ss, keep, q, over, g, t, secs);
  }

  lemma {:induction false} SumsPerSecond(ss: seq<Stream>, keep: Text -> bool, q: Query, over: Query, g: Labels, t: int, secs: real)
    requires Int64(t) && 0 < q.range <= MAX_INT64 && over == q.(op := over.op)
    requires forall i :: 0 <= i < |ss| ==> PerSecond(Worth(ss[i].entries, keep, q, t), Worth(ss[i].entries, keep, over, t), secs)
    ensures PerSecond(ValueAt(ss, keep, q, g, t), ValueAt(ss, keep, over, g, t), secs)
  {
    if ss != [] {
      var p, s := ss[..|ss| - 1], ss[|ss| - 1];
      SumsPerSecond(p, keep, q, over, g, t, secs);
      assert Feeds(s, over, g) == Feeds(s, q, g);
      AddsPerSecond(ValueAt(p, keep, q, g, t), ValueAt(p, keep, over, g, t), Worth(s.entries, keep, q, t), Worth(s.entries, keep, over, t), secs,
        Feeds(s, q, g), ValueAt(ss, keep, q, g, t), ValueAt(ss, keep, over, g, t));
    }
  }

  lemma AddsPerSecond(a: real, b: real, v: real, w: real, secs: real, added: bool, a': real, b': real)
    requires PerSecond(a, b, secs) && PerSecond(v, w, secs)
    requires a' == a + (if added then v else 0.0) && b' == b + (if added then w else 0.0)
    ensures PerSecond(a', b', secs)
  {
    if added { assert (a + v) * secs == a * secs + v * secs; }
  }

  lemma WorthTimesSeconds(es: seq<LogEntry>, keep: Text -> bool, q: Query, over: Query, t: int, secs: real, v: real, w: real)
    requires Int64(t) && 0 < q.range <= MAX_INT64 && (q.op.Rate? || q.op.BytesRate?)
    requires over == q.(op := if q.op.Rate? then CountOverTime else BytesOverTime) && secs == q.range as real / 1_000_000_000.0
    requires v == Worth(es, keep, q, t) && w == Worth(es, keep, over, t)
    ensures PerSecond(v, w, secs)
  {
    var win := InWindow(es, keep, LogWindow.WindowStart(t, q.range), t);
    CountsEntries(win, q.op);
    CountsEntries(win, over.op);
    ScaleIsInverse(q.op, q.range, Scale(q.op, q.range), secs);
    TimesPerSecond(Scale(q.op, q.range), Scale(over.op, over.range), Total(win, q.op), secs);
  }

  lemma ScaleIsInverse(op: Op, range: int, k: real, secs: real)
    requires range > 0 && (op.Rate? || op.BytesRate?) && k == Scale(op, range) && secs == range as real / 1_000_000_000.0
    ensures PerSecond(k, 1.0, secs)
  {
    var r := range as real;
    assert k * r == 1_000_000_000.0;
    assert k * secs == k * r / 1_000_000_000.0;
  }

  lemma TimesPerSecond(k: real, one: real, n: int, secs: real)
    requires PerSecond(k, 1.0, secs) && one == 1.0
    ensures PerSecond(Times(k, n), Times(one, n), secs)
  {
    assert Times(k, n) * secs == k * secs * (n as real);
  }

  /** The window holds the passing entries in (lo, hi], each as often as it is stored. */
  lemma {:induction false} WindowHolds(es: seq<LogEntry>, keep: Text -> bool, lo: int, hi: int, e: LogEntry)
    ensures multiset(InWindow(es, keep, lo, hi))[e] == if keep(e.line) && lo < e.ts <= hi then multiset(es)[e] else 0
  {
    if es != [] {
      WindowHolds(es[..|es| - 1], keep, lo, hi, e);
      SplitLast(es);
    }
  }

  /** Entries later than the epoch never meet the clamp: the window is (t - range, t]. */
  lemma {:induction false} StoredWindowIsExact(es: seq<LogEntry>, keep: Text -> bool, t: int, range: int)
    requires Int64(t) && 0 < range <= MAX_INT64 && forall i :: 0 <= i < |es| ==> es[i].ts > 0
    ensures InWindow(es, keep, LogWindow.WindowStart(t, range), t) == InWindow(es, keep, t - range, t)
  {
    if es != [] { StoredWindowIsExact(es[..|es| - 1], keep, t, range); }
  }

  // ---- which streams share a series ----

  function ValueOf(l: Labels, n: Text): Text { if n in l then l[n] else [] }

  /** The streams of a series agree on every label it is grouped by, absent and empty
      being the same, and on the labels they carry where nothing is summed. */
  lemma SameSeriesIff(l: Labels, m: Labels, q: Query)
    ensures OutLabels(l, q) == OutLabels(m, q) <==>
      match q.agg
      case NoAgg => forall n :: n !in q.drop ==> (n in l <==> n in m) && ValueOf(l, n) == ValueOf(m, n)
      case Sum(names, without) => names == [] || forall n :: n !in q.drop && (n in names <==> !without) ==> ValueOf(l, n) == ValueOf(m, n)
  {
    var a, b := OutLabels(l, q), OutLabels(m, q);
    forall n | n !in q.drop && (q.agg.NoAgg? || (q.agg.names != [] && (n in q.agg.names <==> !q.agg.without)))
      ensures ValueOf(a, n) == ValueOf(l, n) && ValueOf(b, n) == ValueOf(m, n)
      ensures q.agg.NoAgg? ==> (n in a <==> n in l) && (n in b <==> n in m)
      ensures q.agg.Sum? ==> (n in a <==> ValueOf(l, n) != []) && (n in b <==> ValueOf(m, n) != [])
    {
    }
    if a.Keys == b.Keys && forall n :: n in a ==> a[n] == b[n] { SameMap(a, b); }
  }

  // ---- the group key ----

  type Pairs = seq<(Text, Text)>

  /** Names and values, each behind its length. */
  function KeyOf(ps: Pairs): Text {
    if ps == [] then [] else BE(|ps[0].0|, 4) + ps[0].0 + (BE(|ps[0].1|, 4) + ps[0].1 + KeyOf(ps[1..]))
  }

  predicate PairsFit(ps: Pairs) { forall i :: 0 <= i < |ps| ==> |ps[i].0| < 0x1_0000_0000 && |ps[i].1| < 0x1_0000_0000 }

  /** The labels in the order of their names. */
  predicate Lists(ps: Pairs, m: Labels) {
    && (forall i, j :: 0 <= i < j < |ps| ==> TextLess(ps[i].0, ps[j].0))
    && (forall i :: 0 <= i < |ps| ==> ps[i].0 in m && m[ps[i].0] == ps[i].1)
    && forall n :: n in m ==> exists i :: 0 <= i < |ps| && ps[i].0 == n
  }

  lemma {:induction false} KeysDiffer(ps: Pairs, qs: Pairs)
    requires PairsFit(ps) && PairsFit(qs) && KeyOf(ps) == KeyOf(qs)
    ensures ps == qs
  {
    if ps != [] && qs != [] {
      var p, r, a, b := ps[0], qs[0], KeyOf(ps[1..]), KeyOf(qs[1..]);
      Eval.SplitKey(p.0, BE(|p.1|, 4) + p.1 + a, r.0, BE(|r.1|, 4) + r.1 + b);
      Eval.SplitKey(p.1, a, r.1, b);
      KeysDiffer(ps[1..], qs[1..]);
      assert ps == [p] + ps[1..] && qs == [r] + qs[1..];
    }
  }

  lemma {:induction false} ListsOnce(ps: Pairs, qs: Pairs, m: Labels)
    requires Lists(ps, m) && Lists(qs, m)
    ensures ps == qs
  {
    NoneListed(ps, m);
    NoneListed(qs, m);
    if ps != [] {
      SameLast(ps, qs, m);
      var x, p, r := ps[|ps| - 1], ps[..|ps| - 1], qs[..|qs| - 1];
      SplitLast(ps);
      SplitLast(qs);
      FrontLists(p, x, m);
      FrontLists(r, x, m);
      ListsOnce(p, r, m - {x.0});
    }
  }

  lemma NoneListed(ps: Pairs, m: Labels)
    requires Lists(ps, m)
    ensures ps == [] <==> m == map[]
  {
    if ps != [] { assert ps[0].0 in m; }
  }

  lemma SameLast(ps: Pairs, qs: Pairs, m: Labels)
    requires Lists(ps, m) && Lists(qs, m) && ps != []
    ensures qs != [] && ps[|ps| - 1] == qs[|qs| - 1]
  {
    var x := ps[|ps| - 1];
    assert x.0 in m;
    var y := qs[|qs| - 1];
    LastListed(ps, m, y.0);
    LastListed(qs, m, x.0);
    TextOrder(x.0, y.0);
  }

  lemma LastListed(ps: Pairs, m: Labels, n: Text)
    requires Lists(ps, m) && ps != [] && n in m
    ensures n == ps[|ps| - 1].0 || TextLess(n, ps[|ps| - 1].0)
  {
    var i :| 0 <= i < |ps| && ps[i].0 == n;
  }

  lemma FrontLists(p: Pairs, x: (Text, Text), m: Labels)
    requires Lists(p + [x], m)
    ensures Lists(p, m - {x.0})
  {
    var ps := p + [x];
    assert ps[|p|] == x;
    forall i | 0 <= i < |p| ensures p[i].0 in m - {x.0} && m[p[i].0] == p[i].1 {
      assert ps[i] == p[i];
      TextOrder(p[i].0, x.0);
    }
    forall i, j | 0 <= i < j < |p| ensures TextLess(p[i].0, p[j].0) { assert ps[i] == p[i] && ps[j] == p[j]; }
    forall n | n in m - {x.0} ensures exists i :: 0 <= i < |p| && p[i].0 == n {
      var i :| 0 <= i < |ps| && ps[i].0 == n;
      assert p[i].0 == n;
    }
  }

  /** Streams share a key exactly when their series has the same labels. */
  lemma KeyIsLabels(ps: Pairs, l: Labels, qs: Pairs, m: Labels)
    requires Lists(ps, l) && Lists(qs, m) && PairsFit(ps) && PairsFit(qs)
    ensures KeyOf(ps) == KeyOf(qs) <==> l == m
  {
    if KeyOf(ps) == KeyOf(qs) {
      KeysDiffer(ps, qs);
      assert l.Keys == m.Keys;
      SameMap(l, m);
    }
    if l == m { ListsOnce(ps, qs, l); }
  }

  // ---- one stream ----

  function Weigh(es: seq<LogEntry>, keep: Text -> bool, op: Op): seq<LogWindow.Entry> {
    if es == [] then []
    else
      var e := es[|es| - 1];
      Weigh(es[..|es| - 1], keep, op) + (if keep(e.line) then [LogWindow.Entry(e.ts, WeightOf(e, op))] else [])
  }

  lemma {:induction false} WeighedWindow(es: seq<LogEntry>, keep: Text -> bool, op: Op, lo: int, hi: int)
    ensures LogWindow.WindowSum(Weigh(es, keep, op), lo, hi) == Total(InWindow(es, keep, lo, hi), op)
    ensures LogWindow.WindowCount(Weigh(es, keep, op), lo, hi) == |InWindow(es, keep, lo, hi)|
  {
    if es != [] {
      var p, e := es[..|es| - 1], es[|es| - 1];
      WeighedWindow(p, keep, op, lo, hi);
      var w, win := Weigh(p, keep, op), InWindow(p, keep, lo, hi);
      if keep(e.line) {
        OneWeighed(w, win, e, op, lo, hi, if lo < e.ts <= hi then win + [e] else win + []);
      } else {
        assert w + [] == w && win + [] == win;
      }
    }
  }

  lemma OneWeighed(w: seq<LogWindow.Entry>, win: seq<LogEntry>, e: LogEntry, op: Op, lo: int, hi: int, win': seq<LogEntry>)
    requires LogWindow.WindowSum(w, lo, hi) == Total(win, op) && LogWindow.WindowCount(w, lo, hi) == |win|
    requires win' == if lo < e.ts <= hi then win + [e] else win + []
    ensures var w' := w + [LogWindow.Entry(e.ts, WeightOf(e, op))];
      LogWindow.WindowSum(w', lo, hi) == Total(win', op) && LogWindow.WindowCount(w', lo, hi) == |win'|
  {
    var x := LogWindow.Entry(e.ts, WeightOf(e, op));
    var w' := w + [x];
    assert w'[..|w|] == w && w'[|w|] == x;
    if lo < e.ts <= hi {
      assert win'[..|win|] == win && win'[|win|] == e;
    } else {
      assert win' == win;
    }
  }

  predicate EntriesOk(es: seq<LogEntry>) {
    && (forall i, j :: 0 <= i < j < |es| ==> es[i].ts <= es[j].ts)
    && forall i :: 0 <= i < |es| ==> Int64(es[i].ts)
  }

  lemma {:induction false} WeighedOk(es: seq<LogEntry>, keep: Text -> bool, op: Op)
    requires EntriesOk(es)
    ensures LogWindow.EntriesOk(Weigh(es, keep, op))
    ensures forall k :: 0 <= k < |Weigh(es, keep, op)| ==> exists i :: 0 <= i < |es| && es[i].ts == Weigh(es, keep, op)[k].ts
  {
    if es != [] {
      var p, n := es[..|es| - 1], |es| - 1;
      WeighedOk(p, keep, op);
      var w, r := Weigh(p, keep, op), Weigh(es, keep, op);
      forall k | 0 <= k < |r| ensures exists i :: 0 <= i < |es| && es[i].ts == r[k].ts {
        if k < |w| {
          var i :| 0 <= i < |p| && p[i].ts == w[k].ts;
          assert es[i].ts == r[k].ts;
        } else {
          assert es[n].ts == r[k].ts;
        }
      }
    }
  }

  /** What the source reads: the entries in [lo, hi]. */
  function ReadRange(es: seq<LogEntry>, lo: int, hi: int): seq<LogEntry> {
    if es == [] then []
    else ReadRange(es[..|es| - 1], lo, hi) + (if lo <= es[|es| - 1].ts <= hi then [es[|es| - 1]] else [])
  }

  /** No window within the range read misses an entry for it. */
  lemma {:induction false} ReadKeepsWindow(es: seq<LogEntry>, keep: Text -> bool, a: int, b: int, lo: int, hi: int)
    requires a <= lo && hi <= b
    ensures InWindow(ReadRange(es, a, b), keep, lo, hi) == InWindow(es, keep, lo, hi)
  {
    if es != [] {
      var p, e := es[..|es| - 1], es[|es| - 1];
      ReadKeepsWindow(p, keep, a, b, lo, hi);
      var r, win := ReadRange(p, a, b), InWindow(p, keep, lo, hi);
      if a <= e.ts <= b {
        assert (r + [e])[..|r|] == r;
      } else {
        assert r + [] == r && win + [] == win;
      }
    }
  }

  lemma {:induction false} ReadOk(es: seq<LogEntry>, a: int, b: int)
    requires EntriesOk(es)
    ensures EntriesOk(ReadRange(es, a, b)) && forall e :: e in ReadRange(es, a, b) ==> e in es
  {
    if es != [] {
      var p, e := es[..|es| - 1], es[|es| - 1];
      ReadOk(p, a, b);
      var r := ReadRange(p, a, b);
      forall i | 0 <= i < |r| ensures r[i].ts <= e.ts {
        assert r[i] in p;
        var k :| 0 <= k < |p| && p[k] == r[i];
        assert es[k] == p[k];
      }
    }
  }

  // ---- what the pass accumulates ----

  /** The points of series g after the streams ss. */
  ghost function Tally(ss: seq<Stream>, keep: Text -> bool, q: Query, g: Labels, ticks: set<int>): map<int, real>
    requires LogWindow.AllInt64(ticks) && 0 < q.range <= MAX_INT64
  {
    if ss == [] then map[]
    else
      var s := ss[|ss| - 1];
      var before := Tally(ss[..|ss| - 1], keep, q, g, ticks);
      if Feeds(s, q, g) then LogWindow.WithWindows(before, Weigh(s.entries, keep, q.op), q.range, Scale(q.op, q.range), ticks) else before
  }

  lemma StreamAdds(before: map<int, real>, es: seq<LogEntry>, keep: Text -> bool, q: Query, ticks: set<int>, t: int, after: map<int, real>)
    requires LogWindow.AllInt64(ticks) && 0 < q.range <= MAX_INT64 && Int64(t)
    requires after == LogWindow.WithWindows(before, Weigh(es, keep, q.op), q.range, Scale(q.op, q.range), ticks)
    ensures var some := t in ticks && InWindow(es, keep, LogWindow.WindowStart(t, q.range), t) != [];
      (t in after <==> t in before || some) && Or0(after, t) == Or0(before, t) + (if t in ticks then Worth(es, keep, q, t) else 0.0)
  {
    var lo := LogWindow.WindowStart(t, q.range);
    WeighedWindow(es, keep, q.op, lo, t);
    var win, w, k := InWindow(es, keep, lo, t), Weigh(es, keep, q.op), Scale(q.op, q.range);
    TickIsTimes(w, q.range, k, t, Total(win, q.op));
    TickAdds(before, w, q.range, k, ticks, t, after);
  }

  lemma TickIsTimes(w: seq<LogWindow.Entry>, range: int, scale: real, t: int, n: int)
    requires Int64(t) && 0 < range <= MAX_INT64 && n == LogWindow.WindowSum(w, LogWindow.WindowStart(t, range), t)
    ensures LogWindow.TickWeight(w, range, scale, t) == Times(scale, n) && (n == 0 ==> Times(scale, n) == 0.0)
  {
  }

  lemma TickAdds(before: map<int, real>, w: seq<LogWindow.Entry>, range: int, scale: real, ticks: set<int>, t: int, after: map<int, real>)
    requires LogWindow.AllInt64(ticks) && 0 < range <= MAX_INT64 && Int64(t) && after == LogWindow.WithWindows(before, w, range, scale, ticks)
    ensures var some := t in ticks && LogWindow.WindowCount(w, LogWindow.WindowStart(t, range), t) > 0;
      (t in after <==> t in before || some) && Or0(after, t) == Or0(before, t) + (if some then LogWindow.TickWeight(w, range, scale, t) else 0.0)
  {
  }

  /** The tally has a point where a stream of the series has an entry in the window, and
      its value there is the sum over the series' streams. */
  lemma {:induction false} TallyMeans(ss: seq<Stream>, keep: Text -> bool, q: Query, g: Labels, ticks: set<int>, t: int)
    requires LogWindow.AllInt64(ticks) && 0 < q.range <= MAX_INT64 && Int64(t)
    ensures var r := Tally(ss, keep, q, g, ticks);
      (t in r <==> t in ticks && HasPoint(ss, keep, q, g, t)) && (t in ticks ==> Or0(r, t) == ValueAt(ss, keep, q, g, t))
  {
    if ss != [] {
      var p, s := ss[..|ss| - 1], ss[|ss| - 1];
      TallyMeans(p, keep, q, g, ticks, t);
      PointNext(p, s, ss, keep, q, g, t);
      if Feeds(s, q, g) {
        StreamAdds(Tally(p, keep, q, g, ticks), s.entries, keep, q, ticks, t, Tally(ss, keep, q, g, ticks));
      }
    }
  }

  lemma PointNext(p: seq<Stream>, s: Stream, ss: seq<Stream>, keep: Text -> bool, q: Query, g: Labels, t: int)
    requires Int64(t) && 0 < q.range <= MAX_INT64 && ss == p + [s]
    ensures HasPoint(ss, keep, q, g, t) <==>
      HasPoint(p, keep, q, g, t) || (Feeds(s, q, g) && InWindow(s.entries, keep, LogWindow.WindowStart(t, q.range), t) != [])
  {
    assert ss[|p|] == s && forall i :: 0 <= i < |p| ==> ss[i] == p[i];
  }

  // ---- what the source reads is enough ----

  function ReadStreams(ss: seq<Stream>, lo: int, hi: int): (rs: seq<Stream>)
    ensures |rs| == |ss|
  {
    seq(|ss|, i requires 0 <= i < |ss| => ss[i].(entries := ReadRange(ss[i].entries, lo, hi)))
  }

  lemma {:induction false} ReadKeepsValue(ss: seq<Stream>, keep: Text -> bool, q: Query, g: Labels, t: int, a: int, b: int)
    requires Int64(t) && 0 < q.range <= MAX_INT64 && a <= LogWindow.WindowStart(t, q.range) && t <= b
    ensures ValueAt(ReadStreams(ss, a, b), keep, q, g, t) == ValueAt(ss, keep, q, g, t)
    ensures HasPoint(ReadStreams(ss, a, b), keep, q, g, t) <==> HasPoint(ss, keep, q, g, t)
  {
    if ss != [] {
      var p, s := ss[..|ss| - 1], ss[|ss| - 1];
      var rs, r := ReadStreams(p, a, b), s.(entries := ReadRange(s.entries, a, b));
      ReadKeepsValue(p, keep, q, g, t, a, b);
      ReadKeepsWindow(s.entries, keep, a, b, LogWindow.WindowStart(t, q.range), t);
      var all := ReadStreams(ss, a, b);
      SplitLast(ss);
      SplitLast(all);
      assert all[..|ss| - 1] == rs;
      SameNext(p, s, ss, rs, r, all, keep, q, g, t);
    }
  }

  lemma SameNext(p: seq<Stream>, s: Stream, ss: seq<Stream>, rs: seq<Stream>, r: Stream, all: seq<Stream>, keep: Text -> bool, q: Query, g: Labels, t: int)
    requires Int64(t) && 0 < q.range <= MAX_INT64 && ss == p + [s] && all == rs + [r] && r.labels == s.labels
    requires InWindow(r.entries, keep, LogWindow.WindowStart(t, q.range), t) == InWindow(s.entries, keep, LogWindow.WindowStart(t, q.range), t)
    requires ValueAt(rs, keep, q, g, t) == ValueAt(p, keep, q, g, t) && (HasPoint(rs, keep, q, g, t) <==> HasPoint(p, keep, q, g, t))
    ensures ValueAt(all, keep, q, g, t) == ValueAt(ss, keep, q, g, t) && (HasPoint(all, keep, q, g, t) <==> HasPoint(ss, keep, q, g, t))
  {
    PointNext(p, s, ss, keep, q, g, t);
    PointNext(rs, r, all, keep, q, g, t);
    assert ss[..|p|] == p && all[..|rs|] == rs;
  }

  // ---- the query ----

  datatype Result = BadStep | EndBeforeStart | BadRange | Answer(series: map<Labels, map<int, real>>)

  /** Every series has its points at exactly the ticks where one of its streams has an
      entry, with the sum over its streams as value; no series is empty. */
  ghost predicate IsMetric(series: map<Labels, map<int, real>>, ss: seq<Stream>, keep: Text -> bool, q: Query, ticks: set<int>)
    requires LogWindow.AllInt64(ticks) && 0 < q.range <= MAX_INT64
  {
    && (forall g :: g in series ==> series[g] != map[])
    && (forall g, t :: t in ticks ==> (HasPoint(ss, keep, q, g, t) <==> g in series && t in series[g]))
    && (forall g, t :: g in series && t in series[g] ==> t in ticks && series[g][t] == ValueAt(ss, keep, q, g, t))
  }

  function Points(groups: map<Labels, map<int, real>>, g: Labels): map<int, real> { if g in groups then groups[g] else map[] }

  ghost predicate Tallied(groups: map<Labels, map<int, real>>, ss: seq<Stream>, keep: Text -> bool, q: Query, ticks: set<int>)
    requires LogWindow.AllInt64(ticks) && 0 < q.range <= MAX_INT64
  {
    forall g :: Points(groups, g) == Tally(ss, keep, q, g, ticks)
  }

  /** A stream none of whose entries pass adds nothing. */
  lemma TalliedSkip(groups: map<Labels, map<int, real>>, p: seq<Stream>, s: Stream, keep: Text -> bool, q: Query, ticks: set<int>)
    requires LogWindow.AllInt64(ticks) && 0 < q.range <= MAX_INT64 && Tallied(groups, p, keep, q, ticks)
    requires Weigh(s.entries, keep, q.op) == []
    ensures Tallied(groups, p + [s], keep, q, ticks)
  {
    var ss := p + [s];
    assert ss[..|p|] == p;
    forall g ensures Points(groups, g) == Tally(ss, keep, q, g, ticks) {
      NoEntriesAdd(Tally(p, keep, q, g, ticks), q.range, Scale(q.op, q.range), ticks);
    }
  }

  lemma NoEntriesAdd(values: map<int, real>, range: int, scale: real, ticks: set<int>)
    requires LogWindow.AllInt64(ticks) && 0 < range <= MAX_INT64
    ensures LogWindow.WithWindows(values, [], range, scale, ticks) == values
  {
    var same := LogWindow.WithWindows(values, [], range, scale, ticks);
    assert LogWindow.NonEmpty([], range, ticks) == {};
    assert same.Keys == values.Keys;
    forall k | k in same ensures same[k] == values[k] { assert same[k] == Or0(values, k) + 0.0; }
    SameMap(same, values);
  }

  lemma TalliedNext(groups: map<Labels, map<int, real>>, p: seq<Stream>, s: Stream, keep: Text -> bool, q: Query, ticks: set<int>, g: Labels, values: map<int, real>)
    requires LogWindow.AllInt64(ticks) && 0 < q.range <= MAX_INT64 && Tallied(groups, p, keep, q, ticks) && g == OutLabels(s.labels, q)
    requires values == LogWindow.WithWindows(Points(groups, g), Weigh(s.entries, keep, q.op), q.range, Scale(q.op, q.range), ticks)
    ensures Tallied(groups[g := values], p + [s], keep, q, ticks)
  {
    var ss := p + [s];
    assert ss[..|p|] == p;
    forall h ensures Points(groups[g := values], h) == Tally(ss, keep, q, h, ticks) {
      assert Feeds(s, q, h) <==> h == g;
      assert Points(groups, h) == Tally(p, keep, q, h, ticks);
    }
  }

  /** The filtered entries of a stream, each with its weight. */
  method Keep(es: seq<LogEntry>, keep: Text -> bool, op: Op) returns (kept: seq<LogWindow.Entry>)
    ensures kept == Weigh(es, keep, op)
  {
    kept := [];
    var i := 0;
    while i < |es|
      invariant 0 <= i <= |es| && kept == Weigh(es[..i], keep, op)
    {
      assert es[..i + 1][..i] == es[..i];
      if keep(es[i].line) {
        kept := kept + [LogWindow.Entry(es[i].ts, WeightOf(es[i], op))];
      }
      i := i + 1;
    }
    assert es[..i] == es;
  }

  /** One stream's turn: skipped when no entry passes, else added to its group. */
  method AddStream(groups0: map<Labels, map<int, real>>, ghost p: seq<Stream>, s: Stream, keep: Text -> bool, q: Query, start: int, end: int, step: int)
    returns (groups: map<Labels, map<int, real>>)
    requires Int64(start) && Int64(end) && start <= end && 0 < step <= MAX_INT64 && 0 < q.range <= MAX_INT64 && EntriesOk(s.entries)
    requires LogWindow.AllInt64(Ticks(start, end, step)) && Tallied(groups0, p, keep, q, Ticks(start, end, step))
    ensures Tallied(groups, p + [s], keep, q, Ticks(start, end, step))
  {
    WeighedOk(s.entries, keep, q.op);
    var kept := Keep(s.entries, keep, q.op);
    if |kept| == 0 {
      TalliedSkip(groups0, p, s, keep, q, Ticks(start, end, step));
      return groups0;
    }
    var g := OutLabels(s.labels, q);
    var values := LogWindow.Accumulate(Points(groups0, g), kept, q.range, Scale(q.op, q.range), start, end, step);
    TalliedNext(groups0, p, s, keep, q, Ticks(start, end, step), g, values);
    groups := groups0[g := values];
  }

  lemma UpTo<T>(s: seq<T>, i: nat)
    requires i < |s|
    ensures s[..i + 1] == s[..i] + [s[i]]
  {
  }

  /** evalMetric: one pass over the streams that match, each read from the start of the
      first window to the end. An instant query is the case start == end, step == 1. */
  method EvalMetric(ss: seq<Stream>, keep: Text -> bool, q: Query, start: int, end: int, step: int) returns (r: Result)
    requires Int64(start) && Int64(end) && step <= MAX_INT64 && q.range <= MAX_INT64
    requires forall i :: 0 <= i < |ss| ==> EntriesOk(ss[i].entries)
    ensures r.BadStep? <==> step <= 0
    ensures r.EndBeforeStart? <==> step > 0 && end < start
    ensures r.BadRange? <==> step > 0 && end >= start && q.range <= 0
    ensures r.Answer? ==> LogWindow.AllInt64(Ticks(start, end, step)) && IsMetric(r.series, ss, keep, q, Ticks(start, end, step))
  {
    if step <= 0 { return BadStep; }
    if end < start { return EndBeforeStart; }
    if q.range <= 0 { return BadRange; }
    ghost var ticks := Ticks(start, end, step);
    TicksFrom(start, end, step);
    var readStart := LogWindow.WindowStart(start, q.range);
    var streams := ReadStreams(ss, readStart, end);
    var groups: map<Labels, map<int, real>> := map[];
    var i := 0;
    while i < |streams|
      invariant 0 <= i <= |streams| && Tallied(groups, streams[..i], keep, q, ticks)
    {
      var s := streams[i];
      ReadOk(ss[i].entries, readStart, end);
      groups := AddStream(groups, streams[..i], s, keep, q, start, end, step);
      UpTo(streams, i);
      i := i + 1;
    }
    SliceAll(streams);
    var series := map g | g in groups && groups[g] != map[] :: groups[g];
    TalliedIsMetric(groups, series, ss, keep, q, ticks, readStart, end);
    r := Answer(series);
  }

  lemma TalliedIsMetric(groups: map<Labels, map<int, real>>, series: map<Labels, map<int, real>>, ss: seq<Stream>, keep: Text -> bool,
                        q: Query, ticks: set<int>, lo: int, hi: int)
    requires LogWindow.AllInt64(ticks) && 0 < q.range <= MAX_INT64 && Tallied(groups, ReadStreams(ss, lo, hi), keep, q, ticks)
    requires forall t :: t in ticks ==> lo <= LogWindow.WindowStart(t, q.range) && t <= hi
    requires series == map g | g in groups && groups[g] != map[] :: groups[g]
    ensures IsMetric(series, ss, keep, q, ticks)
  {
    forall g, t | Int64(t)
      ensures t in ticks ==> (HasPoint(ss, keep, q, g, t) <==> g in series && t in series[g])
      ensures g in series && t in series[g] ==> t in ticks && series[g][t] == ValueAt(ss, keep, q, g, t)
    {
      PointIs(groups, series, ss, keep, q, ticks, lo, hi, g, t);
    }
    forall g, t | g in series && t in series[g] ensures t in ticks && series[g][t] == ValueAt(ss, keep, q, g, t) {
      TallyTicks(ReadStreams(ss, lo, hi), keep, q, g, ticks);
      assert Points(groups, g) == Tally(ReadStreams(ss, lo, hi), keep, q, g, ticks);
    }
  }

  lemma {:induction false} TallyTicks(ss: seq<Stream>, keep: Text -> bool, q: Query, g: Labels, ticks: set<int>)
    requires LogWindow.AllInt64(ticks) && 0 < q.range <= MAX_INT64
    ensures Tally(ss, keep, q, g, ticks).Keys <= ticks
  {
    if ss != [] { TallyTicks(ss[..|ss| - 1], keep, q, g, ticks); }
  }

  lemma PointIs(groups: map<Labels, map<int, real>>, series: map<Labels, map<int, real>>, ss: seq<Stream>, keep: Text -> bool,
                q: Query, ticks: set<int>, lo: int, hi: int, g: Labels, t: int)
    requires LogWindow.AllInt64(ticks) && 0 < q.range <= MAX_INT64 && Tallied(groups, ReadStreams(ss, lo, hi), keep, q, ticks) && Int64(t)
    requires forall u :: u in ticks ==> lo <= LogWindow.WindowStart(u, q.range) && u <= hi
    requires series == map h | h in groups && groups[h] != map[] :: groups[h]
    ensures t in ticks ==> (HasPoint(ss, keep, q, g, t) <==> g in series && t in series[g])
    ensures g in series && t in series[g] ==> t in ticks && series[g][t] == ValueAt(ss, keep, q, g, t)
  {
    var streams := ReadStreams(ss, lo, hi);
    TallyMeans(streams, keep, q, g, ticks, t);
    if t in ticks { ReadKeepsValue(ss, keep, q, g, t, lo, hi); }
    assert Points(groups, g) == Tally(streams, keep, q, g, ticks);
  }
}
