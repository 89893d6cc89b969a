/** What a Select answers for one series, and why merging answers is the same as
    answering over the union of what the sources hold. */
module Answers {
  import opened Options
  import opened Samples
  import opened Chunks

  /** A samples select: in-range samples, and with anchor the latest sample before. */
  datatype Params = Params(minT: int, maxT: int, anchor: bool) {
    predicate Wants() { anchor && minT > MIN_INT64 && minT <= maxT }
    predicate InRange(ts: int) { minT <= ts <= maxT }
  }

  datatype Answer = Answer(anchor: Option<Sample>, samples: seq<Sample>)

  const EMPTY := Answer(None, [])

  function InRange(S: set<Sample>, p: Params): set<Sample> {
    set x | x in S && p.InRange(x.ts)
  }

  /** b is later than a: a larger timestamp, or the winner at the same one. */
  predicate Later(b: Sample, a: Sample) {
    b.ts > a.ts || (b.ts == a.ts && Outranks(b, a))
  }

  function LaterSample(a: Option<Sample>, b: Option<Sample>): Option<Sample> {
    if a.None? then b
    else if b.None? then a
    else if Later(b.value, a.value) then b else a
  }

  predicate IsAnchor(o: Option<Sample>, S: set<Sample>, p: Params) {
    if !p.Wants() then o.None?
    else match o
      case None => forall y :: y in S ==> y.ts >= p.minT
      case Some(x) => x in S && x.ts < p.minT && forall y :: y in S && y.ts < p.minT ==> !Later(y, x)
  }

  /** The one right answer over a set of samples of one series. */
  predicate IsAnswer(a: Answer, S: set<Sample>, p: Params) {
    && Ascending(a.samples)
    && SetOf(a.samples) == View(InRange(S, p))
    && IsAnchor(a.anchor, S, p)
  }

  /** An answer in plain terms. Its samples ascend in time, each in the range, each the
      winner of its timestamp, one for every timestamp in range that has a sample. Its
      anchor, when asked for, is the winner of the latest timestamp before the range. */
  lemma AnswerMeans(a: Answer, S: set<Sample>, id: nat, p: Params)
    requires OneSeries(S, id) && IsAnswer(a, S, p)
    ensures forall i, j :: 0 <= i < j < |a.samples| ==> a.samples[i].ts < a.samples[j].ts
    ensures forall w :: w in a.samples <==> p.minT <= w.ts <= p.maxT && Wins(S, w)
    ensures forall x :: x in S && p.minT <= x.ts <= p.maxT ==> exists w :: w in a.samples && w.ts == x.ts
    ensures !(p.anchor && MIN_INT64 < p.minT <= p.maxT) ==> a.anchor.None?
    ensures p.anchor && MIN_INT64 < p.minT <= p.maxT ==>
      if a.anchor.None? then forall x :: x in S ==> x.ts >= p.minT
      else a.anchor.value.ts < p.minT && Wins(S, a.anchor.value) && forall x :: x in S && x.ts < p.minT ==> x.ts <= a.anchor.value.ts
  {
    var R := InRange(S, p);
    forall w ensures w in a.samples <==> p.minT <= w.ts <= p.maxT && Wins(S, w) {
      assert w in a.samples <==> w in SetOf(a.samples);
      RangeWinner(S, id, p, w);
    }
    forall x | x in S && p.minT <= x.ts <= p.maxT ensures exists w :: w in a.samples && w.ts == x.ts {
      ViewCovers(R, x);
      var w :| w in View(R) && AtLeast(w, x);
      assert w in SetOf(a.samples);
    }
    if p.Wants() && a.anchor.Some? { AnchorWins(a.anchor.value, S, id, p); }
  }

  /** w is in S, and no sample of S at its timestamp has a later generation, nor larger
      bits with the same one. */
  predicate Wins(S: set<Sample>, w: Sample) {
    w in S && forall y :: y in S && y.ts == w.ts ==> y.gen < w.gen || (y.gen == w.gen && y.bits <= w.bits)
  }

  lemma RangeWinner(S: set<Sample>, id: nat, p: Params, w: Sample)
    requires OneSeries(S, id)
    ensures w in View(InRange(S, p)) <==> p.minT <= w.ts <= p.maxT && Wins(S, w)
  {
    WinnerIff(InRange(S, p), w);
  }

  lemma AnchorWins(x: Sample, S: set<Sample>, id: nat, p: Params)
    requires OneSeries(S, id) && p.Wants() && IsAnchor(Some(x), S, p)
    ensures Wins(S, x) && forall y :: y in S && y.ts < p.minT ==> y.ts <= x.ts
  {
    forall y | y in S && y.ts == x.ts ensures y.gen < x.gen || (y.gen == x.gen && y.bits <= x.bits) { assert !Later(y, x); }
    forall y | y in S && y.ts < p.minT ensures y.ts <= x.ts { assert !Later(y, x); }
  }

  lemma AnswerUnique(a: Answer, b: Answer, S: set<Sample>, id: nat, p: Params)
    requires OneSeries(S, id) && IsAnswer(a, S, p) && IsAnswer(b, S, p)
    ensures a == b
  {
    AscendingUnique(a.samples, b.samples);
  }

  lemma ViewOfRange(S: set<Sample>, p: Params)
    ensures View(InRange(S, p)) == InRange(View(S), p)
  {
    forall x ensures x in View(InRange(S, p)) <==> x in InRange(View(S), p) {
      if x in S && p.InRange(x.ts) {
        assert Unbeaten(InRange(S, p), x) <==> Unbeaten(S, x);
      }
    }
  }

  /** A query cannot tell two sets with one view apart: flushing, compacting and
      reclaiming, which keep the view, change no answer. */
  lemma AnswerDependsOnView(a: Answer, S: set<Sample>, T: set<Sample>, id: nat, p: Params)
    requires OneSeries(S, id) && OneSeries(T, id) && View(S) == View(T) && IsAnswer(a, S, p)
    ensures IsAnswer(a, T, p)
  {
    ViewOfRange(S, p);
    ViewOfRange(T, p);
    SameViewIff(S, T);
    if p.Wants() {
      AnchorTransfers(a.anchor, S, T, id, p);
    }
  }

  lemma AnchorTransfers(o: Option<Sample>, S: set<Sample>, T: set<Sample>, id: nat, p: Params)
    requires OneSeries(S, id) && OneSeries(T, id) && View(S) == View(T)
    requires CoversAll(S, T) && CoversAll(T, S)
    requires p.Wants() && IsAnchor(o, S, p)
    ensures IsAnchor(o, T, p)
  {
    forall y | y in T && y.ts < p.minT ensures o.Some? && !Later(y, o.value) {
      assert Covers(S, y);
      var z :| z in S && AtLeast(z, y);
    }
    if o.Some? {
      var x := o.value;
      assert Unbeaten(S, x);
      assert x in View(S);
    }
  }

  function Merge(a: Answer, b: Answer): Answer {
    Answer(LaterSample(a.anchor, b.anchor), SortAndDedup(a.samples + b.samples))
  }

  lemma InRangeUnion(S: set<Sample>, T: set<Sample>, p: Params)
    ensures InRange(S + T, p) == InRange(S, p) + InRange(T, p)
  {
  }

  lemma SortedUnionIsView(s: seq<Sample>, t: seq<Sample>, S: set<Sample>, T: set<Sample>, id: nat)
    requires OneSeries(S, id) && OneSeries(T, id)
    requires SetOf(s) == View(S) && SetOf(t) == View(T)
    ensures Ascending(SortAndDedup(s + t)) && SetOf(SortAndDedup(s + t)) == View(S + T)
  {
    SetOfConcat(s, t);
    SortAndDedupIsView(s + t, id);
    MergeAlgebra(S, View(T), {});
    ViewFirst(T, S);
    assert S + View(T) == View(T) + S && T + S == S + T;
  }

  /** Merging two sources' answers is answering over everything both hold. */
  lemma MergeIsAnswerOfUnion(a: Answer, b: Answer, S: set<Sample>, T: set<Sample>, id: nat, p: Params)
    requires OneSeries(S, id) && OneSeries(T, id)
    requires IsAnswer(a, S, p) && IsAnswer(b, T, p)
    ensures IsAnswer(Merge(a, b), S + T, p)
  {
    InRangeUnion(S, T, p);
    SortedUnionIsView(a.samples, b.samples, InRange(S, p), InRange(T, p), id);
  }

  /** So merging is commutative, associative and idempotent on answers. */
  lemma MergeIsSemilattice(a: Answer, b: Answer, c: Answer, S: set<Sample>, T: set<Sample>, U: set<Sample>, id: nat, p: Params)
    requires OneSeries(S, id) && OneSeries(T, id) && OneSeries(U, id)
    requires IsAnswer(a, S, p) && IsAnswer(b, T, p) && IsAnswer(c, U, p)
    ensures Merge(a, b) == Merge(b, a)
    ensures Merge(Merge(a, b), c) == Merge(a, Merge(b, c))
    ensures Merge(a, a) == a
  {
    MergeIsAnswerOfUnion(a, b, S, T, id, p);
    MergeIsAnswerOfUnion(b, a, T, S, id, p);
    assert S + T == T + S;
    AnswerUnique(Merge(a, b), Merge(b, a), S + T, id, p);
    MergeIsAnswerOfUnion(b, c, T, U, id, p);
    MergeIsAnswerOfUnion(Merge(a, b), c, S + T, U, id, p);
    MergeIsAnswerOfUnion(a, Merge(b, c), S, T + U, id, p);
    assert S + T + U == S + (T + U);
    AnswerUnique(Merge(Merge(a, b), c), Merge(a, Merge(b, c)), S + T + U, id, p);
    MergeIsAnswerOfUnion(a, a, S, S, id, p);
    assert S + S == S;
    AnswerUnique(Merge(a, a), a, S, id, p);
  }

  /** Folding any number of sources, nested Merge(h0, Merge(h1, ...)), equals one
      dedup of the union of what they hold. */
  function FoldMerge(parts: seq<Answer>): Answer
    requires |parts| > 0
  {
    if |parts| == 1 then parts[0] else Merge(parts[0], FoldMerge(parts[1..]))
  }

  function UnionOf(Ss: seq<set<Sample>>): set<Sample> {
    set i, x | 0 <= i < |Ss| && x in Ss[i] :: x
  }

  lemma {:induction false} FoldIsAnswerOfUnion(parts: seq<Answer>, Ss: seq<set<Sample>>, id: nat, p: Params)
    requires |parts| == |Ss| > 0
    requires forall i :: 0 <= i < |parts| ==> OneSeries(Ss[i], id) && IsAnswer(parts[i], Ss[i], p)
    ensures IsAnswer(FoldMerge(parts), UnionOf(Ss), p)
  {
    if |parts| == 1 {
      assert UnionOf(Ss) == Ss[0];
    } else {
      FoldIsAnswerOfUnion(parts[1..], Ss[1..], id, p);
      assert UnionOf(Ss) == Ss[0] + UnionOf(Ss[1..]) by {
        forall x | x in UnionOf(Ss) ensures x in Ss[0] + UnionOf(Ss[1..]) {
          var i :| 0 <= i < |Ss| && x in Ss[i];
          if i > 0 { assert x in Ss[1..][i - 1]; }
        }
      }
      MergeIsAnswerOfUnion(parts[0], FoldMerge(parts[1..]), Ss[0], UnionOf(Ss[1..]), id, p);
    }
  }

  // ---- selectFromChunks ----

  predicate SkipsChunk(c: Chunk, p: Params) {
    c.samples == [] || c.minTs > p.maxT || (!p.Wants() && c.maxTs < p.minT)
  }

  /** The raw scan: what the loop has gathered from a set of samples. */
  predicate Gathered(samples: seq<Sample>, anchor: Option<Sample>, S: set<Sample>, p: Params) {
    SetOf(samples) == InRange(S, p) && IsAnchor(anchor, S, p)
  }

  lemma GatherStep(samples: seq<Sample>, anchor: Option<Sample>, S: set<Sample>, x: Sample, id: nat, p: Params)
    requires OneSeries(S, id) && x.series == id && Gathered(samples, anchor, S, p)
    ensures Gathered(if p.InRange(x.ts) then samples + [x] else samples,
                     if !p.InRange(x.ts) && p.Wants() && x.ts < p.minT then LaterSample(anchor, Some(x)) else anchor,
                     S + {x}, p)
  {
    SetOfAppend(samples, x);
    InRangeUnion(S, {x}, p);
    if p.InRange(x.ts) {
      assert InRange({x}, p) == {x};
    } else {
      assert InRange({x}, p) == {};
    }
  }

  method ScanChunk(c: Chunk, id: nat, p: Params, samples0: seq<Sample>, anchor0: Option<Sample>, ghost S: set<Sample>)
    returns (samples: seq<Sample>, anchor: Option<Sample>)
    requires OneSeries(SetOf(c.samples), id) && OneSeries(S, id) && Gathered(samples0, anchor0, S, p)
    ensures Gathered(samples, anchor, S + SetOf(c.samples), p)
  {
    samples, anchor := samples0, anchor0;
    var i := 0;
    ghost var seen := S;
    assert S + SetOf(c.samples[..0]) == S;
    while i < |c.samples|
      invariant 0 <= i <= |c.samples|
      invariant OneSeries(seen, id) && seen == S + SetOf(c.samples[..i])
      invariant Gathered(samples, anchor, seen, p)
    {
      var x := c.samples[i];
      assert x in SetOf(c.samples);
      GatherStep(samples, anchor, seen, x, id, p);
      if p.InRange(x.ts) {
        samples := samples + [x];
      } else if p.Wants() && x.ts < p.minT {
        anchor := LaterSample(anchor, Some(x));
      }
      assert c.samples[..i + 1] == c.samples[..i] + [x];
      SetOfAppend(c.samples[..i], x);
      seen := seen + {x};
      i := i + 1;
    }
    assert c.samples[..i] == c.samples;
  }

  lemma SkippingIsHarmless(c: Chunk, samples: seq<Sample>, anchor: Option<Sample>, S: set<Sample>, p: Params)
    requires BoundsHold(c) && SkipsChunk(c, p) && p.minT <= p.maxT && Gathered(samples, anchor, S, p)
    ensures Gathered(samples, anchor, S + SetOf(c.samples), p)
  {
    InRangeUnion(S, SetOf(c.samples), p);
    assert InRange(SetOf(c.samples), p) == {};
  }

  /** One series' answer from its chunks. Chunks whose time bounds lie outside the
      range are skipped unread, which loses nothing. */
  method SelectFromChunks(chunks: seq<Chunk>, id: nat, p: Params) returns (a: Answer)
    requires OneSeries(SamplesOf(chunks), id)
    requires forall i :: 0 <= i < |chunks| ==> BoundsHold(chunks[i])
    ensures IsAnswer(a, SamplesOf(chunks), p)
  {
    if p.maxT < p.minT {
      assert InRange(SamplesOf(chunks), p) == {};
      return EMPTY;
    }
    var samples: seq<Sample>, anchor := [], None;
    var i := 0;
    ghost var seen: set<Sample> := {};
    while i < |chunks|
      invariant 0 <= i <= |chunks|
      invariant seen == SamplesOf(chunks[..i]) && OneSeries(seen, id)
      invariant Gathered(samples, anchor, seen, p)
    {
      assert SamplesOf(chunks[..i + 1]) == seen + SetOf(chunks[i].samples) by {
        assert forall k :: 0 <= k < i ==> chunks[..i + 1][k] == chunks[..i][k];
      }
      assert OneSeries(SetOf(chunks[i].samples), id) by {
        assert forall x :: x in chunks[i].samples ==> x in SamplesOf(chunks);
      }
      if SkipsChunk(chunks[i], p) {
        SkippingIsHarmless(chunks[i], samples, anchor, seen, p);
      } else {
        samples, anchor := ScanChunk(chunks[i], id, p, samples, anchor, seen);
      }
      seen := seen + SetOf(chunks[i].samples);
      i := i + 1;
    }
    assert chunks[..i] == chunks;
    SortAndDedupIsView(samples, id);
    a := Answer(anchor, SortAndDedup(samples));
  }

  // ---- merged.Select ----

  datatype SeriesData = SeriesData(series: nat, answer: Answer)

  function OfSeries(S: set<Sample>, id: nat): set<Sample> {
    set x | x in S && x.series == id
  }

  predicate Distinct(out: seq<SeriesData>) {
    forall i, j :: 0 <= i < j < |out| ==> out[i].series != out[j].series
  }

  /** out answers p over S: each listed series once with its one right answer, and
      every series with anything to show is listed. */
  predicate Represents(out: seq<SeriesData>, S: set<Sample>, p: Params) {
    && Distinct(out)
    && (forall i :: 0 <= i < |out| ==> IsAnswer(out[i].answer, OfSeries(S, out[i].series), p))
    && (forall x :: x in S && (forall i :: 0 <= i < |out| ==> out[i].series != x.series) ==> IsAnswer(EMPTY, OfSeries(S, x.series), p))
  }

  lemma UnlistedIsEmpty(out: seq<SeriesData>, S: set<Sample>, p: Params, id: nat)
    requires Represents(out, S, p) && forall i :: 0 <= i < |out| ==> out[i].series != id
    ensures IsAnswer(EMPTY, OfSeries(S, id), p)
  {
    if x :| x in S && x.series == id {
    } else {
      assert OfSeries(S, id) == {};
      assert InRange({}, p) == {};
    }
  }

  lemma MergeWithEmpty(a: Answer, S: set<Sample>, T: set<Sample>, id: nat, p: Params)
    requires OneSeries(S, id) && OneSeries(T, id) && IsAnswer(a, S, p) && IsAnswer(EMPTY, T, p)
    ensures IsAnswer(a, S + T, p)
  {
    MergeIsAnswerOfUnion(a, EMPTY, S, T, id, p);
    assert a.samples + EMPTY.samples == a.samples;
    SortAndDedupIsView(a.samples, id);
    ViewOfView(InRange(S, p));
    AscendingUnique(SortAndDedup(a.samples), a.samples);
    assert Merge(a, EMPTY) == a;
  }

  lemma OfSeriesUnion(S: set<Sample>, T: set<Sample>, id: nat)
    ensures OfSeries(S + T, id) == OfSeries(S, id) + OfSeries(T, id)
    ensures OneSeries(OfSeries(S, id), id) && OneSeries(OfSeries(T, id), id)
  {
  }

  predicate PositionsOf(pos: map<nat, nat>, a: seq<SeriesData>, n: nat)
    requires n <= |a|
  {
    && (forall id :: id in pos ==> pos[id] < n && a[pos[id]].series == id)
    && (forall i :: 0 <= i < n ==> a[i].series in pos)
  }

  /** What the second loop has built after the first j answers of b: a's series in
      order, merged where b knows them, then the series only b knows in order. */
  predicate Folded(out: seq<SeriesData>, a: seq<SeriesData>, b: seq<SeriesData>, j: nat, pos: map<nat, nat>)
    requires j <= |b|
  {
    |a| <= |out| && FoldedFirst(out, a, b, j) && out[|a|..] == Unknown(b[..j], pos)
  }

  predicate FoldedFirst(out: seq<SeriesData>, a: seq<SeriesData>, b: seq<SeriesData>, j: nat)
    requires j <= |b| && |a| <= |out|
  {
    forall i :: 0 <= i < |a| ==> out[i] == MergedInto(a[i], b[..j])
  }

  /** x merged with every answer of b for its series. */
  function MergedInto(x: SeriesData, b: seq<SeriesData>): (y: SeriesData)
    ensures y.series == x.series
  {
    if b == [] then x
    else
      var y, last := MergedInto(x, b[..|b| - 1]), b[|b| - 1];
      if last.series == x.series then SeriesData(x.series, Merge(y.answer, last.answer)) else y
  }

  lemma MergedIntoNext(x: SeriesData, b: seq<SeriesData>, j: nat)
    requires j < |b|
    ensures var y := MergedInto(x, b[..j]);
      MergedInto(x, b[..j + 1]) == if b[j].series == x.series then SeriesData(x.series, Merge(y.answer, b[j].answer)) else y
  {
    assert b[..j + 1][..j] == b[..j];
  }

  lemma {:induction false} MergedIntoOther(x: SeriesData, b: seq<SeriesData>)
    requires forall k :: 0 <= k < |b| ==> b[k].series != x.series
    ensures MergedInto(x, b) == x
  {
    if b != [] { MergedIntoOther(x, b[..|b| - 1]); }
  }

  lemma {:induction false} MergedIntoOne(x: SeriesData, b: seq<SeriesData>, k: nat)
    requires Distinct(b) && k < |b| && b[k].series == x.series
    ensures MergedInto(x, b) == SeriesData(x.series, Merge(x.answer, b[k].answer))
  {
    var n := |b| - 1;
    if k == n {
      MergedIntoOther(x, b[..n]);
    } else {
      assert b[n].series != b[k].series;
      MergedIntoOne(x, b[..n], k);
    }
  }

  function Unknown(b: seq<SeriesData>, pos: map<nat, nat>): seq<SeriesData> {
    if b == [] then []
    else
      var last := b[|b| - 1];
      Unknown(b[..|b| - 1], pos) + if last.series in pos then [] else [last]
  }

  lemma UnknownNext(b: seq<SeriesData>, pos: map<nat, nat>, j: nat)
    requires j < |b|
    ensures Unknown(b[..j + 1], pos) == Unknown(b[..j], pos) + if b[j].series in pos then [] else [b[j]]
  {
    assert b[..j + 1][..j] == b[..j];
  }

  lemma {:induction false} UnknownOnce(b: seq<SeriesData>, pos: map<nat, nat>)
    requires Distinct(b)
    ensures Distinct(Unknown(b, pos))
    ensures forall x :: x in Unknown(b, pos) <==> x in b && x.series !in pos
  {
    if b != [] {
      var n := |b| - 1;
      var p, u := b[..n], Unknown(b[..n], pos);
      UnknownOnce(p, pos);
      assert b == p + [b[n]];
      forall i | 0 <= i < |u| ensures u[i].series != b[n].series {
        assert u[i] in p;
      }
    }
  }

  function FoldOne(out: seq<SeriesData>, pos: map<nat, nat>, sd: SeriesData): seq<SeriesData>
    requires sd.series in pos ==> pos[sd.series] < |out|
  {
    if sd.series !in pos then out + [sd]
    else
      var k := pos[sd.series];
      out[k := SeriesData(sd.series, Merge(out[k].answer, sd.answer))]
  }

  lemma FoldStep(out: seq<SeriesData>, a: seq<SeriesData>, b: seq<SeriesData>, j: nat, pos: map<nat, nat>)
    requires Distinct(a) && j < |b|
    requires PositionsOf(pos, a, |a|) && Folded(out, a, b, j, pos)
    ensures Folded(FoldOne(out, pos, b[j]), a, b, j + 1, pos)
  {
    UnknownNext(b, pos, j);
    if b[j].series !in pos {
      UnknownLeavesFirst(out, a, b, j, pos);
      assert (out + [b[j]])[|a|..] == out[|a|..] + [b[j]];
    } else {
      FoldKnownSeries(out, a, b, j, pos);
      assert FoldOne(out, pos, b[j])[|a|..] == out[|a|..];
    }
  }

  lemma FoldKnownSeries(out: seq<SeriesData>, a: seq<SeriesData>, b: seq<SeriesData>, j: nat, pos: map<nat, nat>)
    requires j < |b| && PositionsOf(pos, a, |a|) && Distinct(a)
    requires |a| <= |out| && FoldedFirst(out, a, b, j)
    requires b[j].series in pos
    ensures FoldedFirst(FoldOne(out, pos, b[j]), a, b, j + 1)
  {
    var id := b[j].series;
    var out' := FoldOne(out, pos, b[j]);
    assert a[pos[id]].series == id;
    forall i | 0 <= i < |a| ensures out'[i] == MergedInto(a[i], b[..j + 1]) {
      MergedIntoNext(a[i], b, j);
      assert i != pos[id] ==> a[i].series != id;
    }
  }

  lemma UnknownLeavesFirst(out: seq<SeriesData>, a: seq<SeriesData>, b: seq<SeriesData>, j: nat, pos: map<nat, nat>)
    requires j < |b| && PositionsOf(pos, a, |a|)
    requires |a| <= |out| && FoldedFirst(out, a, b, j)
    requires b[j].series !in pos
    ensures FoldedFirst(out + [b[j]], a, b, j + 1)
  {
    forall i | 0 <= i < |a| ensures (out + [b[j]])[i] == MergedInto(a[i], b[..j + 1]) {
      MergedIntoNext(a[i], b, j);
      assert a[i].series in pos;
    }
  }

  lemma FoldStarts(a: seq<SeriesData>, b: seq<SeriesData>, pos: map<nat, nat>)
    ensures Folded(a, a, b, 0, pos)
  {
    assert b[..0] == [];
  }

  lemma FoldedDistinct(out: seq<SeriesData>, a: seq<SeriesData>, b: seq<SeriesData>, pos: map<nat, nat>)
    requires Distinct(a) && Distinct(b) && PositionsOf(pos, a, |a|) && Folded(out, a, b, |b|, pos)
    ensures Distinct(out)
  {
    UnknownOnce(b[..|b|], pos);
    var u := out[|a|..];
    forall i, j | 0 <= i < j < |out| ensures out[i].series != out[j].series {
      if i < |a| {
        assert out[i].series == a[i].series;
        if j >= |a| { assert out[j] == u[j - |a|] && u[j - |a|] in u; }
      } else {
        assert out[i] == u[i - |a|] && out[j] == u[j - |a|];
      }
    }
  }

  method Positions(a: seq<SeriesData>) returns (pos: map<nat, nat>)
    requires Distinct(a)
    ensures PositionsOf(pos, a, |a|)
  {
    pos := map[];
    var i := 0;
    while i < |a|
      invariant 0 <= i <= |a| && PositionsOf(pos, a, i)
    {
      pos := pos[a[i].series := i];
      i := i + 1;
    }
  }

  method FoldAnswers(a: seq<SeriesData>, b: seq<SeriesData>, pos: map<nat, nat>) returns (out: seq<SeriesData>)
    requires Distinct(a) && PositionsOf(pos, a, |a|)
    ensures Folded(out, a, b, |b|, pos)
  {
    out := a;
    var j := 0;
    FoldStarts(a, b, pos);
    while j < |b|
      invariant 0 <= j <= |b|
      invariant Folded(out, a, b, j, pos)
    {
      FoldStep(out, a, b, j, pos);
      var sd := b[j];
      if sd.series !in pos {
        out := out + [sd];
      } else {
        var k := pos[sd.series];
        out := out[k := SeriesData(sd.series, Merge(out[k].answer, sd.answer))];
      }
      j := j + 1;
    }
  }

  /** merged.Select: first's series in order, then the series only second knows; a
      series both answer is merged. */
  method MergeSelect(a: seq<SeriesData>, b: seq<SeriesData>, ghost S: set<Sample>, ghost T: set<Sample>, p: Params)
    returns (out: seq<SeriesData>)
    requires Represents(a, S, p) && Represents(b, T, p)
    ensures Represents(out, S + T, p)
    ensures |out| >= |a| && forall i :: 0 <= i < |a| ==> out[i] == MergedInto(a[i], b)
    ensures forall x :: x in out[|a|..] <==> x in b && forall i :: 0 <= i < |a| ==> a[i].series != x.series
  {
    var pos := Positions(a);
    out := FoldAnswers(a, b, pos);
    FoldedRepresents(out, a, b, pos, S, T, p);
    assert b[..|b|] == b;
    UnknownOnce(b, pos);
  }

  lemma FoldedRepresents(out: seq<SeriesData>, a: seq<SeriesData>, b: seq<SeriesData>, pos: map<nat, nat>, S: set<Sample>, T: set<Sample>, p: Params)
    requires Represents(a, S, p) && Represents(b, T, p)
    requires PositionsOf(pos, a, |a|) && Folded(out, a, b, |b|, pos)
    ensures Represents(out, S + T, p)
  {
    FoldedDistinct(out, a, b, pos);
    UnknownOnce(b, pos);
    var u := out[|a|..];
    assert b[..|b|] == b;
    forall i | 0 <= i < |out| ensures IsAnswer(out[i].answer, OfSeries(S + T, out[i].series), p) {
      var id := out[i].series;
      OfSeriesUnion(S, T, id);
      if i >= |a| {
        assert out[i] == u[i - |a|] && u[i - |a|] in u;
        var k :| 0 <= k < |b| && b[k] == out[i];
        UnlistedIsEmpty(a, S, p, id);
        MergeWithEmpty(b[k].answer, OfSeries(T, id), OfSeries(S, id), id, p);
        assert OfSeries(T, id) + OfSeries(S, id) == OfSeries(S, id) + OfSeries(T, id);
      } else if k :| 0 <= k < |b| && b[k].series == id {
        MergedIntoOne(a[i], b, k);
        MergeIsAnswerOfUnion(a[i].answer, b[k].answer, OfSeries(S, id), OfSeries(T, id), id, p);
      } else {
        MergedIntoOther(a[i], b);
        UnlistedIsEmpty(b, T, p, id);
        MergeWithEmpty(a[i].answer, OfSeries(S, id), OfSeries(T, id), id, p);
      }
    }
    forall x | x in S + T && (forall i :: 0 <= i < |out| ==> out[i].series != x.series)
      ensures IsAnswer(EMPTY, OfSeries(S + T, x.series), p)
    {
      var id := x.series;
      OfSeriesUnion(S, T, id);
      assert forall i :: 0 <= i < |a| ==> a[i].series == out[i].series;
      forall k | 0 <= k < |b| ensures b[k].series != id {
        if b[k].series !in pos {
          assert b[k] in u;
          var m :| 0 <= m < |u| && u[m] == b[k];
          assert out[|a| + m] == b[k];
        } else {
          assert a[pos[b[k].series]].series == b[k].series;
        }
      }
      UnlistedIsEmpty(a, S, p, id);
      UnlistedIsEmpty(b, T, p, id);
      MergeWithEmpty(EMPTY, OfSeries(S, id), OfSeries(T, id), id, p);
    }
  }
}
