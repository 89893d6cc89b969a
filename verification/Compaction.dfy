/** Compaction: merging blocks into one keeps the last-write-wins view, and every
    source without a dropped series is verifiably superseded by the output. */
module Compaction {
  import opened Sets
  import opened Options
  import opened Samples
  import opened Chunks
  import opened Reclaim
  import Answers

  datatype CompactError = TooFewSources | MixedTenants | ConflictingLabels(series: nat) | NotSuperseded(source: string)

  datatype Result<+T> = Ok(value: T) | Err(error: CompactError)

  // ---- rechunk ----

  function Flatten(cs: seq<Chunk>): seq<Sample> {
    if cs == [] then [] else Flatten(cs[..|cs| - 1]) + cs[|cs| - 1].samples
  }

  /** A chunk as appends leave it: bounded, within the size limit, and sealed
      exactly by the rule. */
  predicate ChunkOk(c: Chunk) {
    && BoundsHold(c) && |c.samples| <= MAX_SAMPLES
    && (c.sealed <==> |c.samples| > 1 && SealsAt(|c.samples|, c.minTs, c.maxTs))
  }

  /** No chunk is empty and only the last may still be open. */
  predicate WellCut(cs: seq<Chunk>) {
    && (forall i :: 0 <= i < |cs| ==> ChunkOk(cs[i]) && cs[i].samples != [])
    && (forall i :: 0 <= i < |cs| - 1 ==> cs[i].sealed)
  }

  lemma FlattenLast(cs: seq<Chunk>, c: Chunk)
    ensures Flatten(cs + [c]) == Flatten(cs) + c.samples
  {
    assert (cs + [c])[..|cs|] == cs;
  }

  lemma AppendKeepsChunkOk(c: Chunk, x: Sample)
    requires ChunkOk(c) && !c.sealed && Int64(x.ts)
    ensures ChunkOk(AppendTo(c, x)) && AppendTo(c, x).samples == c.samples + [x]
  {
    AppendKeepsBounds(c, x);
  }

  lemma CutAppend(cut: seq<Chunk>, c: Chunk)
    requires WellCut(cut) && (forall k :: 0 <= k < |cut| ==> cut[k].sealed)
    requires ChunkOk(c) && c.samples != []
    ensures WellCut(cut + [c]) && Flatten(cut + [c]) == Flatten(cut) + c.samples
  {
    FlattenLast(cut, c);
    var after := cut + [c];
    forall i | 0 <= i < |after| ensures ChunkOk(after[i]) && after[i].samples != [] {
      assert after[i] == if i < |cut| then cut[i] else c;
    }
    forall i | 0 <= i < |after| - 1 ensures after[i].sealed { assert after[i] == cut[i]; }
  }

  /** Encodes sorted winners into fresh chunks under the head's sealing rule. */
  method Encode(deduped: seq<Sample>) returns (cs: seq<Chunk>)
    requires deduped != [] && forall x :: x in deduped ==> Int64(x.ts)
    ensures cs != [] && WellCut(cs)
    ensures Flatten(cs) == deduped
  {
    var cut: seq<Chunk> := [];
    var cur := AppendTo(NewChunk(0), deduped[0]);
    var i := 1;
    while i < |deduped|
      invariant 1 <= i <= |deduped| && Encoding(cut, cur, deduped[..i])
    {
      var x := deduped[i];
      assert x in deduped;
      ghost var cut0, cur0 := cut, cur;
      if cur.sealed {
        cut := cut + [cur];
        cur := NewChunk(|cut|);
      }
      ghost var before := cur;
      cur := AppendTo(cur, x);
      EncodingNext(cut0, cur0, deduped[..i], x, cut, before, cur, deduped[..i + 1]);
      i := i + 1;
    }
    assert deduped[..i] == deduped;
    CutAppend(cut, cur);
    cs := cut + [cur];
  }

  /** Sealed chunks in cut and an open or sealed one in cur hold done. */
  predicate Encoding(cut: seq<Chunk>, cur: Chunk, done: seq<Sample>) {
    && WellCut(cut) && (forall k :: 0 <= k < |cut| ==> cut[k].sealed)
    && ChunkOk(cur) && cur.samples != [] && Flatten(cut) + cur.samples == done
  }

  lemma EncodingNext(cut: seq<Chunk>, cur: Chunk, done: seq<Sample>, x: Sample,
                     cut': seq<Chunk>, before: Chunk, cur': Chunk, done': seq<Sample>)
    requires Encoding(cut, cur, done) && Int64(x.ts) && done' == done + [x] && cur' == AppendTo(before, x)
    requires if cur.sealed then cut' == cut + [cur] && before == NewChunk(|cut'|) else cut' == cut && before == cur
    ensures Encoding(cut', cur', done')
  {
    if cur.sealed { CutAppend(cut, cur); }
    AppendKeepsChunkOk(before, x);
    ConcatAssoc(Flatten(cut'), before.samples, [x]);
    assert cur.sealed ==> Flatten(cut') + before.samples == done;
  }

  /** Sorts, dedups, and re-encodes the winners; nothing for no samples. */
  method Rechunk(samples: seq<Sample>) returns (cs: seq<Chunk>)
    requires forall x :: x in samples ==> Int64(x.ts)
    ensures WellCut(cs)
    ensures Flatten(cs) == SortAndDedup(samples)
    ensures cs == [] <==> samples == []
  {
    if samples == [] {
      return [];
    }
    DedupKeepsElements(samples);
    cs := Encode(SortAndDedup(samples));
  }

  lemma DedupKeepsElements(s: seq<Sample>)
    ensures forall x :: x in SortAndDedup(s) ==> x in s
    ensures s != [] ==> SortAndDedup(s) != []
  {
    DedupSubset(SortByTs(s));
    SortKeepsSet(s);
    forall x | x in SortAndDedup(s) ensures x in s {
      assert x in SetOf(SortByTs(s));
      assert x in SetOf(s);
    }
  }

  lemma {:induction false} DedupSubset(s: seq<Sample>)
    ensures forall x :: x in Dedup(s) ==> x in s
  {
    if |s| > 1 {
      DedupSubset(s[..|s| - 1]);
    }
  }

  // ---- Compact ----

  /** Every sample the sources hold for one series, in gathering order. */
  function Gather(sources: seq<Block>, id: nat): seq<Sample> {
    if sources == [] then []
    else Gather(sources[..|sources| - 1], id) + (if id in sources[|sources| - 1].series then sources[|sources| - 1].series[id] else [])
  }

  function HeldBy(sources: seq<Block>): set<Sample> {
    set i, x | 0 <= i < |sources| && x in Held(sources[i]) :: x
  }

  function SeriesIn(sources: seq<Block>): set<nat> {
    set i, id | 0 <= i < |sources| && id in sources[i].series :: id
  }

  predicate LabelsAgree(sources: seq<Block>) {
    forall i, j, id :: 0 <= i < |sources| && 0 <= j < |sources| && id in sources[i].labels && id in sources[j].labels
      ==> sources[i].labels[id] == sources[j].labels[id]
  }

  lemma {:induction false} GatherHolds(sources: seq<Block>, id: nat)
    requires forall i :: 0 <= i < |sources| ==> WellFormed(sources[i])
    ensures OneSeries(SetOf(Gather(sources, id)), id)
    ensures SetOf(Gather(sources, id)) == Answers.OfSeries(HeldBy(sources), id)
  {
    if sources == [] {
    } else {
      var p, b := sources[..|sources| - 1], sources[|sources| - 1];
      var s := if id in b.series then b.series[id] else [];
      GatherHolds(p, id);
      SetOfConcat(Gather(p, id), s);
      assert SetOf(s) == Answers.OfSeries(Held(b), id) by {
        forall x ensures x in SetOf(s) <==> x in Answers.OfSeries(Held(b), id) {
          if x in Held(b) && x.series == id {
            var k :| k in b.series && x in b.series[k];
            assert x in SetOf(b.series[k]);
          }
          if x in SetOf(s) { assert x in b.series[id]; }
        }
      }
      assert HeldBy(sources) == HeldBy(p) + Held(b) by {
        assert forall i :: 0 <= i < |p| ==> p[i] == sources[i];
      }
    }
  }

  function MaxLevel(sources: seq<Block>): nat {
    if sources == [] then 0
    else
      var r := MaxLevel(sources[1..]);
      if sources[0].level > r then sources[0].level else r
  }

  /** The output of a compaction: one level up, listing its sources, and for every
      series with a sample anywhere exactly the sorted winners of the union. */
  predicate IsCompacted(out: Block, ids: seq<string>, sources: seq<Block>) {
    && WellFormed(out)
    && out.sources == ids && out.level == MaxLevel(sources) + 1
    && (|sources| > 0 ==> out.tenant == sources[0].tenant)
    && out.series.Keys == (set id | id in SeriesIn(sources) && Gather(sources, id) != [])
    && (forall id :: id in out.series ==> out.series[id] == SortAndDedup(Gather(sources, id)))
    && (forall i, id :: 0 <= i < |sources| && id in sources[i].labels && id in out.labels ==> out.labels[id] == sources[i].labels[id])
  }

  function AggregateOf(sources: seq<Block>): map<nat, seq<Sample>> {
    map id | id in SeriesIn(sources) :: Gather(sources, id)
  }

  function AddBlock(agg: map<nat, seq<Sample>>, b: Block): map<nat, seq<Sample>> {
    map id | id in agg.Keys + b.series.Keys ::
      (if id in agg then agg[id] else []) + (if id in b.series then b.series[id] else [])
  }

  lemma AddBlockAggregates(sources: seq<Block>, b: Block)
    ensures AddBlock(AggregateOf(sources), b) == AggregateOf(sources + [b])
  {
    var all := sources + [b];
    assert all[..|sources|] == sources && all[|sources|] == b;
    SeriesInNext(sources, b, all);
    GatherEmptyAll(sources);
    SameMap(AddBlock(AggregateOf(sources), b), AggregateOf(all));
  }

  lemma SeriesInNext(sources: seq<Block>, b: Block, all: seq<Block>)
    requires all == sources + [b]
    ensures SeriesIn(all) == SeriesIn(sources) + b.series.Keys
  {
    forall id | id in SeriesIn(sources) + b.series.Keys ensures id in SeriesIn(all) {
      if id in b.series {
        assert all[|sources|] == b;
      } else {
        var i :| 0 <= i < |sources| && id in sources[i].series;
        assert all[i] == sources[i];
      }
    }
  }

  /** labels is what the sources agree each series carries. */
  predicate CommonLabels(labels: map<nat, string>, sources: seq<Block>) {
    && (forall i, id :: 0 <= i < |sources| && id in sources[i].labels ==> id in labels && labels[id] == sources[i].labels[id])
    && (forall id :: id in labels ==> exists i :: 0 <= i < |sources| && id in sources[i].labels)
  }

  lemma CommonLabelsStep(labels: map<nat, string>, sources: seq<Block>, b: Block)
    requires CommonLabels(labels, sources)
    requires forall id :: id in b.labels && id in labels ==> labels[id] == b.labels[id]
    ensures CommonLabels(labels + b.labels, sources + [b])
  {
    var all := sources + [b];
    forall id | id in labels + b.labels ensures exists i :: 0 <= i < |all| && id in all[i].labels {
      if id in b.labels {
        assert all[|sources|] == b;
      } else {
        var i :| 0 <= i < |sources| && id in sources[i].labels;
        assert all[i] == sources[i];
      }
    }
  }

  lemma CommonMeansAgree(labels: map<nat, string>, sources: seq<Block>)
    requires CommonLabels(labels, sources)
    ensures LabelsAgree(sources)
  {
    forall i, j, id | 0 <= i < |sources| && 0 <= j < |sources| && id in sources[i].labels && id in sources[j].labels
      ensures sources[i].labels[id] == sources[j].labels[id]
    {
      assert labels[id] == sources[i].labels[id];
      assert labels[id] == sources[j].labels[id];
    }
  }

  /** Aggregates series by series over the sources in order. */
  method Aggregate(sources: seq<Block>) returns (agg: map<nat, seq<Sample>>, labels: map<nat, string>, conflict: Option<nat>)
    ensures conflict.None? <==> LabelsAgree(sources)
    ensures conflict.None? ==> agg == AggregateOf(sources) && CommonLabels(labels, sources)
  {
    agg, labels, conflict := map[], map[], None;
    var i := 0;
    while i < |sources|
      invariant 0 <= i <= |sources|
      invariant agg == AggregateOf(sources[..i]) && CommonLabels(labels, sources[..i])
    {
      var b := sources[i];
      if id :| id in b.labels && id in labels && labels[id] != b.labels[id] {
        LabelsClash(labels, sources, i, id);
        return agg, labels, Some(id);
      }
      ghost var agg0, labels0 := agg, labels;
      agg := AddBlock(agg, b);
      labels := labels + b.labels;
      AggregateNext(sources, i, agg0, labels0, agg, labels);
      i := i + 1;
    }
    assert sources[..i] == sources;
    CommonMeansAgree(labels, sources);
  }

  lemma LabelsClash(labels: map<nat, string>, sources: seq<Block>, i: nat, id: nat)
    requires i < |sources| && CommonLabels(labels, sources[..i])
    requires id in sources[i].labels && id in labels && labels[id] != sources[i].labels[id]
    ensures !LabelsAgree(sources)
  {
    var k :| 0 <= k < i && id in sources[..i][k].labels;
    assert sources[..i][k] == sources[k];
  }

  lemma AggregateNext(sources: seq<Block>, i: nat, agg: map<nat, seq<Sample>>, labels: map<nat, string>,
                      agg': map<nat, seq<Sample>>, labels': map<nat, string>)
    requires i < |sources| && agg == AggregateOf(sources[..i]) && CommonLabels(labels, sources[..i])
    requires agg' == AddBlock(agg, sources[i]) && labels' == labels + sources[i].labels
    requires forall id :: id in sources[i].labels && id in labels ==> labels[id] == sources[i].labels[id]
    ensures agg' == AggregateOf(sources[..i + 1]) && CommonLabels(labels', sources[..i + 1])
  {
    assert sources[..i + 1] == sources[..i] + [sources[i]];
    AddBlockAggregates(sources[..i], sources[i]);
    CommonLabelsStep(labels, sources[..i], sources[i]);
  }

  lemma {:induction false} GatherEmpty(sources: seq<Block>, id: nat)
    requires id !in SeriesIn(sources)
    ensures Gather(sources, id) == []
  {
    if sources != [] {
      var p := sources[..|sources| - 1];
      assert sources[|sources| - 1] == sources[|p|];
      assert forall i :: 0 <= i < |p| ==> p[i] == sources[i];
      GatherEmpty(p, id);
    }
  }

  lemma GatherEmptyAll(sources: seq<Block>)
    ensures forall id :: id !in SeriesIn(sources) ==> Gather(sources, id) == []
  {
    forall id | id !in SeriesIn(sources) ensures Gather(sources, id) == [] { GatherEmpty(sources, id); }
  }

  predicate SmallTimes(b: Block) {
    forall id, x :: id in b.series && x in b.series[id] ==> Int64(x.ts)
  }

  function Winners(agg: map<nat, seq<Sample>>): map<nat, seq<Sample>> {
    map id | id in agg && agg[id] != [] :: SortAndDedup(agg[id])
  }

  /** Re-encodes every series; one with no samples is dropped. */
  method RechunkAll(agg: map<nat, seq<Sample>>) returns (series: map<nat, seq<Sample>>)
    requires forall id, x :: id in agg && x in agg[id] ==> Int64(x.ts)
    ensures series == Winners(agg)
  {
    series := map[];
    var todo := agg.Keys;
    while todo != {}
      invariant todo <= agg.Keys
      invariant series.Keys == (set id | id in agg && id !in todo && agg[id] != [])
      invariant forall id :: id in series ==> series[id] == SortAndDedup(agg[id])
      decreases todo
    {
      var id :| id in todo;
      var chunks := Rechunk(agg[id]);
      if chunks != [] {
        series := series[id := Flatten(chunks)];
      }
      todo := todo - {id};
    }
  }

  lemma WinnersOneSeries(sources: seq<Block>, id: nat)
    requires forall i :: 0 <= i < |sources| ==> WellFormed(sources[i])
    requires id in Winners(AggregateOf(sources))
    ensures OneSeries(SetOf(Winners(AggregateOf(sources))[id]), id)
  {
    GatherHolds(sources, id);
    SortAndDedupIsView(Gather(sources, id), id);
  }

  lemma LabelsCoverSeries(labels: map<nat, string>, sources: seq<Block>)
    requires forall i :: 0 <= i < |sources| ==> WellFormed(sources[i])
    requires CommonLabels(labels, sources)
    ensures SeriesIn(sources) <= labels.Keys
  {
    forall id | id in SeriesIn(sources) ensures id in labels {
      var i :| 0 <= i < |sources| && id in sources[i].series;
      assert id in sources[i].labels;
    }
  }

  function Output(ids: seq<string>, sources: seq<Block>, labels: map<nat, string>, series: map<nat, seq<Sample>>): Block
    requires |sources| > 0 && series.Keys <= labels.Keys
  {
    Block(sources[0].tenant, MaxLevel(sources) + 1, ids, map id | id in series :: labels[id], series)
  }

  lemma WinnersAreCompacted(ids: seq<string>, sources: seq<Block>, labels: map<nat, string>)
    requires |sources| > 0 && (forall i :: 0 <= i < |sources| ==> WellFormed(sources[i]))
    requires CommonLabels(labels, sources)
    ensures Winners(AggregateOf(sources)).Keys <= labels.Keys
    ensures IsCompacted(Output(ids, sources, labels, Winners(AggregateOf(sources))), ids, sources)
  {
    LabelsCoverSeries(labels, sources);
    var series := Winners(AggregateOf(sources));
    var out := Output(ids, sources, labels, series);
    assert WellFormed(out) by {
      forall id | id in series ensures OneSeries(SetOf(series[id]), id) { WinnersOneSeries(sources, id); }
    }
  }

  // ---- the order of the sources ----

  /** A source as the compactor opens it, with the MinTime its metadata records. */
  datatype Source = Source(id: string, block: Block, minTime: int)

  function IdsIn(ss: seq<Source>): (ids: seq<string>)
    ensures |ids| == |ss|
  {
    seq(|ss|, i requires 0 <= i < |ss| => ss[i].id)
  }

  function BlocksIn(ss: seq<Source>): (bs: seq<Block>)
    ensures |bs| == |ss|
  {
    seq(|ss|, i requires 0 <= i < |ss| => ss[i].block)
  }

  function InsertByMinTime(s: seq<Source>, x: Source): seq<Source> {
    if s == [] || s[|s| - 1].minTime <= x.minTime then s + [x] else InsertByMinTime(s[..|s| - 1], x) + [s[|s| - 1]]
  }

  /** The stable order by MinTime. */
  function InOrder(ss: seq<Source>): seq<Source> {
    if ss == [] then [] else InsertByMinTime(InOrder(ss[..|ss| - 1]), ss[|ss| - 1])
  }

  predicate ByMinTime(ss: seq<Source>) {
    forall i, j :: 0 <= i < j < |ss| ==> ss[i].minTime <= ss[j].minTime
  }

  lemma AppendByMinTime(s: seq<Source>, x: Source)
    requires ByMinTime(s) && forall y :: y in s ==> y.minTime <= x.minTime
    ensures ByMinTime(s + [x])
  {
  }

  lemma LastByMinTime(s: seq<Source>, p: seq<Source>, last: Source)
    requires ByMinTime(s) && s == p + [last]
    ensures ByMinTime(p) && forall y :: y in p ==> y.minTime <= last.minTime
  {
    forall y | y in p ensures y.minTime <= last.minTime {
      var k :| 0 <= k < |p| && p[k] == y;
      assert s[k] == y && s[|p|] == last;
    }
    forall i, j | 0 <= i < j < |p| ensures p[i].minTime <= p[j].minTime { assert s[i] == p[i] && s[j] == p[j]; }
  }

  lemma {:induction false} InsertByMinTimeCounts(s: seq<Source>, x: Source, r: seq<Source>)
    requires r == InsertByMinTime(s, x)
    ensures multiset(r) == multiset(s) + multiset{x}
  {
    if s != [] && x.minTime < s[|s| - 1].minTime {
      InsertByMinTimeCounts(s[..|s| - 1], x, InsertByMinTime(s[..|s| - 1], x));
      SplitLast(s);
    }
  }

  lemma {:induction false} InsertByMinTimeOk(s: seq<Source>, x: Source, r: seq<Source>)
    requires ByMinTime(s) && r == InsertByMinTime(s, x)
    ensures ByMinTime(r)
  {
    if s != [] {
      var p, last := s[..|s| - 1], s[|s| - 1];
      SplitLast(s);
      LastByMinTime(s, p, last);
      if x.minTime < last.minTime {
        var q := InsertByMinTime(p, x);
        InsertByMinTimeOk(p, x, q);
        InsertByMinTimeCounts(p, x, q);
        forall y | y in q ensures y.minTime <= last.minTime { assert y in multiset(q); }
        AppendByMinTime(q, last);
      } else {
        AppendByMinTime(s, x);
      }
    }
  }

  function OpenedAt(ss: seq<Source>, t: int): seq<Source> {
    if ss == [] then [] else OpenedAt(ss[..|ss| - 1], t) + (if ss[|ss| - 1].minTime == t then [ss[|ss| - 1]] else [])
  }

  lemma OpenedAppend(ss: seq<Source>, x: Source, r: seq<Source>, t: int)
    requires r == ss + [x]
    ensures OpenedAt(r, t) == OpenedAt(ss, t) + (if x.minTime == t then [x] else [])
  {
    assert r[..|r| - 1] == ss;
  }

  lemma {:induction false} InsertKeepsTies(s: seq<Source>, x: Source, r: seq<Source>, t: int)
    requires r == InsertByMinTime(s, x)
    ensures ByMinTime(s) ==> OpenedAt(r, t) == OpenedAt(s, t) + (if x.minTime == t then [x] else [])
  {
    if ByMinTime(s) {
      if s == [] || s[|s| - 1].minTime <= x.minTime {
        OpenedAppend(s, x, r, t);
      } else {
        var p, last := s[..|s| - 1], s[|s| - 1];
        SplitLast(s);
        LastByMinTime(s, p, last);
        var q := InsertByMinTime(p, x);
        InsertKeepsTies(p, x, q, t);
        OpenedAppend(p, last, s, t);
        OpenedAppend(q, last, r, t);
      }
    }
  }

  /** Sources with one MinTime keep the order they were given in. */
  lemma {:induction false} OrderKeepsTies(ss: seq<Source>, t: int)
    ensures OpenedAt(InOrder(ss), t) == OpenedAt(ss, t)
  {
    if ss != [] {
      var p, x := ss[..|ss| - 1], ss[|ss| - 1];
      OrderKeepsTies(p, t);
      InOrderOk(p, InOrder(p));
      InsertKeepsTies(InOrder(p), x, InOrder(ss), t);
      SplitLast(ss);
      OpenedAppend(p, x, ss, t);
    }
  }

  /** It permutes the sources. */
  lemma {:induction false} InOrderOk(ss: seq<Source>, r: seq<Source>)
    requires r == InOrder(ss)
    ensures ByMinTime(r) && multiset(r) == multiset(ss)
  {
    if ss != [] {
      var p := ss[..|ss| - 1];
      InOrderOk(p, InOrder(p));
      InsertByMinTimeOk(InOrder(p), ss[|ss| - 1], r);
      InsertByMinTimeCounts(InOrder(p), ss[|ss| - 1], r);
      SplitLast(ss);
    }
  }

  lemma OneMoved(ss: seq<Source>, r: seq<Source>, i: nat) returns (j: nat)
    requires multiset(r) == multiset(ss) && i < |ss|
    ensures j < |r| && r[j] == ss[i]
  {
    assert ss[i] in multiset(r);
    j :| 0 <= j < |r| && r[j] == ss[i];
  }

  lemma LabelsAgreeMoved(ss: seq<Source>, r: seq<Source>)
    requires multiset(r) == multiset(ss) && LabelsAgree(BlocksIn(r))
    ensures LabelsAgree(BlocksIn(ss))
  {
    var bs, bs' := BlocksIn(ss), BlocksIn(r);
    forall i, j, id | 0 <= i < |bs| && 0 <= j < |bs| && id in bs[i].labels && id in bs[j].labels ensures bs[i].labels[id] == bs[j].labels[id] {
      var k := OneMoved(ss, r, i);
      var l := OneMoved(ss, r, j);
      assert bs'[k] == bs[i] && bs'[l] == bs[j];
    }
  }

  lemma SameHeld(ss: seq<Source>, r: seq<Source>)
    requires multiset(r) == multiset(ss)
    ensures HeldBy(BlocksIn(ss)) <= HeldBy(BlocksIn(r)) && SeriesIn(BlocksIn(ss)) <= SeriesIn(BlocksIn(r))
  {
    var bs, bs' := BlocksIn(ss), BlocksIn(r);
    forall x | x in HeldBy(bs) ensures x in HeldBy(bs') {
      var i :| 0 <= i < |bs| && x in Held(bs[i]);
      var k := OneMoved(ss, r, i);
      assert bs'[k] == bs[i];
    }
    forall id | id in SeriesIn(bs) ensures id in SeriesIn(bs') {
      var i :| 0 <= i < |bs| && id in bs[i].series;
      var k := OneMoved(ss, r, i);
      assert bs'[k] == bs[i];
    }
  }

  /** The order decides nothing but the order of the recorded sources: whatever order
      the same sources are merged in, the output holds the same samples and labels. */
  lemma OrderIsCosmetic(ss: seq<Source>, r: seq<Source>, a: Block, b: Block)
    requires multiset(r) == multiset(ss) && forall i :: 0 <= i < |ss| ==> WellFormed(ss[i].block)
    requires IsCompacted(a, IdsIn(ss), BlocksIn(ss)) && IsCompacted(b, IdsIn(r), BlocksIn(r))
    ensures a.series == b.series && a.labels == b.labels
  {
    AllMoved(ss, r);
    SameHeld(ss, r);
    SameHeld(r, ss);
    forall id ensures SameAt(a, b, id) { SameSeries(ss, r, a, b, id); }
    SameEverywhere(a, b);
  }

  predicate SameAt(a: Block, b: Block, id: nat) {
    && (id in a.series <==> id in b.series)
    && (id in a.series && id in a.labels && id in b.labels && id in b.series ==> a.series[id] == b.series[id] && a.labels[id] == b.labels[id])
  }

  lemma SameEverywhere(a: Block, b: Block)
    requires WellFormed(a) && WellFormed(b) && forall id :: SameAt(a, b, id)
    ensures a.series == b.series && a.labels == b.labels
  {
    forall id | id in a.series ensures id in b.series && a.series[id] == b.series[id] && a.labels[id] == b.labels[id] { assert SameAt(a, b, id); }
    forall id | id in b.series ensures id in a.series { assert SameAt(a, b, id); }
    SameMap(a.series, b.series);
    SameMap(a.labels, b.labels);
  }

  lemma AllMoved(ss: seq<Source>, r: seq<Source>)
    requires multiset(r) == multiset(ss) && forall i :: 0 <= i < |ss| ==> WellFormed(ss[i].block)
    ensures forall i :: 0 <= i < |r| ==> WellFormed(r[i].block)
  {
    forall i | 0 <= i < |r| ensures WellFormed(r[i].block) { var k := OneMoved(r, ss, i); }
  }

  lemma SameSeries(ss: seq<Source>, r: seq<Source>, a: Block, b: Block, id: nat)
    requires multiset(r) == multiset(ss) && (forall i :: 0 <= i < |ss| ==> WellFormed(ss[i].block)) && (forall i :: 0 <= i < |r| ==> WellFormed(r[i].block))
    requires HeldBy(BlocksIn(ss)) == HeldBy(BlocksIn(r)) && SeriesIn(BlocksIn(ss)) == SeriesIn(BlocksIn(r))
    requires IsCompacted(a, IdsIn(ss), BlocksIn(ss)) && IsCompacted(b, IdsIn(r), BlocksIn(r))
    ensures SameAt(a, b, id)
  {
    var bs, bs' := BlocksIn(ss), BlocksIn(r);
    var s, t := Gather(bs, id), Gather(bs', id);
    GatherHolds(bs, id);
    GatherHolds(bs', id);
    assert SetOf(s) == SetOf(t);
    NoneIff(s);
    NoneIff(t);
    if id in a.series {
      SortAndDedupCanonical(s, t, id);
      var i :| 0 <= i < |bs| && id in bs[i].series;
      var k := OneMoved(ss, r, i);
      assert bs'[k] == bs[i] && id in bs[i].labels;
    }
  }

  lemma NoneIff(s: seq<Sample>)
    ensures s == [] <==> SetOf(s) == {}
  {
    if s != [] { assert s[0] in SetOf(s); }
  }

  /** Compact: the sources, ordered by MinTime, merged into one block. */
  method Compact(sources: seq<Source>) returns (r: Result<Block>)
    requires forall i :: 0 <= i < |sources| ==> WellFormed(sources[i].block) && SmallTimes(sources[i].block)
    ensures r.Err? <==> |sources| < 2 || (exists i :: 0 < i < |sources| && sources[i].block.tenant != sources[0].block.tenant) || !LabelsAgree(BlocksIn(sources))
    ensures r.Ok? ==> IsCompacted(r.value, IdsIn(InOrder(sources)), BlocksIn(InOrder(sources)))
    ensures r.Err? ==> !r.error.NotSuperseded?
  {
    if |sources| < 2 {
      return Err(TooFewSources);
    }
    if i :| 0 < i < |sources| && sources[i].block.tenant != sources[0].block.tenant {
      return Err(MixedTenants);
    }
    var ordered := InOrder(sources);
    InOrderOk(sources, ordered);
    OrderedSources(sources, ordered);
    r := CompactOrdered(IdsIn(ordered), BlocksIn(ordered));
  }

  lemma OrderedSources(ss: seq<Source>, r: seq<Source>)
    requires multiset(r) == multiset(ss) && forall i :: 0 <= i < |ss| ==> WellFormed(ss[i].block) && SmallTimes(ss[i].block)
    ensures |r| == |ss| && forall i :: 0 <= i < |r| ==> WellFormed(r[i].block) && SmallTimes(r[i].block)
    ensures LabelsAgree(BlocksIn(r)) <==> LabelsAgree(BlocksIn(ss))
  {
    assert |r| == |multiset(r)| == |multiset(ss)| == |ss|;
    forall i | 0 <= i < |r| ensures WellFormed(r[i].block) && SmallTimes(r[i].block) { var k := OneMoved(r, ss, i); }
    if LabelsAgree(BlocksIn(r)) { LabelsAgreeMoved(ss, r); }
    if LabelsAgree(BlocksIn(ss)) { LabelsAgreeMoved(r, ss); }
  }

  method CompactOrdered(ids: seq<string>, sources: seq<Block>) returns (r: Result<Block>)
    requires |sources| > 0 && forall i :: 0 <= i < |sources| ==> WellFormed(sources[i]) && SmallTimes(sources[i])
    ensures r.Err? <==> !LabelsAgree(sources)
    ensures r.Ok? ==> IsCompacted(r.value, ids, sources)
    ensures r.Err? ==> r.error.ConflictingLabels?
  {
    var agg, labels, conflict := Aggregate(sources);
    if conflict.Some? {
      return Err(ConflictingLabels(conflict.value));
    }
    forall id: nat, x: Sample | id in agg && x in agg[id] ensures Int64(x.ts) { GatherTimes(sources, id); }
    var series := RechunkAll(agg);
    WinnersAreCompacted(ids, sources, labels);
    r := Ok(Output(ids, sources, labels, series));
  }

  lemma {:induction false} GatherTimes(sources: seq<Block>, id: nat)
    requires forall i :: 0 <= i < |sources| ==> SmallTimes(sources[i])
    ensures forall x :: x in Gather(sources, id) ==> Int64(x.ts)
  {
    if sources != [] {
      GatherTimes(sources[..|sources| - 1], id);
    }
  }

  // ---- what compaction keeps ----

  lemma OfSeriesView(S: set<Sample>, id: nat)
    ensures Answers.OfSeries(View(S), id) == View(Answers.OfSeries(S, id))
  {
    forall x ensures x in Answers.OfSeries(View(S), id) <==> x in View(Answers.OfSeries(S, id)) {
      if x in S && x.series == id {
        assert Unbeaten(S, x) <==> Unbeaten(Answers.OfSeries(S, id), x);
      }
    }
  }

  /** The output holds exactly the winners of the union of its sources. */
  lemma CompactedHoldsView(out: Block, ids: seq<string>, sources: seq<Block>)
    requires forall i :: 0 <= i < |sources| ==> WellFormed(sources[i])
    requires IsCompacted(out, ids, sources)
    ensures Held(out) == View(HeldBy(sources))
  {
    forall x ensures x in Held(out) <==> x in View(HeldBy(sources)) {
      var id := x.series;
      GatherHolds(sources, id);
      SortAndDedupIsView(Gather(sources, id), id);
      OfSeriesView(HeldBy(sources), id);
      GatherEmptyAll(sources);
      if x in Held(out) {
        var k :| k in out.series && x in out.series[k];
        assert x in SetOf(out.series[k]);
        assert x in SetOf(SortAndDedup(Gather(sources, id)));
      }
      if x in View(HeldBy(sources)) {
        assert x in View(Answers.OfSeries(HeldBy(sources), id));
        assert x in SetOf(SortAndDedup(Gather(sources, id)));
        assert x in SetOf(Gather(sources, id));
        assert x in out.series[id];
      }
    }
  }

  lemma {:induction false} MaxLevelIs(sources: seq<Block>)
    requires sources != []
    ensures (forall i :: 0 <= i < |sources| ==> sources[i].level <= MaxLevel(sources)) && exists i :: 0 <= i < |sources| && sources[i].level == MaxLevel(sources)
  {
    var tail := sources[1..];
    if tail != [] {
      MaxLevelIs(tail);
      var k :| 0 <= k < |tail| && tail[k].level == MaxLevel(tail);
      assert sources[k + 1] == tail[k];
      forall i | 0 <= i < |sources| ensures sources[i].level <= MaxLevel(sources) { if i > 0 { assert sources[i] == tail[i - 1]; } }
    } else {
      assert MaxLevel(tail) == 0;
    }
  }

  /** The output is one level above the highest of its sources. */
  lemma OutputLevel(out: Block, ids: seq<string>, sources: seq<Block>)
    requires IsCompacted(out, ids, sources) && sources != []
    ensures (forall i :: 0 <= i < |sources| ==> sources[i].level < out.level) && exists i :: 0 <= i < |sources| && out.level == sources[i].level + 1
  {
    MaxLevelIs(sources);
  }

  function AttestorsOf(sources: seq<Block>): set<Gens> {
    set i | 0 <= i < |sources| :: BlockGens(sources[i])
  }

  /** Equal-generation ties are always attested: the winner came from a source. */
  lemma OutputSupersedesSample(out: Block, ids: seq<string>, sources: seq<Block>, i: nat, x: Sample)
    requires i < |sources| && forall k :: 0 <= k < |sources| ==> WellFormed(sources[k])
    requires IsCompacted(out, ids, sources) && x in Held(sources[i]) && x.series in out.series
    ensures SampleSuperseded(BlockGens(out), AttestorsOf(sources), x)
  {
    assert x in HeldBy(sources);
    ViewCovers(HeldBy(sources), x);
    var w :| w in View(HeldBy(sources)) && AtLeast(w, x);
    WinnerIsDecoded(out, ids, sources, w);
    WinnerIsAttested(sources, w);
    WinnerSupersedes(BlockGens(out), AttestorsOf(sources), w, x);
  }

  lemma WinnerSupersedes(g: Gens, others: set<Gens>, w: Sample, x: Sample)
    requires AtLeast(w, x) && Attested(others, w.series, w.ts, GVOf(w))
    requires w.series in g && w.ts in g[w.series] && g[w.series][w.ts] == GVOf(w)
    ensures SampleSuperseded(g, others, x)
  {
  }

  lemma WinnerIsDecoded(out: Block, ids: seq<string>, sources: seq<Block>, w: Sample)
    requires forall k :: 0 <= k < |sources| ==> WellFormed(sources[k])
    requires IsCompacted(out, ids, sources) && w in View(HeldBy(sources)) && w.series in out.series
    ensures var g := BlockGens(out); w.ts in g[w.series] && g[w.series][w.ts] == GVOf(w)
  {
    CompactedHoldsView(out, ids, sources);
    var s := out.series[w.series];
    assert w in s by {
      var k :| k in out.series && w in out.series[k];
      assert w in SetOf(out.series[k]);
    }
    SeriesGensAreWinners(s);
    var v :| IsWinnerAt(s, w.ts, v) && SeriesGens(s)[w.ts] == GVOf(v);
    assert v in SetOf(s) && v in Held(out);
    ViewUnique(HeldBy(sources), w, v);
  }

  lemma WinnerIsAttested(sources: seq<Block>, w: Sample)
    requires forall k :: 0 <= k < |sources| ==> WellFormed(sources[k])
    requires w in View(HeldBy(sources))
    ensures Attested(AttestorsOf(sources), w.series, w.ts, GVOf(w))
  {
    var j :| 0 <= j < |sources| && w in Held(sources[j]);
    var id :| id in sources[j].series && w in sources[j].series[id];
    var s := sources[j].series[id];
    assert w in SetOf(s);
    SeriesGensAreWinners(s);
    var v :| IsWinnerAt(s, w.ts, v) && SeriesGens(s)[w.ts] == GVOf(v);
    assert v in SetOf(s) && v in Held(sources[j]) && v in HeldBy(sources);
    assert Unbeaten(HeldBy(sources), w);
    OutranksIsStrictTotal(v, w, v);
    assert v == w;
    assert BlockGens(sources[j]) in AttestorsOf(sources) && BlockGens(sources[j])[id][w.ts] == GVOf(w);
  }

  /** A source is superseded by the output exactly when each of its series has a
      sample in some source: an entirely empty series is dropped. */
  lemma CompactedSupersedesIff(outId: string, out: Block, ids: seq<string>, sources: seq<Block>, i: nat)
    requires i < |sources| == |ids| && outId !in ids
    requires forall k :: 0 <= k < |sources| ==> WellFormed(sources[k])
    requires IsCompacted(out, ids, sources)
    ensures Supersedes(outId, BlockGens(out), AttestorsOf(sources), ids[i], sources[i])
      <==> forall id :: id in sources[i].series ==> Gather(sources, id) != []
  {
    assert ids[i] in ids;
    SeriesSuperseded(out, ids, sources, i);
    SupersedesWhenListed(outId, BlockGens(out), AttestorsOf(sources), ids[i], sources[i]);
  }

  lemma SeriesSuperseded(out: Block, ids: seq<string>, sources: seq<Block>, i: nat)
    requires i < |sources| && forall k :: 0 <= k < |sources| ==> WellFormed(sources[k])
    requires IsCompacted(out, ids, sources)
    ensures forall id :: id in sources[i].series ==> (id in BlockGens(out) <==> Gather(sources, id) != [])
    ensures forall id, x :: id in sources[i].series && id in BlockGens(out) && x in sources[i].series[id] ==>
      SampleSuperseded(BlockGens(out), AttestorsOf(sources), x)
  {
    assert forall id :: id in sources[i].series ==> id in SeriesIn(sources);
    forall id, x | id in sources[i].series && id in BlockGens(out) && x in sources[i].series[id]
      ensures SampleSuperseded(BlockGens(out), AttestorsOf(sources), x)
    {
      HeldSample(sources[i], id, x);
      OutputSupersedesSample(out, ids, sources, i, x);
    }
  }

  lemma HeldSample(b: Block, id: nat, x: Sample)
    requires WellFormed(b) && id in b.series && x in b.series[id]
    ensures x in Held(b) && x.series == id
  {
    assert x in SetOf(b.series[id]);
  }

  lemma SupersedesWhenListed(outId: string, g: Gens, others: set<Gens>, srcId: string, src: Block)
    requires outId != srcId
    requires forall id, x :: id in src.series && id in g && x in src.series[id] ==> SampleSuperseded(g, others, x)
    ensures Supersedes(outId, g, others, srcId, src) <==> forall id :: id in src.series ==> id in g
  {
  }

  // ---- CompactOnce ----

  function Swap(blocks: map<string, Block>, group: set<string>, newId: string, out: Block): map<string, Block> {
    Without(blocks, group)[newId := out]
  }

  function Names(ids: seq<string>): set<string> { set n | n in ids }

  function Pick(blocks: map<string, Block>, ids: seq<string>): seq<Block>
    requires forall i :: 0 <= i < |ids| ==> ids[i] in blocks
  {
    seq(|ids|, i requires 0 <= i < |ids| => blocks[ids[i]])
  }

  lemma HeldAfterSwap(blocks: map<string, Block>, group: set<string>, newId: string, out: Block)
    requires newId !in blocks
    ensures AllHeld(Swap(blocks, group, newId, out)) == AllHeld(Without(blocks, group)) + Held(out)
  {
    var kept, sw := Without(blocks, group), Swap(blocks, group, newId, out);
    forall x ensures x in AllHeld(sw) <==> x in AllHeld(kept) + Held(out) {
      if x in Held(out) { assert newId in sw && sw[newId] == out; }
      if x in AllHeld(kept) {
        var n :| n in kept && x in Held(kept[n]);
        assert n in sw && sw[n] == kept[n];
      }
    }
  }

  lemma HeldBeforeSwap(blocks: map<string, Block>, ids: seq<string>)
    requires forall i :: 0 <= i < |ids| ==> ids[i] in blocks
    ensures AllHeld(blocks) == AllHeld(Without(blocks, Names(ids))) + HeldBy(Pick(blocks, ids))
  {
    var kept, sources := Without(blocks, Names(ids)), Pick(blocks, ids);
    forall x | x in AllHeld(blocks) ensures x in AllHeld(kept) + HeldBy(sources) {
      var n :| n in blocks && x in Held(blocks[n]);
      if n in Names(ids) {
        var i :| 0 <= i < |ids| && ids[i] == n;
        assert sources[i] == blocks[n];
      } else {
        assert n in kept && kept[n] == blocks[n];
      }
    }
  }

  /** Swapping the output in for its sources keeps the view of the block list, so no
      QueryRange and no QueryInstant changes (Answers.AnswerDependsOnView). */
  lemma SwapKeepsView(blocks: map<string, Block>, ids: seq<string>, newId: string, out: Block)
    requires AllWellFormed(blocks) && newId !in blocks
    requires forall i :: 0 <= i < |ids| ==> ids[i] in blocks
    requires IsCompacted(out, ids, Pick(blocks, ids))
    ensures View(AllHeld(Swap(blocks, Names(ids), newId, out))) == View(AllHeld(blocks))
  {
    var sources, kept := Pick(blocks, ids), Without(blocks, Names(ids));
    CompactedHoldsView(out, ids, sources);
    HeldAfterSwap(blocks, Names(ids), newId, out);
    HeldBeforeSwap(blocks, ids);
    ViewFirst(HeldBy(sources), AllHeld(kept));
    assert View(HeldBy(sources)) + AllHeld(kept) == AllHeld(kept) + Held(out);
    assert HeldBy(sources) + AllHeld(kept) == AllHeld(kept) + HeldBy(sources);
  }

  // ---- what a restart makes of a compaction it finds ----

  lemma AttestorsAreOthers(present: map<string, Block>, witnesses: map<string, Block>, ids: seq<string>, newId: string)
    requires newId in present && present[newId].sources == ids && newId !in ids
    requires forall i :: 0 <= i < |ids| ==> ids[i] in present
    ensures OthersOf(present, witnesses, newId) == AttestorsOf(Pick(present, ids))
  {
    var bs := Pick(present, ids);
    forall g | g in OthersOf(present, witnesses, newId) ensures g in AttestorsOf(bs) {
      var n :| n in ids && n in present && g == BlockGens(present[n]);
      var i :| 0 <= i < |ids| && ids[i] == n;
      assert bs[i] == present[n];
    }
    forall g | g in AttestorsOf(bs) ensures g in OthersOf(present, witnesses, newId) {
      var i :| 0 <= i < |bs| && g == BlockGens(bs[i]);
      assert ids[i] in present[newId].sources && ids[i] != newId;
    }
  }

  lemma PickGrows(before: map<string, Block>, ids: seq<string>, newId: string, out: Block)
    requires newId !in before && forall i :: 0 <= i < |ids| ==> ids[i] in before
    ensures Pick(before[newId := out], ids) == Pick(before, ids)
  {
  }

  /** A crash after a compaction's output was published and before its sources were
      retired: the next start-up keeps the output and reclaims every source. */
  lemma SourcesAreReclaimed(before: map<string, Block>, witnesses: map<string, Block>, ids: seq<string>, newId: string, out: Block, kept: map<string, Block>)
    requires AllWellFormed(before) && newId !in before && forall i :: 0 <= i < |ids| ==> ids[i] in before
    requires forall n :: n in before ==> newId !in before[n].sources
    requires IsCompacted(out, ids, Pick(before, ids))
    requires forall i, id :: 0 <= i < |ids| && id in before[ids[i]].series ==> Gather(Pick(before, ids), id) != []
    requires KeepsUnchained(before[newId := out], witnesses, kept)
    ensures newId in kept && forall i :: 0 <= i < |ids| ==> ids[i] !in kept
  {
    var present := before[newId := out];
    assert newId !in ids;
    PickGrows(before, ids, newId, out);
    AttestorsAreOthers(present, witnesses, ids, newId);
    assert IsRoot(present, witnesses, newId);
    RootIsUnchained(present, witnesses, newId);
    forall i | 0 <= i < |ids| ensures ids[i] !in kept {
      CompactedSupersedesIff(newId, out, ids, Pick(before, ids), i);
      assert Edge(present, witnesses, newId, ids[i]);
      SupersededGoes(present, witnesses, kept, newId, ids[i]);
    }
  }

  lemma {:induction false} GatherNone(sources: seq<Block>, i: nat, id: nat)
    requires i < |sources| && id in sources[i].series && Gather(sources, id) == []
    ensures sources[i].series[id] == []
  {
    if i < |sources| - 1 {
      GatherNone(sources[..|sources| - 1], i, id);
    }
  }

  class BlockList {
    var blocks: map<string, Block>

    ghost predicate Valid() reads this {
      AllWellFormed(blocks) && forall n :: n in blocks ==> SmallTimes(blocks[n])
    }

    constructor (start: map<string, Block>)
      requires AllWellFormed(start) && forall n :: n in start ==> SmallTimes(start[n])
      ensures Valid() && blocks == start
    {
      blocks := start;
    }

    /** One planned group: merges it in MinTime order, verifies every source against
        the output, and swaps. A group that is too small or names a missing block is
        skipped. */
    method CompactGroup(group: seq<string>, minTimes: map<string, int>, newId: string) returns (r: Result<bool>)
      requires Valid() && newId !in blocks && blocks.Keys <= minTimes.Keys
      modifies this
      ensures Valid()
      ensures r == Ok(false) <==> |group| < 2 || exists i :: 0 <= i < |group| && group[i] !in old(blocks)
      ensures View(AllHeld(blocks)) == old(View(AllHeld(blocks)))
      ensures r != Ok(true) ==> blocks == old(blocks)
      ensures r == Ok(true) ==> newId in blocks && blocks == Swap(old(blocks), Names(group), newId, blocks[newId])
      ensures r == Ok(true) ==> blocks[newId].sources == IdsIn(InOrder(OpenGroup(old(blocks), group, minTimes)))
      ensures r.Err? && r.error.NotSuperseded? ==>
        exists i, id :: 0 <= i < |group| && group[i] in blocks && id in blocks[group[i]].series && blocks[group[i]].series[id] == []
    {
      if |group| < 2 || (exists i :: 0 <= i < |group| && group[i] !in blocks) {
        return Ok(false);
      }
      var merged := MergeGroup(blocks, group, minTimes, newId);
      if merged.Err? {
        return Err(merged.error);
      }
      blocks := Swap(blocks, Names(group), newId, merged.value);
      r := Ok(true);
    }
  }

  /** The group's blocks merged and each verified against the output. */
  method MergeGroup(blocks: map<string, Block>, group: seq<string>, minTimes: map<string, int>, newId: string) returns (r: Result<Block>)
    requires AllWellFormed(blocks) && (forall n :: n in blocks ==> SmallTimes(blocks[n])) && newId !in blocks
    requires forall i :: 0 <= i < |group| ==> group[i] in blocks && group[i] in minTimes
    ensures r.Ok? ==> WellFormed(r.value) && SmallTimes(r.value) && r.value.sources == IdsIn(InOrder(OpenGroup(blocks, group, minTimes)))
    ensures r.Ok? ==> View(AllHeld(Swap(blocks, Names(group), newId, r.value))) == View(AllHeld(blocks))
    ensures r.Err? && r.error.NotSuperseded? ==>
      exists i, id :: 0 <= i < |group| && id in blocks[group[i]].series && blocks[group[i]].series[id] == []
  {
    var sources := OpenGroup(blocks, group, minTimes);
    var c := Compact(sources);
    if c.Err? {
      return Err(c.error);
    }
    var out := c.value;
    ghost var ordered := InOrder(sources);
    OpenedInOrder(blocks, group, minTimes, sources, ordered);
    NewName(blocks, newId, ordered);
    var bad := VerifySources(newId, out, sources, ordered);
    if bad.Some? {
      return Err(NotSuperseded(group[bad.value]));
    }
    SwapKeepsView(blocks, IdsIn(ordered), newId, out);
    CompactedTimes(out, IdsIn(ordered), BlocksIn(ordered));
    r := Ok(out);
  }

  lemma NewName(blocks: map<string, Block>, newId: string, r: seq<Source>)
    requires newId !in blocks && forall i :: 0 <= i < |r| ==> r[i].id in blocks
    ensures newId !in IdsIn(r)
  {
  }

  /** The first source the output does not supersede. */
  method VerifySources(newId: string, out: Block, ss: seq<Source>, ghost r: seq<Source>) returns (bad: Option<nat>)
    requires multiset(r) == multiset(ss) && newId !in IdsIn(r) && forall k :: 0 <= k < |ss| ==> WellFormed(ss[k].block)
    requires IsCompacted(out, IdsIn(r), BlocksIn(r))
    ensures bad.Some? ==> bad.value < |ss| && exists id :: id in ss[bad.value].block.series && ss[bad.value].block.series[id] == []
    ensures bad.None? ==> forall i :: 0 <= i < |ss| ==> Supersedes(newId, BlockGens(out), AttestorsOf(BlocksIn(ss)), ss[i].id, ss[i].block)
  {
    var gens := DecodeBlockGens(out);
    var i := 0;
    while i < |ss|
      invariant 0 <= i <= |ss|
      invariant forall k :: 0 <= k < i ==> Supersedes(newId, BlockGens(out), AttestorsOf(BlocksIn(ss)), ss[k].id, ss[k].block)
    {
      var ok := SurvivorSupersedesSource(newId, gens, AttestorsOf(BlocksIn(ss)), ss[i].id, ss[i].block);
      if !ok {
        NotSupersededMeansEmpty(newId, out, ss, r, i);
        return Some(i);
      }
      i := i + 1;
    }
    bad := None;
  }

  /** The group's blocks as the compactor opens them. */
  function OpenGroup(blocks: map<string, Block>, group: seq<string>, minTimes: map<string, int>): (ss: seq<Source>)
    requires forall i :: 0 <= i < |group| ==> group[i] in blocks && group[i] in minTimes
    ensures |ss| == |group|
  {
    seq(|group|, i requires 0 <= i < |group| => Source(group[i], blocks[group[i]], minTimes[group[i]]))
  }

  lemma OpenedInOrder(blocks: map<string, Block>, group: seq<string>, minTimes: map<string, int>, ss: seq<Source>, r: seq<Source>)
    requires (forall i :: 0 <= i < |group| ==> group[i] in blocks && group[i] in minTimes)
    requires ss == OpenGroup(blocks, group, minTimes) && r == InOrder(ss)
    ensures multiset(r) == multiset(ss) && Names(IdsIn(r)) == Names(group)
    ensures forall i :: 0 <= i < |r| ==> r[i].id in blocks && r[i].block == blocks[r[i].id]
    ensures (forall i :: 0 <= i < |r| ==> IdsIn(r)[i] in blocks) && Pick(blocks, IdsIn(r)) == BlocksIn(r)
  {
    InOrderOk(ss, r);
    forall i | 0 <= i < |r| ensures r[i].id in group && r[i].id in blocks && r[i].block == blocks[r[i].id] { var k := OneMoved(r, ss, i); assert r[i].id == group[k]; }
    forall n | n in Names(group) ensures n in Names(IdsIn(r)) {
      var i :| 0 <= i < |group| && group[i] == n;
      var k := OneMoved(ss, r, i);
      assert IdsIn(r)[k] == n;
    }
    forall n | n in Names(IdsIn(r)) ensures n in Names(group) {
      var k :| 0 <= k < |r| && IdsIn(r)[k] == n;
      assert r[k].id == n;
    }
  }

  lemma SameAttestors(ss: seq<Source>, r: seq<Source>)
    requires multiset(r) == multiset(ss)
    ensures AttestorsOf(BlocksIn(ss)) <= AttestorsOf(BlocksIn(r))
  {
    forall g | g in AttestorsOf(BlocksIn(ss)) ensures g in AttestorsOf(BlocksIn(r)) {
      var i :| 0 <= i < |ss| && g == BlockGens(BlocksIn(ss)[i]);
      var k := OneMoved(ss, r, i);
      assert BlocksIn(r)[k] == BlocksIn(ss)[i];
    }
  }

  /** A source the output does not supersede has a series without samples. */
  lemma NotSupersededMeansEmpty(newId: string, out: Block, ss: seq<Source>, r: seq<Source>, i: nat)
    requires multiset(r) == multiset(ss) && i < |ss| && newId !in IdsIn(r) && forall k :: 0 <= k < |ss| ==> WellFormed(ss[k].block)
    requires IsCompacted(out, IdsIn(r), BlocksIn(r))
    requires !Supersedes(newId, BlockGens(out), AttestorsOf(BlocksIn(ss)), ss[i].id, ss[i].block)
    ensures exists id :: id in ss[i].block.series && ss[i].block.series[id] == []
  {
    AllMoved(ss, r);
    SameAttestors(ss, r);
    SameAttestors(r, ss);
    var k := OneMoved(ss, r, i);
    CompactedSupersedesIff(newId, out, IdsIn(r), BlocksIn(r), k);
    var id :| id in ss[i].block.series && Gather(BlocksIn(r), id) == [];
    GatherNone(BlocksIn(r), k, id);
  }

  lemma CompactedTimes(out: Block, ids: seq<string>, sources: seq<Block>)
    requires forall i :: 0 <= i < |sources| ==> SmallTimes(sources[i])
    requires IsCompacted(out, ids, sources)
    ensures SmallTimes(out)
  {
    forall id, x | id in out.series && x in out.series[id] ensures Int64(x.ts) {
      DedupKeepsElements(Gather(sources, id));
      GatherTimes(sources, id);
    }
  }
}
