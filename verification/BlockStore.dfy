/** Reading one series from the head and every block at once. */
module BlockStores {
  import opened Options
  import opened Samples
  import opened Chunks
  import opened Answers
  import opened Head
  import opened Reclaim
  import opened MemoryStores
  import Compaction

  /** An open block with the time bounds its chunks were reconciled to. */
  datatype OpenBlock = OpenBlock(block: Block, minTime: int, maxTime: int)

  predicate BoundsOk(b: OpenBlock) {
    WellFormed(b.block) && forall x :: x in Held(b.block) ==> b.minTime <= x.ts <= b.maxTime
  }

  function HeldIn(bs: seq<OpenBlock>): set<Sample> {
    set i, x | 0 <= i < |bs| && x in Held(bs[i].block) :: x
  }

  lemma HeldNext(bs: seq<OpenBlock>, i: nat)
    requires i < |bs|
    ensures HeldIn(bs[..i + 1]) == HeldIn(bs[..i]) + Held(bs[i].block)
  {
    var a, b := bs[..i], bs[..i + 1];
    assert b[i] == bs[i] && forall k :: 0 <= k < i ==> b[k] == a[k];
    forall x | x in HeldIn(a) ensures x in HeldIn(b) {
      var k :| 0 <= k < i && x in Held(a[k].block);
      assert x in Held(b[k].block);
    }
  }

  lemma SeriesOfBlock(b: Block, id: nat)
    requires WellFormed(b)
    ensures OfSeries(Held(b), id) == if id in b.series then SetOf(b.series[id]) else {}
  {
    forall x | x in OfSeries(Held(b), id) ensures id in b.series && x in b.series[id] {
      var k :| k in b.series && x in b.series[k];
      assert x in SetOf(b.series[k]);
    }
    if id in b.series {
      forall x | x in b.series[id] ensures x in OfSeries(Held(b), id) {
        assert x in SetOf(b.series[id]) && x in Held(b);
      }
    }
  }

  /** A block whose bounds miss the range has nothing to add. */
  lemma SkippedBlock(b: OpenBlock, id: nat, p: Params)
    requires BoundsOk(b) && (b.maxTime < p.minT || b.minTime > p.maxT)
    ensures InRange(OfSeries(Held(b.block), id), p) == {}
  {
  }

  method ScanRange(s: seq<Sample>, p: Params) returns (r: seq<Sample>)
    ensures SetOf(r) == InRange(SetOf(s), p)
  {
    r := [];
    var i := 0;
    while i < |s|
      invariant 0 <= i <= |s| && SetOf(r) == InRange(SetOf(s[..i]), p)
    {
      assert s[..i + 1] == s[..i] + [s[i]];
      SetOfAppend(s[..i], s[i]);
      SetOfAppend(r, s[i]);
      InRangeUnion(SetOf(s[..i]), {s[i]}, p);
      if s[i].ts >= p.minT && s[i].ts <= p.maxT { r := r + [s[i]]; }
      i := i + 1;
    }
    assert s[..i] == s;
  }

  /** The in-range samples of the blocks, in whatever order they come. */
  method ScanBlocks(blocks: seq<OpenBlock>, id: nat, p: Params) returns (r: seq<Sample>)
    requires forall i :: 0 <= i < |blocks| ==> BoundsOk(blocks[i])
    ensures SetOf(r) == InRange(OfSeries(HeldIn(blocks), id), p)
  {
    r := [];
    var i := 0;
    assert HeldIn(blocks[..0]) == {};
    assert SetOf([]) == {};
    while i < |blocks|
      invariant 0 <= i <= |blocks| && SetOf(r) == InRange(OfSeries(HeldIn(blocks[..i]), id), p)
    {
      var b := blocks[i];
      HeldNext(blocks, i);
      OfSeriesUnion(HeldIn(blocks[..i]), Held(b.block), id);
      InRangeUnion(OfSeries(HeldIn(blocks[..i]), id), OfSeries(Held(b.block), id), p);
      SeriesOfBlock(b.block, id);
      if b.maxTime < p.minT || b.minTime > p.maxT {
        SkippedBlock(b, id, p);
      } else if id in b.block.series {
        var more := ScanRange(b.block.series[id], p);
        SetOfConcat(r, more);
        r := r + more;
      }
      i := i + 1;
    }
    assert blocks[..i] == blocks;
  }

  /** BlockStore.QueryRange: one sample per timestamp, the winner over head and blocks,
      in time order. */
  method QueryRange(mem: MemoryStore, blocks: seq<OpenBlock>, id: nat, start: int, end: int) returns (samples: seq<Sample>)
    requires mem.Valid() && forall i :: 0 <= i < |blocks| ==> BoundsOk(blocks[i])
    ensures IsAnswer(Answer(None, samples), OfSeries(HeadSamples(mem.series) + HeldIn(blocks), id), Params(start, end, false))
  {
    var p := Params(start, end, false);
    var memResult := mem.QueryRange(id, start, end);
    var result := ScanBlocks(blocks, id, p);
    MergeHead(result, memResult, HeadSamples(mem.series), HeldIn(blocks), id, p);
    result := result + memResult;
    if |result| <= 1 {
      assert SortAndDedup(result) == result;
      return result;
    }
    samples := SortAndDedup(result);
  }

  lemma MergeHead(fromBlocks: seq<Sample>, fromHead: seq<Sample>, H: set<Sample>, B: set<Sample>, id: nat, p: Params)
    requires SetOf(fromBlocks) == InRange(OfSeries(B, id), p) && SetOf(fromHead) == View(InRange(OfSeries(H, id), p))
    ensures Ascending(SortAndDedup(fromBlocks + fromHead))
    ensures SetOf(SortAndDedup(fromBlocks + fromHead)) == View(InRange(OfSeries(H + B, id), p))
  {
    OfSeriesUnion(H, B, id);
    InRangeUnion(OfSeries(H, id), OfSeries(B, id), p);
    SetOfConcat(fromBlocks, fromHead);
    SortAndDedupIsView(fromBlocks + fromHead, id);
    ViewFirst(InRange(OfSeries(H, id), p), InRange(OfSeries(B, id), p));
    var h, b := View(InRange(OfSeries(H, id), p)), InRange(OfSeries(B, id), p);
    assert b + h == h + b;
  }

  // ---- QueryInstant ----

  /** BlockStore.QueryInstant: the latest sample at or before t over head and blocks,
      the winner at its timestamp. */
  method QueryInstant(mem: MemoryStore, blocks: seq<OpenBlock>, id: nat, t: int) returns (best: Option<Sample>)
    requires mem.Valid() && forall i :: 0 <= i < |blocks| ==> BoundsOk(blocks[i])
    ensures IsInstant(best, OfSeries(HeadSamples(mem.series) + HeldIn(blocks), id), t)
  {
    best := mem.QueryInstant(id, t);
    ghost var H := HeadSamples(mem.series);
    var i := 0;
    assert HeldIn(blocks[..0]) == {};
    assert H + {} == H;
    while i < |blocks|
      invariant 0 <= i <= |blocks| && IsInstant(best, OfSeries(H + HeldIn(blocks[..i]), id), t)
    {
      var b := blocks[i];
      HeldNext(blocks, i);
      ghost var S := OfSeries(H + HeldIn(blocks[..i]), id);
      OfSeriesUnion(H + HeldIn(blocks[..i]), Held(b.block), id);
      assert H + HeldIn(blocks[..i + 1]) == H + HeldIn(blocks[..i]) + Held(b.block);
      SeriesOfBlock(b.block, id);
      if b.minTime > t {
        LaterBlock(best, S, b, id, t);
      } else if id in b.block.series {
        best := LatestIn(b.block.series[id], t, best, S);
      }
      i := i + 1;
    }
    assert blocks[..i] == blocks;
  }

  lemma LaterBlock(best: Option<Sample>, S: set<Sample>, b: OpenBlock, id: nat, t: int)
    requires BoundsOk(b) && b.minTime > t && IsInstant(best, S, t)
    ensures IsInstant(best, S + OfSeries(Held(b.block), id), t)
  {
  }

  // ---- what no query can see ----

  lemma InstantDependsOnView(o: Option<Sample>, S: set<Sample>, T: set<Sample>, t: int, id: nat)
    requires OneSeries(S, id) && OneSeries(T, id) && View(S) == View(T) && IsInstant(o, S, t)
    ensures IsInstant(o, T, t)
  {
    SameViewIff(S, T);
    forall y | y in T && y.ts <= t ensures o.Some? && !Later(y, o.value) {
      assert Covers(S, y);
      var z :| z in S && AtLeast(z, y);
    }
    if o.Some? {
      assert Unbeaten(S, o.value);
      assert o.value in View(S);
    }
  }

  lemma SameSeriesView(H: set<Sample>, A: set<Sample>, B: set<Sample>, id: nat)
    requires View(A) == View(B)
    ensures View(OfSeries(H + A, id)) == View(OfSeries(H + B, id))
  {
    ViewFirst(A, H);
    ViewFirst(B, H);
    assert H + A == A + H && H + B == B + H;
    Compaction.OfSeriesView(H + A, id);
    Compaction.OfSeriesView(H + B, id);
  }

  /** Swapping a compaction's output in for its sources leaves every QueryRange and
      every QueryInstant answer of every series unchanged. */
  lemma CompactionKeepsAnswers(H: set<Sample>, blocks: map<string, Block>, ids: seq<string>, newId: string, out: Block, id: nat,
                               samples: seq<Sample>, start: int, end: int, o: Option<Sample>, t: int)
    requires AllWellFormed(blocks) && newId !in blocks && forall i :: 0 <= i < |ids| ==> ids[i] in blocks
    requires Compaction.IsCompacted(out, ids, Compaction.Pick(blocks, ids))
    requires IsAnswer(Answer(None, samples), OfSeries(H + AllHeld(blocks), id), Params(start, end, false))
    requires IsInstant(o, OfSeries(H + AllHeld(blocks), id), t)
    ensures var after := AllHeld(Compaction.Swap(blocks, Compaction.Names(ids), newId, out));
      IsAnswer(Answer(None, samples), OfSeries(H + after, id), Params(start, end, false)) && IsInstant(o, OfSeries(H + after, id), t)
  {
    var before, after := AllHeld(blocks), AllHeld(Compaction.Swap(blocks, Compaction.Names(ids), newId, out));
    Compaction.SwapKeepsView(blocks, ids, newId, out);
    SameSeriesView(H, before, after, id);
    AnswerDependsOnView(Answer(None, samples), OfSeries(H + before, id), OfSeries(H + after, id), id, Params(start, end, false));
    InstantDependsOnView(o, OfSeries(H + before, id), OfSeries(H + after, id), t, id);
  }

  /** The same for start-up reclamation, whatever part of it has happened. */
  lemma ReclaimKeepsAnswers(H: set<Sample>, present: map<string, Block>, witnesses: map<string, Block>, vb: VerifiedBy, R: set<string>, M: set<string>,
                            id: nat, samples: seq<Sample>, start: int, end: int, o: Option<Sample>, t: int)
    requires AllWellFormed(present) && IsVerifiedBy(present, witnesses, vb) && LeastClosed(vb, R) && M <= R
    requires IsAnswer(Answer(None, samples), OfSeries(H + AllHeld(present), id), Params(start, end, false))
    requires IsInstant(o, OfSeries(H + AllHeld(present), id), t)
    ensures var after := AllHeld(Without(present, M));
      IsAnswer(Answer(None, samples), OfSeries(H + after, id), Params(start, end, false)) && IsInstant(o, OfSeries(H + after, id), t)
  {
    var before, after := AllHeld(present), AllHeld(Without(present, M));
    ReclaimKeepsView(present, witnesses, vb, R, M);
    SameSeriesView(H, before, after, id);
    AnswerDependsOnView(Answer(None, samples), OfSeries(H + before, id), OfSeries(H + after, id), id, Params(start, end, false));
    InstantDependsOnView(o, OfSeries(H + before, id), OfSeries(H + after, id), t, id);
  }
}
