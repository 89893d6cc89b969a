/** The head store as an object whose methods update it in place. Each method is
    tied to the functions of module Head, which the crash-safety proof reasons with. */
module MemoryStores {
  import opened Sets
  import opened Options
  import opened Samples
  import opened Chunks
  import opened Answers
  import opened Head

  /** The latest sample at or before t. */
  predicate IsInstant(o: Option<Sample>, S: set<Sample>, t: int) {
    match o
    case None => forall y :: y in S ==> y.ts > t
    case Some(x) => x in S && x.ts <= t && forall y :: y in S && y.ts <= t ==> !Later(y, x)
  }

  /** Reading one series with a range query and an instant query just before the
      range is the reference definition of a select with an anchor. */
  lemma InstantBeforeRangeIsAnchor(o: Option<Sample>, S: set<Sample>, p: Params)
    requires p.Wants()
    ensures IsAnchor(o, S, p) <==> IsInstant(o, S, p.minT - 1)
  {
  }

  /** A query at or before t always answers with the last-write-wins winner. */
  lemma InstantIsWinner(o: Option<Sample>, S: set<Sample>, t: int, id: nat)
    requires OneSeries(S, id) && IsInstant(o, S, t) && o.Some?
    ensures o.value in View(S) && forall y :: y in View(S) && y.ts <= t ==> y.ts <= o.value.ts
  {
    assert Unbeaten(S, o.value);
  }

  /** What Append leaves of the series' slots. */
  function AppendedSlots(s: seq<Slot>, x: Sample, walSeg: int, newId: nat): seq<Slot> {
    if s != [] && !s[|s| - 1].chunk.sealed then s[..|s| - 1] + [Grow(s[|s| - 1], x)]
    else s + [Grow(Slot(NewChunk(newId), walSeg), x)]
  }

  method AppendToSlots(s: seq<Slot>, x: Sample, walSeg: int, newId: nat) returns (slots: seq<Slot>, grown: bool)
    ensures slots == AppendedSlots(s, x, walSeg, newId)
    ensures grown <==> s == [] || s[|s| - 1].chunk.sealed
  {
    slots, grown := s, false;
    if slots == [] || slots[|slots| - 1].chunk.sealed {
      slots, grown := slots + [Slot(NewChunk(newId), walSeg)], true;
    }
    var n := |slots| - 1;
    slots := slots[n := Slot(AppendTo(slots[n].chunk, x), slots[n].seg)];
    assert slots == slots[..n] + [slots[n]];
    assert slots[..n] == if grown then s else s[..n];
  }

  method LatestIn(samples: seq<Sample>, t: int, best0: Option<Sample>, ghost S: set<Sample>) returns (best: Option<Sample>)
    requires IsInstant(best0, S, t)
    ensures IsInstant(best, S + SetOf(samples), t)
  {
    best := best0;
    var k := 0;
    assert S + SetOf(samples[..0]) == S;
    while k < |samples|
      invariant 0 <= k <= |samples|
      invariant IsInstant(best, S + SetOf(samples[..k]), t)
    {
      var x := samples[k];
      assert samples[..k + 1] == samples[..k] + [x];
      SetOfAppend(samples[..k], x);
      if x.ts <= t && (best.None? || Later(x, best.value)) { best := Some(x); }
      k := k + 1;
    }
    assert samples[..k] == samples;
  }

  /** r is the smallest fence in fs, or -1 when fs is empty. */
  ghost predicate Least(fs: set<Slot>, r: int) {
    if fs == {} then r == -1 else (forall f :: f in fs ==> 0 <= r <= f.seg) && exists f :: f in fs && f.seg == r
  }

  function SlotsOf(h: Head, ids: set<nat>): set<Slot> {
    set id, f | id in h && id in ids && f in h[id] :: f
  }

  method OldestOf(h: Head) returns (oldest: int)
    requires HeadOk(h)
    ensures IsOldest(h, oldest)
  {
    oldest := -1;
    var todo := h.Keys;
    assert SlotsOf(h, {}) == {};
    while todo != {}
      invariant todo <= h.Keys && Least(SlotsOf(h, h.Keys - todo), oldest)
      decreases todo
    {
      var id :| id in todo;
      assert SlotsOf(h, h.Keys - (todo - {id})) == SlotsOf(h, h.Keys - todo) + SlotsIn(h[id]);
      oldest := OldestIn(h[id], id, oldest, SlotsOf(h, h.Keys - todo));
      todo := todo - {id};
    }
    assert h.Keys - {} == h.Keys;
    assert SlotsOf(h, h.Keys) == Slots(h);
  }

  method OldestIn(s: seq<Slot>, id: nat, oldest0: int, ghost before: set<Slot>) returns (oldest: int)
    requires Least(before, oldest0) && forall f :: f in s ==> SlotOk(f, id)
    ensures Least(before + SlotsIn(s), oldest)
  {
    oldest := oldest0;
    var i := 0;
    assert before + SlotsIn(s[..0]) == before;
    while i < |s|
      invariant 0 <= i <= |s| && Least(before + SlotsIn(s[..i]), oldest)
    {
      var f := s[i];
      assert s[..i + 1] == s[..i] + [f];
      assert before + SlotsIn(s[..i + 1]) == before + SlotsIn(s[..i]) + {f};
      assert f in s && f.seg >= 0;
      if oldest < 0 || f.seg < oldest { oldest := f.seg; }
      i := i + 1;
    }
    assert s[..i] == s;
  }

  method FenceEach(h: Head, walSeg: int) returns (out: Head)
    ensures out == SetFence(h, walSeg)
  {
    out := map[];
    var todo := h.Keys;
    while todo != {}
      invariant todo <= h.Keys && out.Keys == h.Keys - todo
      invariant forall id :: id in out ==> out[id] == Refence(h[id], walSeg)
      decreases todo
    {
      var id :| id in todo;
      var slots := h[id];
      var i := 0;
      while i < |slots|
        invariant 0 <= i <= |slots| == |h[id]|
        invariant forall k :: 0 <= k < |slots| ==> slots[k] == if k < i then h[id][k].(seg := walSeg) else h[id][k]
      {
        slots := slots[i := slots[i].(seg := walSeg)];
        i := i + 1;
      }
      assert slots == Refence(h[id], walSeg);
      out := out[id := slots];
      todo := todo - {id};
    }
  }

  lemma FewerSeries(h: Head, gone: set<nat>, n: nat)
    requires HeadOk(h) && UniqueIds(h) && IdsBelow(h, n)
    ensures HeadOk(h - gone) && UniqueIds(h - gone) && IdsBelow(h - gone, n)
  {
  }

  /** The series whose last chunk is open and holds something. */
  function Unsealed(h: Head): set<nat> {
    set id | id in h && SealLast(h[id]) != h[id]
  }

  lemma UnsealedIff(h: Head, id: nat)
    ensures id in Unsealed(h) <==> id in h && h[id] != [] && var c := h[id][|h[id]| - 1].chunk; !c.sealed && c.samples != []
  {
    if id in h && h[id] != [] {
      var n := |h[id]| - 1;
      if !h[id][n].chunk.sealed && h[id][n].chunk.samples != [] { assert SealLast(h[id])[n].chunk.sealed; }
    }
  }

  /** Every series but those still to do is sealed. */
  ghost predicate SealedBut(h: Head, out: Head, todo: set<nat>) {
    todo <= h.Keys && out.Keys == h.Keys - todo && forall id :: id in out ==> out[id] == SealLast(h[id])
  }

  lemma SealOne(h: Head, out: Head, todo: set<nat>, id: nat, s: seq<Slot>)
    requires SealedBut(h, out, todo) && id in todo && s == SealLast(h[id])
    ensures SealedBut(h, out[id := s], todo - {id})
  {
    var out' := out[id := s];
    assert out'.Keys == out.Keys + {id} == h.Keys - (todo - {id});
    forall k | k in out' ensures out'[k] == SealLast(h[k]) {
      if k != id { assert k in out; }
    }
  }

  lemma CountSealed(h: Head, todo: set<nat>, id: nat, s: seq<Slot>)
    requires id in todo && id in h && s == SealLast(h[id])
    ensures |Unsealed(h) - (todo - {id})| == |Unsealed(h) - todo| + (if s != h[id] then 1 else 0)
  {
    LessToDo(Unsealed(h), todo, id);
  }

  lemma AllSealed(h: Head, out: Head)
    requires SealedBut(h, out, {})
    ensures out == SealHead(h) && Unsealed(h) - {} == Unsealed(h)
  {
    assert out.Keys == h.Keys;
  }

  method SealEach(h: Head) returns (out: Head, n: nat)
    ensures out == SealHead(h) && n == |Unsealed(h)|
  {
    n, out := 0, map[];
    var todo := h.Keys;
    assert Unsealed(h) - todo == {};
    while todo != {}
      invariant SealedBut(h, out, todo) && n == |Unsealed(h) - todo|
      decreases todo
    {
      var id :| id in todo;
      var s := SealLast(h[id]);
      SealOne(h, out, todo, id, s);
      CountSealed(h, todo, id, s);
      if s != h[id] { n := n + 1; }
      out := out[id := s];
      todo := todo - {id};
    }
    AllSealed(h, out);
  }

  ghost predicate DroppedBut(h: Head, out: Head, drop: set<nat>, todo: set<nat>) {
    todo <= h.Keys && out.Keys == h.Keys - todo && forall id :: id in out ==> out[id] == Keep(h[id], drop)
  }

  lemma DropOne(h: Head, out: Head, drop: set<nat>, todo: set<nat>, id: nat)
    requires DroppedBut(h, out, drop, todo) && id in todo
    ensures DroppedBut(h, out[id := Keep(h[id], drop)], drop, todo - {id})
  {
  }

  lemma AllDropped(h: Head, out: Head, drop: set<nat>)
    requires DroppedBut(h, out, drop, {})
    ensures out == Discard(h, drop)
  {
    assert out.Keys == h.Keys;
  }

  method DropEach(h: Head, drop: set<nat>) returns (out: Head)
    ensures out == Discard(h, drop)
  {
    out := map[];
    var todo := h.Keys;
    while todo != {}
      invariant DroppedBut(h, out, drop, todo)
      decreases todo
    {
      var id :| id in todo;
      DropOne(h, out, drop, todo, id);
      var kept := KeepEach(h[id], drop);
      out := out[id := kept];
      todo := todo - {id};
    }
    AllDropped(h, out, drop);
  }

  method KeepEach(s: seq<Slot>, drop: set<nat>) returns (kept: seq<Slot>)
    ensures kept == Keep(s, drop)
  {
    kept := [];
    var i := 0;
    while i < |s|
      invariant 0 <= i <= |s| && kept == Keep(s[..i], drop)
    {
      assert s[..i + 1][..i] == s[..i];
      if s[i].chunk.id !in drop { kept := kept + [s[i]]; }
      i := i + 1;
    }
    assert s[..i] == s;
  }

  class MemoryStore {
    var series: Head
    var nextGen: int  // the smallest generation the next append may take
    var nextId: nat   // identity of the next chunk to be allocated

    ghost predicate Valid() reads this {
      Sound(series, nextId) && nextGen >= 1
    }

    constructor ()
      ensures Valid() && series == map[] && nextGen == 1 && nextId == 0
    {
      series, nextGen, nextId := map[], 1, 0;
    }

    /** max(nextGen, clock), or exhaustion with nothing changed. */
    method NextGeneration(clock: int) returns (gen: Option<int>)
      requires Valid()
      modifies this`nextGen
      ensures Valid()
      ensures gen.None? <==> Max(old(nextGen), clock) > MAX_GENERATION
      ensures gen.None? ==> nextGen == old(nextGen)
      ensures gen.Some? ==> gen.value == Max(old(nextGen), clock) && nextGen == gen.value + 1
    {
      var g := Max(nextGen, clock);
      if g > MAX_GENERATION {
        return None;
      }
      nextGen := g + 1;
      gen := Some(g);
    }

    /** Settles the generation before any mutation, then appends. A given generation
        raises the counter past it; 0 asks for a new one. */
    method AppendInternal(id: nat, ts: int, bits: nat, walSeg: int, gen: int, clock: int) returns (done: Option<Sample>)
      requires Valid() && Int64(ts) && walSeg >= 0 && gen >= 0
      modifies this
      ensures Valid()
      ensures done.None? <==> (if gen == 0 then Max(old(nextGen), clock) else gen) > MAX_GENERATION
      ensures done.None? ==> series == old(series) && nextGen == old(nextGen) && nextId == old(nextId)
      ensures done.Some? ==>
        done.value == Sample(id, ts, bits, if gen == 0 then Max(old(nextGen), clock) else gen)
      ensures done.Some? ==> series == Append(old(series), done.value, walSeg, old(nextId))
      ensures done.Some? ==> nextGen == Max(old(nextGen), done.value.gen + 1)
      ensures done.Some? ==> nextId == old(nextId) + (if HasOpen(old(series), id) then 0 else 1)
    {
      var g := gen;
      if g == 0 {
        var o := NextGeneration(clock);
        if o.None? { return None; }
        g := o.value;
      } else {
        if g > MAX_GENERATION { return None; }
        if g >= nextGen { nextGen := g + 1; }
      }
      var x := Sample(id, ts, bits, g);
      AppendSlots(series, x, walSeg, nextId);
      AppendUnique(series, x, walSeg, nextId);
      var slots, grown := AppendToSlots(if id in series then series[id] else [], x, walSeg, nextId);
      series := series[id := slots];
      if grown { nextId := nextId + 1; }
      done := Some(x);
    }

    method EnsureGenFloor(floor: int)
      requires Valid()
      modifies this`nextGen
      ensures Valid() && nextGen == Max(old(nextGen), floor)
    {
      if floor > nextGen { nextGen := floor; }
    }

    /** The smallest segment any chunk still in memory was allocated in, sealed or
        not; -1 when there is none. */
    method OldestHeadSegment() returns (oldest: int)
      requires Valid()
      ensures IsOldest(series, oldest)
    {
      oldest := OldestOf(series);
    }

    /** After a replay: every chunk may hold samples of any segment from walSeg on. */
    method SetHeadFence(walSeg: int)
      requires Valid() && walSeg >= 0
      modifies this`series
      ensures Valid() && series == SetFence(old(series), walSeg)
    {
      FenceSound(series, walSeg, nextId);
      series := FenceEach(series, walSeg);
    }

    /** Seals every open, non-empty head chunk, and answers how many there were. */
    method SealHeadChunks() returns (n: nat)
      requires Valid()
      modifies this`series
      ensures Valid() && series == SealHead(old(series))
      ensures n == |Unsealed(old(series))|
    {
      SealSound(series, nextId);
      series, n := SealEach(series);
    }

    method EmptyHeadSeriesIDs() returns (ids: set<nat>)
      requires Valid()
      ensures ids == set id | id in series && series[id] == []
    {
      ids := {};
      var todo := series.Keys;
      while todo != {}
        invariant todo <= series.Keys && ids == set id | id in series && id !in todo && series[id] == []
        decreases todo
      {
        var id :| id in todo;
        if series[id] == [] { ids := ids + {id}; }
        todo := todo - {id};
      }
    }

    /** Forgets a series, but only while its head holds nothing. */
    method RemoveEmptySeries(id: nat) returns (removed: bool)
      requires Valid()
      modifies this`series
      ensures Valid() && (removed <==> id in old(series) && old(series)[id] == [])
      ensures series == if removed then old(series) - {id} else old(series)
    {
      if id !in series || series[id] != [] { return false; }
      FewerSeries(series, {id}, nextId);
      series := series - {id};
      removed := true;
    }

    method SealedChunksSnapshot() returns (snap: set<Chunk>)
      requires Valid()
      ensures snap == SealedChunks(series)
    {
      snap := {};
      var todo := series.Keys;
      while todo != {}
        invariant todo <= series.Keys
        invariant snap == set id, f | id in series && id !in todo && f in series[id] && f.chunk.sealed :: f.chunk
        decreases todo
      {
        var id :| id in todo;
        snap := snap + set f | f in series[id] && f.chunk.sealed :: f.chunk;
        todo := todo - {id};
      }
    }

    /** Removes exactly the listed chunks, by identity: one that sealed after the
        snapshot stays. */
    method DiscardSealedChunks(drop: set<nat>)
      requires Valid()
      modifies this`series
      ensures Valid() && series == Discard(old(series), drop)
    {
      DiscardSound(series, drop, nextId);
      series := DropEach(series, drop);
    }

    /** One series' in-range samples, sorted, one winner per timestamp. */
    method QueryRange(id: nat, start: int, end: int) returns (samples: seq<Sample>)
      requires Valid()
      ensures IsAnswer(Answer(None, samples), OfSeries(HeadSamples(series), id), Params(start, end, false))
    {
      SeriesSamples(series, id);
      if id !in series {
        assert InRange({}, Params(start, end, false)) == {};
        return [];
      }
      var s := series[id];
      forall i | 0 <= i < |s| ensures SlotOk(s[i], id) { assert s[i] in s; }
      ChunksHold(s);
      var a := SelectFromChunks(ChunksOf(s), id, Params(start, end, false));
      samples := a.samples;
    }

    /** The latest sample at or before t, skipping chunks that start later. */
    method QueryInstant(id: nat, t: int) returns (best: Option<Sample>)
      requires Valid()
      ensures IsInstant(best, OfSeries(HeadSamples(series), id), t)
    {
      best := None;
      SeriesSamples(series, id);
      if id !in series { return; }
      var s := series[id];
      var i := 0;
      while i < |s|
        invariant 0 <= i <= |s|
        invariant IsInstant(best, SlotSamples(SlotsIn(s[..i])), t)
      {
        assert s[i] in s && SlotOk(s[i], id);
        assert s[..i + 1] == s[..i] + [s[i]];
        SlotSamplesStep(s[..i], s[i]);
        var c := s[i].chunk;
        if c.samples != [] && c.minTs <= t {
          best := LatestIn(c.samples, t, best, SlotSamples(SlotsIn(s[..i])));
        }
        i := i + 1;
      }
      assert s[..i] == s;
    }
  }

  /** The chunks of a series, in order. */
  function ChunksOf(s: seq<Slot>): (cs: seq<Chunk>)
    ensures |cs| == |s|
  {
    seq(|s|, i requires 0 <= i < |s| => s[i].chunk)
  }

  lemma ChunksHold(s: seq<Slot>)
    ensures SamplesOf(ChunksOf(s)) == SlotSamples(SlotsIn(s))
  {
    forall x | x in SlotSamples(SlotsIn(s)) ensures x in SamplesOf(ChunksOf(s)) {
      var f :| f in SlotsIn(s) && x in f.chunk.samples;
      var i :| 0 <= i < |s| && s[i] == f;
      assert ChunksOf(s)[i] == f.chunk;
    }
    forall x | x in SamplesOf(ChunksOf(s)) ensures x in SlotSamples(SlotsIn(s)) {
      var i :| 0 <= i < |s| && x in ChunksOf(s)[i].samples;
      assert s[i] in SlotsIn(s);
    }
  }

  function SlotsIn(s: seq<Slot>): set<Slot> { set f | f in s }

  lemma SlotSamplesStep(s: seq<Slot>, f: Slot)
    ensures SlotSamples(SlotsIn(s + [f])) == SlotSamples(SlotsIn(s)) + SetOf(f.chunk.samples)
  {
    assert SlotsIn(s + [f]) == SlotsIn(s) + {f};
  }

  lemma SeriesSamples(h: Head, id: nat)
    requires HeadOk(h)
    ensures OfSeries(HeadSamples(h), id) == if id in h then SlotSamples(SlotsIn(h[id])) else {}
  {
    forall x | x in OfSeries(HeadSamples(h), id) ensures id in h && x in SlotSamples(SlotsIn(h[id])) {
      var f :| f in Slots(h) && x in f.chunk.samples;
      var k :| k in h && f in h[k];
      assert SlotOk(f, k) && x in SetOf(f.chunk.samples);
    }
    if id in h {
      forall x | x in SlotSamples(SlotsIn(h[id])) ensures x in OfSeries(HeadSamples(h), id) {
        var f :| f in SlotsIn(h[id]) && x in f.chunk.samples;
        assert f in h[id] && SlotOk(f, id) && x in SetOf(f.chunk.samples);
        assert f in Slots(h);
      }
    }
  }
}
