/** What the head's operations do, chunk by chunk: an append changes one chunk of one
    series, only a series' last chunk is ever open, and sealing closes them all. */
module HeadShape {
  import opened Sets
  import opened Samples
  import opened Chunks
  import opened Head

  /** No chunk is empty, and only the last of a series is open. */
  predicate SeriesShaped(s: seq<Slot>) {
    && (forall i :: 0 <= i < |s| ==> s[i].chunk.samples != [])
    && (forall i :: 0 <= i < |s| - 1 ==> s[i].chunk.sealed)
  }

  predicate Shaped(h: Head) { forall id :: id in h ==> SeriesShaped(h[id]) }

  /** x joins the series' last chunk when that is open, and its fence stays; otherwise a
      chunk of x alone is added, open and fenced at walSeg. Nothing else changes. */
  lemma AppendTouchesOneChunk(h: Head, x: Sample, walSeg: int, newId: nat)
    ensures var h' := Append(h, x, walSeg, newId);
      && h'.Keys == h.Keys + {x.series} && (forall id :: id in h && id != x.series ==> h'[id] == h[id])
      && var s := (if x.series in h then h[x.series] else []);
      var s' := h'[x.series];
      if s != [] && !s[|s| - 1].chunk.sealed then
        var open, grown := s[|s| - 1], s'[|s'| - 1];
        |s'| == |s| && s'[..|s| - 1] == s[..|s| - 1]
        && grown.seg == open.seg && grown.chunk.id == open.chunk.id && grown.chunk.samples == open.chunk.samples + [x]
      else
        s' == s + [Slot(Chunk(newId, [x], x.ts, x.ts, false), walSeg)]
  {
    var h' := Append(h, x, walSeg, newId);
    if HasOpen(h, x.series) {
      var s, s' := h[x.series], h'[x.series];
      assert s'[..|s| - 1] == s[..|s| - 1];
    }
  }

  lemma AppendKeepsShape(h: Head, x: Sample, walSeg: int, newId: nat)
    requires Shaped(h)
    ensures Shaped(Append(h, x, walSeg, newId))
  {
    AppendTouchesOneChunk(h, x, walSeg, newId);
    var h' := Append(h, x, walSeg, newId);
    var s, s' := (if x.series in h then h[x.series] else []), h'[x.series];
    assert SeriesShaped(s);
    forall i | 0 <= i < |s'| ensures s'[i].chunk.samples != [] && (i < |s'| - 1 ==> s'[i].chunk.sealed) {
      if i < |s| - 1 {
        assert s'[..|s| - 1] == s[..|s| - 1] ==> s'[i] == s'[..|s| - 1][i] == s[i];
      }
    }
  }

  lemma {:induction false} ReplayShaped(records: seq<Sample>)
    ensures Shaped(Replay(records))
  {
    if records != [] {
      var n := |records| - 1;
      ReplayShaped(records[..n]);
      AppendKeepsShape(Replay(records[..n]), records[n], 0, n);
    }
  }

  lemma FenceKeepsShape(h: Head, seg: int)
    requires Shaped(h)
    ensures Shaped(SetFence(h, seg))
  {
    forall id: nat | id in h ensures SeriesShaped(Refence(h[id], seg)) {
      assert SeriesShaped(h[id]);
    }
  }

  lemma {:induction false} KeepShaped(s: seq<Slot>, drop: set<nat>)
    requires SeriesShaped(s)
    ensures SeriesShaped(Keep(s, drop))
  {
    if s != [] {
      var n := |s| - 1;
      KeepShaped(s[..n], drop);
      var r := Keep(s[..n], drop);
      forall i | 0 <= i < |r| ensures r[i].chunk.sealed { assert r[i] in r; }
    }
  }

  /** Dropping sealed chunks, or any, leaves no gap a later append would fill. */
  lemma DiscardKeepsShape(h: Head, drop: set<nat>)
    requires Shaped(h)
    ensures Shaped(Discard(h, drop))
  {
    forall id: nat | id in h ensures SeriesShaped(Keep(h[id], drop)) { KeepShaped(h[id], drop); }
  }

  /** Sealing closes the whole head: a flush can then take all of it. */
  lemma SealsEverything(h: Head)
    requires Shaped(h)
    ensures Shaped(SealHead(h)) && forall f :: f in Slots(SealHead(h)) ==> f.chunk.sealed
  {
    var h': Head := SealHead(h);
    forall id: nat | id in h ensures SeriesShaped(h'[id]) && forall f :: f in h'[id] ==> f.chunk.sealed {
      SealsSeries(h[id]);
    }
  }

  lemma SealsSeries(s: seq<Slot>)
    requires SeriesShaped(s)
    ensures SeriesShaped(SealLast(s)) && forall f :: f in SealLast(s) ==> f.chunk.sealed
  {
    var t := SealLast(s);
    assert |t| == |s| && forall i :: 0 <= i < |s| - 1 ==> t[i] == s[i];
  }
}
