/** A block's reader: what it opens, what it checks of the chunk places, and that a
    committed block gives back each series, its labels and its chunks. */
module BlockReader {
  import opened Sets
  import opened Options
  import opened BitStreams
  import opened Chunks
  import opened ChunkCodec
  import opened Varints
  import opened Postings
  import opened BlockIndex
  import opened BlockWriter
  import PostingsFile

  // ---- opening ----

  predicate DistinctIds(es: seq<SeriesEntry>) {
    forall i, j :: 0 <= i < j < |es| ==> es[i].id != es[j].id
  }

  /** The labels the index declares. */
  function Declared(es: seq<SeriesEntry>): Forward {
    if es == [] then map[] else Declared(es[..|es| - 1])[es[|es| - 1].id := PairSet(es[|es| - 1].labels)]
  }

  /** An index that parses, no id twice, and postings that agree with its labels. */
  ghost predicate Opens(x: Files) {
    var es := ReadIndex(x.index);
    es.Some? && DistinctIds(es.value) && PostingsFile.Acceptable(x.postings, Declared(es.value))
  }

  datatype Reader = Reader(entries: seq<SeriesEntry>, byID: map<nat, nat>, postings: PostingsFile.Loaded)

  /** The index of each id; false for an id that comes twice. */
  method BuildSeriesByID(es: seq<SeriesEntry>) returns (ok: bool, byID: map<nat, nat>)
    ensures ok <==> DistinctIds(es)
    ensures ok ==> forall id :: id in byID <==> exists i :: 0 <= i < |es| && es[i].id == id
    ensures ok ==> forall i :: 0 <= i < |es| ==> byID[es[i].id] == i
  {
    byID := map[];
    var i := 0;
    while i < |es|
      invariant 0 <= i <= |es| && forall j, k :: 0 <= j < k < i ==> es[j].id != es[k].id
      invariant forall id :: id in byID <==> exists j :: 0 <= j < i && es[j].id == id
      invariant forall j :: 0 <= j < i ==> byID[es[j].id] == j
    {
      if es[i].id in byID { return false, byID; }
      byID := byID[es[i].id := i];
      i := i + 1;
    }
    return true, byID;
  }

  lemma {:induction false} DeclaredIds(es: seq<SeriesEntry>, id: nat)
    ensures id in Declared(es) <==> exists i :: 0 <= i < |es| && es[i].id == id
  {
    if es != [] {
      var p := es[..|es| - 1];
      DeclaredIds(p, id);
      assert forall i :: 0 <= i < |p| ==> p[i] == es[i];
    }
  }

  lemma NextDeclared(es: seq<SeriesEntry>, i: nat, e: SeriesEntry)
    requires DistinctIds(es) && i < |es| && e == es[i]
    ensures e.id !in Declared(es[..i]) && Declared(es[..i + 1]) == Declared(es[..i])[e.id := PairSet(e.labels)]
  {
    DeclaredIds(es[..i], e.id);
    assert es[..i + 1][..i] == es[..i];
  }

  method BuildMemPostings(es: seq<SeriesEntry>) returns (mp: MemPostings)
    requires DistinctIds(es)
    ensures fresh(mp) && mp.Valid() && mp.held == Declared(es)
  {
    mp := new MemPostings();
    var i := 0;
    while i < |es|
      invariant 0 <= i <= |es| && fresh(mp) && mp.Valid() && mp.held == Declared(es[..i])
    {
      NextDeclared(es, i, es[i]);
      mp.Add(es[i].id, es[i].labels);
      i := i + 1;
    }
    SliceAll(es);
  }

  /** OpenReader over a block whose postings file is present: it accepts exactly what
      opens, and what it then selects by is the index's labels. */
  method OpenReader(x: Files) returns (r: Option<Reader>)
    ensures r.Some? <==> Opens(x)
    ensures r.Some? ==> Some(r.value.entries) == ReadIndex(x.index)
    ensures r.Some? ==> PostingsFile.Faithful(x.postings, r.value.postings, Declared(r.value.entries))
    ensures r.Some? ==> forall i :: 0 <= i < |r.value.entries| ==> var id := r.value.entries[i].id; id in r.value.byID && r.value.byID[id] == i
  {
    var es := ParseIndex(x.index);
    if es.None? { return None; }
    var ok, byID := BuildSeriesByID(es.value);
    if !ok { return None; }
    var mp := BuildMemPostings(es.value);
    var postings := PostingsFile.Load(x.postings, mp);
    if postings.None? { return None; }
    r := Some(Reader(es.value, byID, postings.value));
  }

  // ---- chunk places ----

  /** A place a reader takes: after its record's header, inside the file, and bound by
      that header to the series and the length. The end is an int64 sum and may wrap. */
  predicate RefOk(f: seq<Byte>, id: nat, r: ChunkRef) {
    && r.off >= HDR && r.len != 0 && Wrap64(r.off + r.len) <= |f|
    && r.off <= |f| && BEVal(f[r.off - HDR..r.off - 4]) == id && BEVal(f[r.off - 4..r.off]) == r.len
  }

  predicate RefsOk(f: seq<Byte>, es: seq<SeriesEntry>) {
    forall i, j :: 0 <= i < |es| && 0 <= j < |es[i].refs| ==> RefOk(f, es[i].id, es[i].refs[j])
  }

  function ReadChunk(f: seq<Byte>, r: ChunkRef): Option<seq<Byte>> {
    if r.len == 0 || r.off < 0 || r.off + r.len > |f| then None else Some(f[r.off..r.off + r.len])
  }

  /** The wrap never lets a place past the end through, whatever the index says. */
  lemma ValidatedIsReadable(f: seq<Byte>, id: nat, r: ChunkRef)
    requires |f| + TWO32 <= MAX_INT64 && r.len < TWO32 && RefOk(f, id, r)
    ensures ReadChunk(f, r).Some? && |ReadChunk(f, r).value| == r.len
  {
    WrapCases(r.off + r.len);
  }

  method ValidateChunkRefs(f: seq<Byte>, es: seq<SeriesEntry>) returns (ok: bool)
    ensures ok <==> RefsOk(f, es)
  {
    var i := 0;
    while i < |es|
      invariant 0 <= i <= |es| && RefsOk(f, es[..i])
    {
      var j := 0;
      while j < |es[i].refs|
        invariant 0 <= j <= |es[i].refs| && forall k :: 0 <= k < j ==> RefOk(f, es[i].id, es[i].refs[k])
      {
        var ref := es[i].refs[j];
        if ref.off < HDR || ref.len == 0 || Wrap64(ref.off + ref.len) > |f| { return false; }
        if ref.off > |f| { return false; }
        if BEVal(f[ref.off - HDR..ref.off - 4]) != es[i].id { return false; }
        if BEVal(f[ref.off - 4..ref.off]) != ref.len { return false; }
        j := j + 1;
      }
      i := i + 1;
    }
    SliceAll(es);
    return true;
  }

  // ---- what a committed block gives back ----

  /** p lies at r, behind the header that binds it to id. */
  predicate Holds(f: seq<Byte>, id: nat, r: ChunkRef, p: seq<Byte>) {
    HDR <= r.off && r.off + r.len <= |f| && r.len == |p| && f[r.off - HDR..r.off + r.len] == RecordBytes(id, p)
  }

  lemma HoldsGrows(f: seq<Byte>, more: seq<Byte>, g: seq<Byte>, id: nat, r: ChunkRef, p: seq<Byte>)
    requires Holds(f, id, r, p) && g == f + more
    ensures Holds(g, id, r, p)
  {
    assert g[r.off - HDR..r.off + r.len] == f[r.off - HDR..r.off + r.len];
  }

  lemma NewHolds(f: seq<Byte>, id: nat, p: seq<Byte>, g: seq<Byte>)
    requires g == f + RecordBytes(id, p)
    ensures Holds(g, id, ChunkRef(|f| + HDR, |p|), p)
  {
  }

  predicate SeriesHolds(f: seq<Byte>, id: nat, refs: seq<ChunkRef>, ps: seq<seq<Byte>>) {
    |refs| == |ps| && forall j :: 0 <= j < |ps| ==> Holds(f, id, refs[j], ps[j])
  }

  lemma {:induction false} WrittenSeriesHolds(f: seq<Byte>, id: nat, ps: seq<seq<Byte>>, g: seq<Byte>)
    requires g == f + SeriesBytes(id, ps)
    ensures SeriesHolds(g, id, RefsOf(id, ps, |f|), ps)
  {
    if ps != [] {
      var q, p := ps[..|ps| - 1], ps[|ps| - 1];
      var mid := f + SeriesBytes(id, q);
      var refs := RefsOf(id, q, |f|);
      WrittenSeriesHolds(f, id, q, mid);
      ConcatAssoc(f, SeriesBytes(id, q), RecordBytes(id, p));
      NewHolds(mid, id, p, g);
      forall j | 0 <= j < |q| ensures Holds(g, id, refs[j], ps[j]) {
        HoldsGrows(mid, RecordBytes(id, p), g, id, refs[j], q[j]);
      }
    }
  }

  predicate EntryHolds(f: seq<Byte>, e: SeriesEntry, s: Series) {
    e.id == s.id && e.labels == s.labels && SeriesHolds(f, s.id, e.refs, s.chunks)
  }

  predicate BlockHolds(f: seq<Byte>, es: seq<SeriesEntry>, ss: seq<Series>) {
    |es| == |ss| && forall i :: 0 <= i < |ss| ==> EntryHolds(f, es[i], ss[i])
  }

  /** Every entry names its series, its labels, and where each of its chunks lies. */
  lemma {:induction false} WrittenBlockHolds(ss: seq<Series>)
    ensures BlockHolds(ChunksBytes(ss), EntriesOf(ss), ss)
  {
    if ss != [] {
      var p, s := ss[..|ss| - 1], ss[|ss| - 1];
      var f, g := ChunksBytes(p), ChunksBytes(ss);
      var es := EntriesOf(p);
      WrittenBlockHolds(p);
      WrittenSeriesHolds(f, s.id, s.chunks, g);
      forall i | 0 <= i < |p| ensures EntryHolds(g, es[i], ss[i]) {
        assert EntryHolds(f, es[i], p[i]);
        EntryHoldsGrows(f, SeriesBytes(s.id, s.chunks), g, es[i], p[i]);
      }
    }
  }

  lemma EntryHoldsGrows(f: seq<Byte>, more: seq<Byte>, g: seq<Byte>, e: SeriesEntry, s: Series)
    requires EntryHolds(f, e, s) && g == f + more
    ensures EntryHolds(g, e, s)
  {
    forall j | 0 <= j < |s.chunks| ensures Holds(g, s.id, e.refs[j], s.chunks[j]) {
      HoldsGrows(f, more, g, s.id, e.refs[j], s.chunks[j]);
    }
  }

  /** Every size fits the field that holds it. */
  ghost predicate BlockFits(ss: seq<Series>) {
    && |ss| < TWO32 && |ChunksBytes(ss)| <= MAX_INT64 && PostingsFile.HeldFits(HeldOf(ss))
    && forall i :: 0 <= i < |ss| ==> SeriesFits(ss[i])
  }

  predicate SeriesFits(s: Series) {
    && U64(s.id) && LabelsFit(s.labels) && |LabelsBytes(s.labels)| < TWO32 && |s.chunks| < TWO32
    && forall j :: 0 <= j < |s.chunks| ==> |s.chunks[j]| < TWO32
  }

  lemma EntriesFit(ss: seq<Series>)
    requires BlockFits(ss)
    ensures AllFit(EntriesOf(ss))
  {
    var f, es := ChunksBytes(ss), EntriesOf(ss);
    WrittenBlockHolds(ss);
    forall i | 0 <= i < |ss| ensures EntryFits(es[i]) {
      assert EntryHolds(f, es[i], ss[i]) && SeriesFits(ss[i]);
      forall j | 0 <= j < |es[i].refs| ensures RefFits(es[i].refs[j]) { assert Holds(f, ss[i].id, es[i].refs[j], ss[i].chunks[j]); }
    }
  }

  lemma {:induction false} DeclaredIsHeld(ss: seq<Series>)
    ensures Declared(EntriesOf(ss)) == HeldOf(ss)
  {
    if ss != [] {
      var p := ss[..|ss| - 1];
      DeclaredIsHeld(p);
      assert EntriesOf(ss)[..|ss| - 1] == EntriesOf(p);
    }
  }

  predicate WithinBounds(ss: seq<Series>) {
    |ss| <= MAX_SERIES && forall i :: 0 <= i < |ss| ==> |ss[i].chunks| <= MAX_CHUNKS
  }

  /** Whatever AddSeries has accepted, the block Commit writes opens exactly when it
      keeps the reader's two bounds, and then declares each series with its labels. */
  lemma CommittedOpensIff(ss: seq<Series>, x: Files, ps: seq<PostingsFile.Entry>)
    requires Committable(ss) && BlockFits(ss) && x.index == IndexBytes(EntriesOf(ss))
    requires x.postings == PostingsFile.FileBytes(ps) && PostingsFile.Describes(ps, HeldOf(ss))
    ensures Opens(x) <==> |ss| <= 1_000_000 && forall i :: 0 <= i < |ss| ==> |ss[i].chunks| <= 10_000
    ensures Opens(x) ==> ReadIndex(x.index) == Some(EntriesOf(ss)) && Declared(EntriesOf(ss)) == HeldOf(ss)
  {
    var es := EntriesOf(ss);
    EntriesFit(ss);
    IndexRoundTrip(es);
    WrittenBlockHolds(ss);
    BoundsAreReadable(ss, es);
    DeclaredIsHeld(ss);
    NoEmptyPair(ss);
    PostingsFile.DescribedFits(ps, HeldOf(ss));
    PostingsFile.WrittenIsAccepted(ps, HeldOf(ss));
  }

  lemma BoundsAreReadable(ss: seq<Series>, es: seq<SeriesEntry>)
    requires Committable(ss) && BlockHolds(ChunksBytes(ss), es, ss)
    ensures WithinBounds(ss) <==> |es| <= MAX_SERIES && AllReadable(es)
    ensures DistinctIds(es)
  {
    forall i | 0 <= i < |ss| ensures es[i].id == ss[i].id && (Readable(es[i]) <==> |ss[i].chunks| <= MAX_CHUNKS) {
      assert EntryHolds(ChunksBytes(ss), es[i], ss[i]);
    }
  }

  lemma HeldRef(f: seq<Byte>, id: nat, r: ChunkRef, p: seq<Byte>)
    requires Holds(f, id, r, p) && U64(id) && |p| < TWO32 && |f| <= MAX_INT64
    ensures RefOk(f, id, r) <==> p != []
    ensures p != [] ==> ReadChunk(f, r) == Some(p)
  {
    Pow256Values();
    BERoundTrip(id, 8);
    BERoundTrip(|p|, 4);
    WrapCases(r.off + r.len);
    RecordParts(f, r.off - HDR, r.off + r.len, id, p);
  }

  lemma RecordParts(f: seq<Byte>, a: nat, b: nat, id: nat, p: seq<Byte>)
    requires a <= b <= |f| && f[a..b] == RecordBytes(id, p)
    ensures f[a..a + 8] == BE(id, 8) && f[a + 8..a + HDR] == BE(|p|, 4) && f[a + HDR..b] == p
  {
    var rec := f[a..b];
    assert rec[..8] == BE(id, 8) && rec[8..HDR] == BE(|p|, 4) && rec[HDR..] == p;
    SubSlice(f, a, b, 0, 8);
    SubSlice(f, a, b, 8, HDR);
    SubSlice(f, a, b, HDR, b - a);
    assert rec[HDR..b - a] == rec[HDR..];
  }

  predicate NoEmptyChunk(ss: seq<Series>) {
    forall i, j :: 0 <= i < |ss| && 0 <= j < |ss[i].chunks| ==> ss[i].chunks[j] != []
  }

  lemma BlockRefs(ss: seq<Series>, f: seq<Byte>, es: seq<SeriesEntry>, i: nat, j: nat)
    requires BlockFits(ss) && f == ChunksBytes(ss) && BlockHolds(f, es, ss) && i < |ss| && j < |ss[i].chunks|
    ensures |es[i].refs| == |ss[i].chunks| && (RefOk(f, es[i].id, es[i].refs[j]) <==> ss[i].chunks[j] != [])
    ensures ss[i].chunks[j] != [] ==> ReadChunk(f, es[i].refs[j]) == Some(ss[i].chunks[j])
  {
    assert EntryHolds(f, es[i], ss[i]) && SeriesFits(ss[i]);
    HeldRef(f, es[i].id, es[i].refs[j], ss[i].chunks[j]);
  }

  /** Its chunk places validate exactly when no payload is empty, which no encoded chunk
      is, and reading each gives back the payload that was added. */
  lemma CommittedChunksReadBack(ss: seq<Series>, f: seq<Byte>, es: seq<SeriesEntry>)
    requires BlockFits(ss) && f == ChunksBytes(ss) && es == EntriesOf(ss)
    ensures RefsOk(f, es) <==> NoEmptyChunk(ss)
    ensures NoEmptyChunk(ss) ==> forall i, j :: 0 <= i < |ss| && 0 <= j < |ss[i].chunks| ==> j < |es[i].refs| && ReadChunk(f, es[i].refs[j]) == Some(ss[i].chunks[j])
  {
    WrittenBlockHolds(ss);
    forall i, j | 0 <= i < |ss| && 0 <= j < |ss[i].chunks|
      ensures j < |es[i].refs| && (RefOk(f, es[i].id, es[i].refs[j]) <==> ss[i].chunks[j] != [])
      ensures ss[i].chunks[j] != [] ==> ReadChunk(f, es[i].refs[j]) == Some(ss[i].chunks[j])
    {
      BlockRefs(ss, f, es, i, j);
    }
    forall i | 0 <= i < |ss| ensures |es[i].refs| == |ss[i].chunks| { assert EntryHolds(f, es[i], ss[i]); }
  }
}
