/** The split ingester's flush: how sealed chunks are cut into requests, and that a
    chunk leaves memory only once a request that carried it was accepted. */
module HeadFlush {
  import opened Sets
  import opened Samples
  import opened Chunks
  import opened Head
  import opened HeadShape
  import opened MemoryStores

  // ---- batchSeriesChunks ----

  /** A chunk to send: its identity and its encoded wire size. */
  datatype Piece = Piece(uid: nat, wire: nat)

  /** Every chunk takes room in a request. */
  predicate Priced(ps: seq<Piece>) { forall i :: 0 <= i < |ps| ==> ps[i].wire > 0 }

  /** One series' chunks; open is the wire size its part costs besides its chunks. */
  datatype Part = Part(series: nat, open: nat, pieces: seq<Piece>)

  type Batch = seq<Part>

  function PieceBytes(ps: seq<Piece>): nat {
    if ps == [] then 0 else PieceBytes(ps[..|ps| - 1]) + ps[|ps| - 1].wire
  }

  function PartBytes(p: Part): nat { if p.pieces == [] then 0 else p.open + PieceBytes(p.pieces) }

  function BatchBytes(b: Batch): nat {
    if b == [] then 0 else BatchBytes(b[..|b| - 1]) + PartBytes(b[|b| - 1])
  }

  function PieceCount(b: Batch): nat {
    if b == [] then 0 else PieceCount(b[..|b| - 1]) + |b[|b| - 1].pieces|
  }

  /** What is sent, in order: each chunk with its series. */
  function Tagged(series: nat, ps: seq<Piece>): (r: seq<(nat, Piece)>)
    ensures |r| == |ps|
  {
    seq(|ps|, i requires 0 <= i < |ps| => (series, ps[i]))
  }

  function Sent(b: Batch): seq<(nat, Piece)> {
    if b == [] then [] else Sent(b[..|b| - 1]) + Tagged(b[|b| - 1].series, b[|b| - 1].pieces)
  }

  function SentAll(bs: seq<Batch>): seq<(nat, Piece)> {
    if bs == [] then [] else SentAll(bs[..|bs| - 1]) + Sent(bs[|bs| - 1])
  }

  /** A request the store will accept: no series twice, no empty part, at most max
      chunks a series, and within the byte limit unless it is a single chunk. */
  predicate BatchOk(b: Batch, limit: nat, max: nat) {
    && b != []
    && (forall i, j :: 0 <= i < j < |b| ==> b[i].series != b[j].series)
    && (forall i :: 0 <= i < |b| ==> 0 < |b[i].pieces| <= max)
    && (BatchBytes(b) <= limit || PieceCount(b) == 1)
  }

  predicate DistinctSeries(series: seq<Part>) {
    forall i, j :: 0 <= i < j < |series| ==> series[i].series != series[j].series
  }

  /** The batch being filled: whole parts in cur, the current series' in part. */
  datatype Filling = Filling(batches: seq<Batch>, cur: Batch, part: Part, size: nat)

  function UnderWay(f: Filling): Batch { if f.part.pieces == [] then f.cur else f.cur + [f.part] }

  ghost predicate FillingOk(f: Filling, limit: nat, max: nat, earlier: set<nat>) {
    && (forall i :: 0 <= i < |f.batches| ==> BatchOk(f.batches[i], limit, max))
    && f.size == BatchBytes(UnderWay(f)) && (f.size == 0 <==> UnderWay(f) == [])
    && (UnderWay(f) != [] ==> BatchOk(UnderWay(f), limit, max))
    && (forall i :: 0 <= i < |f.cur| ==> f.cur[i].series in earlier)
    && f.part.series !in earlier
  }

  function Out(f: Filling): seq<(nat, Piece)> { SentAll(f.batches) + Sent(UnderWay(f)) }

  lemma WholeSums(f: Filling)
    ensures BatchBytes(UnderWay(f)) == BatchBytes(f.cur) + PartBytes(f.part)
    ensures PieceCount(UnderWay(f)) == PieceCount(f.cur) + |f.part.pieces|
    ensures Sent(UnderWay(f)) == Sent(f.cur) + Tagged(f.part.series, f.part.pieces)
  {
    if f.part.pieces != [] {
      assert (f.cur + [f.part])[..|f.cur|] == f.cur;
    } else {
      assert Sent(f.cur) + [] == Sent(f.cur);
    }
  }

  // ---- requests are as few as the order allows ----

  /** p's first chunk does not fit behind b: its series has max chunks there, or the
      request would pass the limit. */
  predicate NoRoom(b: Batch, p: Part, limit: nat, max: nat) {
    && b != [] && p.pieces != []
    && var last := b[|b| - 1];
    if last.series == p.series then |last.pieces| >= max || BatchBytes(b) + p.pieces[0].wire > limit
    else BatchBytes(b) + p.open + p.pieces[0].wire > limit
  }

  /** Every request was closed because the chunk that opens the next one had no room. */
  predicate Tight(bs: seq<Batch>, limit: nat, max: nat) {
    forall i :: 0 <= i < |bs| - 1 ==> TightAt(bs, i, limit, max)
  }

  predicate TightAt(bs: seq<Batch>, i: nat, limit: nat, max: nat)
    requires i + 1 < |bs|
  {
    bs[i + 1] != [] && NoRoom(bs[i], bs[i + 1][0], limit, max)
  }

  function AllBatches(f: Filling): seq<Batch> { if UnderWay(f) == [] then f.batches else f.batches + [UnderWay(f)] }

  predicate FillingTight(f: Filling, limit: nat, max: nat) {
    Tight(AllBatches(f), limit, max) && (UnderWay(f) == [] ==> f.batches == [])
  }

  lemma ClosedIsTight(f: Filling, c: Piece, n: nat, limit: nat, max: nat, earlier: set<nat>)
    requires FillingOk(f, limit, max, earlier) && FillingTight(f, limit, max) && UnderWay(f) != []
    requires n == c.wire + (if f.part.pieces == [] then f.part.open else 0)
    requires f.size + n > limit || (|f.part.pieces| >= max && f.part.pieces != [])
    ensures FillingTight(Put(Close(f), c, c.wire + f.part.open), limit, max)
  {
    var g := Put(Close(f), c, c.wire + f.part.open);
    var p := f.part.(pieces := [c]);
    assert g.part == p && UnderWay(g) == [p];
    var b := UnderWay(f);
    if f.part.pieces == [] {
      assert b == f.cur;
      assert f.cur[|f.cur| - 1].series in earlier;
    }
    assert NoRoom(b, p, limit, max);
    assert AllBatches(f) == f.batches + [b] && AllBatches(g) == f.batches + [b] + [[p]];
    AddTight(f.batches + [b], [p], limit, max);
  }

  lemma AddTight(bs: seq<Batch>, b: Batch, limit: nat, max: nat)
    requires Tight(bs, limit, max) && b != [] && (bs != [] ==> NoRoom(bs[|bs| - 1], b[0], limit, max))
    ensures Tight(bs + [b], limit, max)
  {
    var cs := bs + [b];
    forall i | 0 <= i < |cs| - 1 ensures TightAt(cs, i, limit, max) {
      if i < |bs| - 1 { assert TightAt(bs, i, limit, max); }
    }
  }

  /** A batch under way grows at its end: what opened it stays. */
  lemma PutIsTight(f: Filling, c: Piece, n: nat, limit: nat, max: nat, earlier: set<nat>)
    requires FillingOk(f, limit, max, earlier) && FillingTight(f, limit, max)
    ensures FillingTight(Put(f, c, n), limit, max)
  {
    var g := Put(f, c, n);
    assert UnderWay(g) == f.cur + [g.part] && g.batches == f.batches;
    if UnderWay(f) != [] {
      var b, b' := UnderWay(f), UnderWay(g);
      assert b[0].series == b'[0].series && b[0].open == b'[0].open && b[0].pieces[0] == b'[0].pieces[0];
      var cs := AllBatches(f);
      assert cs == f.batches + [b];
      assert forall i :: 0 <= i < |f.batches| ==> cs[i] == f.batches[i];
      if f.batches != [] {
        assert TightAt(cs, |f.batches| - 1, limit, max);
      }
      PrefixTight(f.batches, b, limit, max);
      AddTight(f.batches, b', limit, max);
    }
  }

  lemma PrefixTight(bs: seq<Batch>, b: Batch, limit: nat, max: nat)
    requires Tight(bs + [b], limit, max)
    ensures Tight(bs, limit, max)
  {
    var cs := bs + [b];
    forall i | 0 <= i < |bs| - 1 ensures TightAt(bs, i, limit, max) { assert TightAt(cs, i, limit, max); }
  }

  /** Closing the batch under way. */
  function Close(f: Filling): Filling {
    Filling(f.batches + [UnderWay(f)], [], f.part.(pieces := []), 0)
  }

  lemma CloseOk(f: Filling, limit: nat, max: nat, earlier: set<nat>)
    requires FillingOk(f, limit, max, earlier) && UnderWay(f) != []
    ensures FillingOk(Close(f), limit, max, earlier) && Out(Close(f)) == Out(f) && UnderWay(Close(f)) == []
  {
    assert (f.batches + [UnderWay(f)])[..|f.batches|] == f.batches;
    assert SentAll(Close(f).batches) + Sent([]) == SentAll(f.batches) + Sent(UnderWay(f));
  }

  function Put(f: Filling, c: Piece, n: nat): Filling {
    f.(part := f.part.(pieces := f.part.pieces + [c]), size := f.size + n)
  }

  lemma PutSums(f: Filling, c: Piece, n: nat)
    requires n == c.wire + (if f.part.pieces == [] then f.part.open else 0)
    ensures UnderWay(Put(f, c, n)) == f.cur + [Put(f, c, n).part]
    ensures BatchBytes(UnderWay(Put(f, c, n))) == BatchBytes(UnderWay(f)) + n
    ensures PieceCount(UnderWay(Put(f, c, n))) == PieceCount(UnderWay(f)) + 1
    ensures Sent(UnderWay(Put(f, c, n))) == Sent(UnderWay(f)) + [(f.part.series, c)]
  {
    var g := Put(f, c, n);
    assert g.part.pieces[..|f.part.pieces|] == f.part.pieces;
    assert PieceBytes(g.part.pieces) == PieceBytes(f.part.pieces) + c.wire;
    WholeSums(f);
    WholeSums(g);
    assert Tagged(f.part.series, g.part.pieces) == Tagged(f.part.series, f.part.pieces) + [(f.part.series, c)];
  }

  /** The grown batch has the parts it had, the last one longer or new. */
  lemma PutParts(f: Filling, c: Piece, n: nat, limit: nat, max: nat, earlier: set<nat>)
    requires FillingOk(f, limit, max, earlier) && |f.part.pieces| < max
    ensures var b := f.cur + [Put(f, c, n).part];
      (forall i, j :: 0 <= i < j < |b| ==> b[i].series != b[j].series) && forall i :: 0 <= i < |b| ==> 0 < |b[i].pieces| <= max
  {
    var b := f.cur + [Put(f, c, n).part];
    forall i | 0 <= i < |f.cur| ensures 0 < |f.cur[i].pieces| <= max && f.cur[i].series != f.part.series {
      assert f.cur[i].series in earlier;
      assert UnderWay(f) != [] && UnderWay(f)[i] == f.cur[i];
    }
    forall i, j | 0 <= i < j < |f.cur| ensures f.cur[i].series != f.cur[j].series {
      assert UnderWay(f)[i] == f.cur[i] && UnderWay(f)[j] == f.cur[j];
    }
  }

  lemma PutOk(f: Filling, c: Piece, n: nat, limit: nat, max: nat, earlier: set<nat>)
    requires FillingOk(f, limit, max, earlier) && |f.part.pieces| < max && c.wire > 0
    requires n == c.wire + (if f.part.pieces == [] then f.part.open else 0)
    requires UnderWay(f) == [] || f.size + n <= limit
    ensures FillingOk(Put(f, c, n), limit, max, earlier)
    ensures Out(Put(f, c, n)) == Out(f) + [(f.part.series, c)]
  {
    PutSums(f, c, n);
    PutParts(f, c, n, limit, max, earlier);
    assert UnderWay(f) == [] ==> PieceCount(UnderWay(f)) == 0;
    assert SentAll(f.batches) + (Sent(UnderWay(f)) + [(f.part.series, c)]) == SentAll(f.batches) + Sent(UnderWay(f)) + [(f.part.series, c)];
  }

  /** One chunk, added to the batch under way or to a new one. */
  method AddPiece(f0: Filling, c: Piece, limit: nat, max: nat, ghost earlier: set<nat>) returns (f: Filling)
    requires FillingOk(f0, limit, max, earlier) && max > 0 && |f0.part.pieces| <= max && c.wire > 0
    requires FillingTight(f0, limit, max)
    ensures FillingOk(f, limit, max, earlier) && |f.part.pieces| <= max && FillingTight(f, limit, max)
    ensures f.part.series == f0.part.series && f.part.open == f0.part.open
    ensures Out(f) == Out(f0) + [(f0.part.series, c)]
  {
    f := f0;
    var n := c.wire + (if f.part.pieces == [] then f.part.open else 0);
    if (f.size > 0 && f.size + n > limit) || |f.part.pieces| >= max {
      CloseOk(f, limit, max, earlier);
      ClosedIsTight(f, c, n, limit, max, earlier);
      f := Close(f);
      n := c.wire + f.part.open;
    } else {
      PutIsTight(f, c, n, limit, max, earlier);
    }
    PutOk(f, c, n, limit, max, earlier);
    f := Put(f, c, n);
  }

  method FillSeries(f0: Filling, pieces: seq<Piece>, limit: nat, max: nat, ghost earlier: set<nat>) returns (f: Filling)
    requires FillingOk(f0, limit, max, earlier) && f0.part.pieces == [] && max > 0
    requires Priced(pieces) && FillingTight(f0, limit, max)
    ensures FillingOk(f, limit, max, earlier) && f.part.series == f0.part.series && FillingTight(f, limit, max)
    ensures Out(f) == Out(f0) + Tagged(f0.part.series, pieces)
  {
    f := f0;
    var i := 0;
    FilledNone(f0, pieces);
    while i < |pieces|
      invariant 0 <= i <= |pieces| && FillingOk(f, limit, max, earlier) && FillingTight(f, limit, max)
      invariant |f.part.pieces| <= max && Filled(f0, f, pieces, i)
    {
      ghost var before := f;
      f := AddPiece(f, pieces[i], limit, max, earlier);
      FilledNext(f0, before, f, pieces, i);
      i := i + 1;
    }
    FilledAll(f0, f, pieces);
  }

  /** f has taken the first i pieces since f0. */
  predicate Filled(f0: Filling, f: Filling, pieces: seq<Piece>, i: nat)
    requires i <= |pieces|
  {
    f.part.series == f0.part.series && Out(f) == Out(f0) + Tagged(f0.part.series, pieces)[..i]
  }

  lemma FilledNone(f: Filling, pieces: seq<Piece>)
    ensures Filled(f, f, pieces, 0)
  {
    assert Out(f) + [] == Out(f);
  }

  lemma FilledNext(f0: Filling, f: Filling, g: Filling, pieces: seq<Piece>, i: nat)
    requires i < |pieces| && Filled(f0, f, pieces, i)
    requires g.part.series == f.part.series && Out(g) == Out(f) + [(f.part.series, pieces[i])]
    ensures Filled(f0, g, pieces, i + 1)
  {
    var all := Tagged(f0.part.series, pieces);
    Grows(Out(f0), all, i, Out(f), (f.part.series, pieces[i]));
  }

  lemma Grows<T>(o: seq<T>, all: seq<T>, i: nat, before: seq<T>, x: T)
    requires i < |all| && all[i] == x && before == o + all[..i]
    ensures before + [x] == o + all[..i + 1]
  {
    ConcatAssoc(o, all[..i], [x]);
    assert all[..i + 1] == all[..i] + [x];
  }

  lemma FilledAll(f0: Filling, f: Filling, pieces: seq<Piece>)
    requires Filled(f0, f, pieces, |pieces|)
    ensures f.part.series == f0.part.series && Out(f) == Out(f0) + Tagged(f0.part.series, pieces)
  {
    var all := Tagged(f0.part.series, pieces);
    assert all[..|pieces|] == all;
  }

  /** Groups of at most limit bytes and max chunks a series: everything is sent, once
      and in order, every group is one the store accepts, and none is closed early. */
  method BatchSeriesChunks(series: seq<Part>, limit: nat, max: nat) returns (batches: seq<Batch>)
    requires DistinctSeries(series) && max > 0
    requires forall i :: 0 <= i < |series| ==> Priced(series[i].pieces)
    ensures SentAll(batches) == Sent(series)
    ensures forall i :: 0 <= i < |batches| ==> BatchOk(batches[i], limit, max)
    ensures Tight(batches, limit, max)
  {
    batches := [];
    var cur: Batch := [];
    var size := 0;
    var k := 0;
    BatchingStarts(series, limit, max);
    while k < |series|
      invariant 0 <= k <= |series| && Batching(series, k, batches, cur, size, limit, max)
    {
      var sc := series[k];
      SeriesStarts(series, k, batches, cur, size, limit, max);
      var f0 := Filling(batches, cur, Part(sc.series, sc.open, []), size);
      var f := FillSeries(f0, sc.pieces, limit, max, Series(series[..k]));
      SeriesEnds(series, k, f0, f, limit, max);
      batches, size := f.batches, f.size;
      cur := if |f.part.pieces| > 0 then f.cur + [f.part] else f.cur;
      k := k + 1;
    }
    BatchingEnds(series, batches, cur, size, limit, max);
    if |cur| > 0 { batches := batches + [cur]; }
  }

  /** The first k series are in batches and cur. */
  ghost predicate Batching(series: seq<Part>, k: nat, batches: seq<Batch>, cur: Batch, size: nat, limit: nat, max: nat)
    requires k <= |series|
  {
    && Between(batches, cur, size, limit, max, Series(series[..k]))
    && SentAll(batches) + Sent(cur) == Sent(series[..k])
    && Tight(if cur == [] then batches else batches + [cur], limit, max) && (cur == [] ==> batches == [])
  }

  lemma BatchingStarts(series: seq<Part>, limit: nat, max: nat)
    ensures Batching(series, 0, [], [], 0, limit, max)
  {
    assert series[..0] == [];
  }

  lemma SeriesStarts(series: seq<Part>, k: nat, batches: seq<Batch>, cur: Batch, size: nat, limit: nat, max: nat)
    requires k < |series| && DistinctSeries(series) && Batching(series, k, batches, cur, size, limit, max)
    ensures var f := Filling(batches, cur, Part(series[k].series, series[k].open, []), size);
      FillingOk(f, limit, max, Series(series[..k])) && Out(f) == Sent(series[..k]) && FillingTight(f, limit, max)
  {
    SeriesNext(series, k);
  }

  lemma SeriesEnds(series: seq<Part>, k: nat, f0: Filling, f: Filling, limit: nat, max: nat)
    requires k < |series| && DistinctSeries(series)
    requires FillingOk(f, limit, max, Series(series[..k])) && f.part.series == series[k].series && FillingTight(f, limit, max)
    requires Out(f0) == Sent(series[..k]) && Out(f) == Out(f0) + Tagged(series[k].series, series[k].pieces)
    ensures Batching(series, k + 1, f.batches, UnderWay(f), f.size, limit, max)
  {
    SeriesNext(series, k);
    WholeIsBetween(f, limit, max, Series(series[..k]));
    assert series[..k + 1][..k] == series[..k];
  }

  lemma BatchingEnds(series: seq<Part>, batches: seq<Batch>, cur: Batch, size: nat, limit: nat, max: nat)
    requires Batching(series, |series|, batches, cur, size, limit, max)
    ensures var all := if cur == [] then batches else batches + [cur];
      SentAll(all) == Sent(series) && Tight(all, limit, max) && forall i :: 0 <= i < |all| ==> BatchOk(all[i], limit, max)
  {
    assert series[..|series|] == series;
    if cur == [] {
      assert SentAll(batches) + Sent([]) == SentAll(batches);
    } else {
      assert (batches + [cur])[..|batches|] == batches;
    }
  }

  /** Between two series: cur holds whole parts of earlier ones. */
  ghost predicate Between(batches: seq<Batch>, cur: Batch, size: nat, limit: nat, max: nat, earlier: set<nat>) {
    && (forall i :: 0 <= i < |batches| ==> BatchOk(batches[i], limit, max))
    && size == BatchBytes(cur) && (size == 0 <==> cur == []) && (cur != [] ==> BatchOk(cur, limit, max))
    && forall i :: 0 <= i < |cur| ==> cur[i].series in earlier
  }

  function Series(parts: seq<Part>): set<nat> { set i | 0 <= i < |parts| :: parts[i].series }

  lemma SeriesNext(series: seq<Part>, k: nat)
    requires k < |series| && DistinctSeries(series)
    ensures Series(series[..k + 1]) == Series(series[..k]) + {series[k].series}
    ensures series[k].series !in Series(series[..k])
  {
    var a, b := series[..k], series[..k + 1];
    assert b[k] == series[k];
    assert forall i :: 0 <= i < k ==> a[i] == series[i] && b[i] == series[i];
    forall x ensures x in Series(b) <==> x in Series(a) + {series[k].series} {
      if x in Series(a) {
        var i :| 0 <= i < k && a[i].series == x;
        assert b[i].series == x;
      }
    }
  }

  lemma WholeIsBetween(f: Filling, limit: nat, max: nat, earlier: set<nat>)
    requires FillingOk(f, limit, max, earlier)
    ensures Between(f.batches, UnderWay(f), f.size, limit, max, earlier + {f.part.series})
  {
  }

  // ---- requests as sets of chunks ----

  predicate Has(s: seq<(nat, Piece)>, uid: nat) {
    exists i :: 0 <= i < |s| && s[i].1.uid == uid
  }

  /** The snapshot's chunks each request carries. */
  function CarriedBy(bs: seq<Batch>, cs: set<Chunk>): (r: seq<set<Chunk>>)
    ensures |r| == |bs|
  {
    if bs == [] then []
    else CarriedBy(bs[..|bs| - 1], cs) + [set c | c in cs && Has(Sent(bs[|bs| - 1]), c.id)]
  }

  lemma HasConcat(a: seq<(nat, Piece)>, b: seq<(nat, Piece)>, uid: nat)
    ensures Has(a + b, uid) <==> Has(a, uid) || Has(b, uid)
  {
    if i :| 0 <= i < |a| && a[i].1.uid == uid { assert (a + b)[i].1.uid == uid; }
    if i :| 0 <= i < |b| && b[i].1.uid == uid { assert (a + b)[|a| + i].1.uid == uid; }
  }

  lemma {:induction false} CarriedIs(bs: seq<Batch>, cs: set<Chunk>)
    ensures AllOf(CarriedBy(bs, cs)) == set c | c in cs && Has(SentAll(bs), c.id)
  {
    if bs == [] {
      assert AllOf([]) == {};
    } else {
      var n := |bs| - 1;
      CarriedIs(bs[..n], cs);
      var r := CarriedBy(bs, cs);
      TakenNext(r, n);
      assert r[..n] == CarriedBy(bs[..n], cs) && r[..n + 1] == r;
      forall c | c in cs ensures Has(SentAll(bs), c.id) <==> Has(SentAll(bs[..n]), c.id) || Has(Sent(bs[n]), c.id) {
        HasConcat(SentAll(bs[..n]), Sent(bs[n]), c.id);
      }
    }
  }

  /** The requests cut from a snapshot that lists every chunk carry all of it: what a
      flush sends in them is exactly the snapshot. */
  lemma BatchesCarryAll(series: seq<Part>, batches: seq<Batch>, cs: set<Chunk>)
    requires SentAll(batches) == Sent(series) && forall c :: c in cs ==> Has(Sent(series), c.id)
    ensures AllOf(CarriedBy(batches, cs)) == cs
  {
    CarriedIs(batches, cs);
  }

  // ---- FlushBlockContext ----

  datatype Flushed = Nothing | Done | Failed

  function AllOf(batches: seq<set<Chunk>>): set<Chunk> {
    set i, c | 0 <= i < |batches| && c in batches[i] :: c
  }

  lemma {:induction false} KeepTwice(s: seq<Slot>, a: set<nat>, b: set<nat>)
    ensures Keep(Keep(s, a), b) == Keep(s, a + b)
  {
    if s != [] {
      var p, last := s[..|s| - 1], s[|s| - 1];
      KeepTwice(p, a, b);
      var k := Keep(p, a);
      if last.chunk.id !in a {
        assert (k + [last])[..|k|] == k;
      } else {
        assert k + [] == k;
      }
    }
  }

  lemma DiscardTwiceAt(s: seq<Slot>, a: set<nat>, b: set<nat>, once: seq<Slot>, twice: seq<Slot>)
    requires once == Keep(s, a) && twice == Keep(once, b)
    ensures twice == Keep(s, a + b)
  {
    KeepTwice(s, a, b);
  }

  lemma DiscardTwice(h: Head, a: set<nat>, b: set<nat>)
    ensures Discard(Discard(h, a), b) == Discard(h, a + b)
  {
    var d: Head := Discard(h, a);
    var x: Head, y: Head := Discard(d, b), Discard(h, a + b);
    forall id: nat | id in h ensures x[id] == y[id] { DiscardTwiceAt(h[id], a, b, d[id], x[id]); }
    SameMap(x, y);
  }

  lemma DiscardNone(h: Head)
    ensures Discard(h, {}) == h
  {
    forall id: nat | id in h ensures Keep(h[id], {}) == h[id] { KeepAll(h[id]); }
    var x: Head := Discard(h, {});
    assert x.Keys == h.Keys;
  }

  lemma {:induction false} KeepAll(s: seq<Slot>)
    ensures Keep(s, {}) == s
  {
    if s != [] {
      KeepAll(s[..|s| - 1]);
      assert s == s[..|s| - 1] + [s[|s| - 1]];
    }
  }

  lemma TakenNext(batches: seq<set<Chunk>>, i: nat)
    requires i < |batches|
    ensures AllOf(batches[..i + 1]) == AllOf(batches[..i]) + batches[i]
    ensures Ids(AllOf(batches[..i + 1])) == Ids(AllOf(batches[..i])) + Ids(batches[i])
  {
    var a, b := batches[..i], batches[..i + 1];
    assert b[i] == batches[i] && forall k :: 0 <= k < i ==> b[k] == a[k];
    forall c | c in AllOf(a) ensures c in AllOf(b) {
      var k :| 0 <= k < i && c in a[k];
      assert c in b[k];
    }
  }

  class FloorFile {
    var floor: int

    constructor (start: int)
      ensures floor == start
    {
      floor := start;
    }
  }

  /** The head after the first n batches were accepted. */
  ghost predicate FlushedTo(h: Head, before: Head, batches: seq<set<Chunk>>, n: nat)
    requires n <= |batches|
  {
    h == Discard(before, Ids(AllOf(batches[..n])))
  }

  lemma FlushedNone(h: Head, batches: seq<set<Chunk>>)
    ensures FlushedTo(h, h, batches, 0)
  {
    DiscardNone(h);
    assert AllOf(batches[..0]) == {};
    assert Ids({}) == {};
  }

  lemma FlushedNext(h: Head, before: Head, batches: seq<set<Chunk>>, n: nat)
    requires n < |batches| && FlushedTo(h, before, batches, n)
    ensures FlushedTo(Discard(h, Ids(batches[n])), before, batches, n + 1)
  {
    TakenNext(batches, n);
    DiscardTwice(before, Ids(AllOf(batches[..n])), Ids(batches[n]));
  }

  /** What becomes of the floor file's write: a failed one may have been published. */
  datatype FloorWrite = Durable | NotWritten | NotSynced

  /** The head without the series that hold nothing. */
  function Pruned(h: Head): Head { map id | id in h && h[id] != [] :: h[id] }

  lemma PrunedSlots(h: Head)
    ensures Slots(Pruned(h)) == Slots(h) && SealedChunks(Pruned(h)) == SealedChunks(h)
  {
    forall f | f in Slots(h) ensures f in Slots(Pruned(h)) {
      var id :| id in h && f in h[id];
      assert id in Pruned(h) && Pruned(h)[id] == h[id];
    }
  }

  method RemoveEmpty(mem: MemoryStore)
    requires mem.Valid()
    modifies mem`series
    ensures mem.Valid() && mem.series == Pruned(old(mem.series))
  {
    var ids := mem.EmptyHeadSeriesIDs();
    var todo := ids;
    ghost var before := mem.series;
    assert before - (ids - todo) == before;
    while todo != {}
      invariant mem.Valid() && todo <= ids && mem.series == before - (ids - todo)
      decreases todo
    {
      var id :| id in todo;
      var removed := mem.RemoveEmptySeries(id);
      assert before - (ids - todo) - {id} == before - (ids - (todo - {id}));
      todo := todo - {id};
    }
    assert before - (ids - {}) == Pruned(before);
  }

  /** One flush: the floor first, then batch by batch, each dropped once the sink
      accepted it. It stops at the first failure: what was accepted stays dropped, the
      rest stays in memory. A flush that succeeds forgets the series it emptied. */
  method FlushBlock(mem: MemoryStore, floorFile: FloorFile, floorIo: FloorWrite, batches: seq<set<Chunk>>, acks: seq<bool>) returns (r: Flushed, sent: nat)
    requires mem.Valid() && |acks| == |batches| && AllOf(batches) == SealedChunks(mem.series)
    modifies mem`series, floorFile
    ensures mem.Valid() && sent <= |batches|
    ensures r.Nothing? <==> SealedChunks(old(mem.series)) == {}
    ensures r.Done? <==> !r.Nothing? && floorIo.Durable? && forall i :: 0 <= i < |acks| ==> acks[i]
    ensures !r.Done? ==> FlushedTo(mem.series, old(mem.series), batches, sent)
    ensures r.Done? ==> sent == |batches| && mem.series == Pruned(Discard(old(mem.series), Ids(SealedChunks(old(mem.series)))))
    ensures floorFile.floor == if r.Nothing? || floorIo.NotWritten? then old(floorFile.floor) else mem.nextGen
    ensures r.Failed? ==> (forall i :: 0 <= i < sent ==> acks[i]) && if floorIo.Durable? then sent < |acks| && !acks[sent] else sent == 0
  {
    FlushedNone(mem.series, batches);
    var snapshot := mem.SealedChunksSnapshot();
    if snapshot == {} { return Nothing, 0; }
    if !floorIo.NotWritten? { floorFile.floor := mem.nextGen; }
    if !floorIo.Durable? { return Failed, 0; }
    sent := SendBatches(mem, batches, acks);
    if sent < |acks| { return Failed, sent; }
    assert batches[..sent] == batches;
    RemoveEmpty(mem);
    r := Done;
  }

  method SendBatches(mem: MemoryStore, batches: seq<set<Chunk>>, acks: seq<bool>) returns (sent: nat)
    requires mem.Valid() && |acks| == |batches|
    modifies mem`series
    ensures mem.Valid() && sent <= |batches| && FlushedTo(mem.series, old(mem.series), batches, sent)
    ensures (forall i :: 0 <= i < sent ==> acks[i]) && (sent < |acks| ==> !acks[sent])
  {
    sent := 0;
    FlushedNone(mem.series, batches);
    while sent < |batches|
      invariant 0 <= sent <= |batches| && mem.Valid()
      invariant FlushedTo(mem.series, old(mem.series), batches, sent)
      invariant forall k :: 0 <= k < sent ==> acks[k]
    {
      if !acks[sent] { return; }
      FlushedNext(mem.series, old(mem.series), batches, sent);
      mem.DiscardSealedChunks(Ids(batches[sent]));
      sent := sent + 1;
    }
  }

  // ---- Drain ----

  datatype Drained = DrainedAll | FlushFailed | Incomplete

  lemma NoSealedLeft(h: Head)
    requires HeadOk(h)
    ensures SealedChunks(Discard(h, Ids(SealedChunks(h)))) == {}
  {
    DiscardSlots(h, Ids(SealedChunks(h)));
    forall f | f in Slots(Discard(h, Ids(SealedChunks(h)))) ensures !f.chunk.sealed {
      assert f.chunk.sealed ==> f.chunk in SealedChunks(h);
    }
  }

  /** Seals the open chunks, flushes, and checks that the head is empty. It fails in the
      flush exactly when there was something to flush and the floor or a batch failed;
      otherwise it succeeds exactly when every chunk could be sealed, which the heads of
      all runs allow, and then every sample the head held is in a chunk the sink
      accepted. */
  method Drain(mem: MemoryStore, floorFile: FloorFile, floorIo: FloorWrite, batches: seq<set<Chunk>>, acks: seq<bool>) returns (r: Drained)
    requires mem.Valid() && |acks| == |batches| && AllOf(batches) == SealedChunks(SealHead(mem.series))
    modifies mem`series, floorFile
    ensures mem.Valid()
    ensures r.FlushFailed? <==> AllOf(batches) != {} && !(floorIo.Durable? && forall i :: 0 <= i < |acks| ==> acks[i])
    ensures Shaped(old(mem.series)) ==> !r.Incomplete?
    ensures r.DrainedAll? <==> !r.FlushFailed? && forall f :: f in Slots(SealHead(old(mem.series))) ==> f.chunk.sealed
    ensures r.DrainedAll? ==> Slots(mem.series) == {} && HeadSamples(old(mem.series)) == set c, x | c in AllOf(batches) && x in c.samples :: x
  {
    SealSamples(mem.series);
    SealHeadSlots(mem.series);
    if Shaped(mem.series) { SealsEverything(mem.series); }
    var n := mem.SealHeadChunks();
    ghost var full := mem.series;
    var snapshot := mem.SealedChunksSnapshot();
    ghost var flushed := false;
    while snapshot != {}
      invariant mem.Valid() && snapshot == SealedChunks(mem.series)
      invariant !flushed ==> mem.series == full
      invariant flushed ==> snapshot == {} && SealedChunks(full) != {} && floorIo.Durable? && forall i :: 0 <= i < |acks| ==> acks[i]
      invariant flushed ==> mem.series == Pruned(Discard(full, Ids(SealedChunks(full))))
      decreases !flushed
    {
      var f, sent := FlushBlock(mem, floorFile, floorIo, batches, acks);
      if !f.Done? { return FlushFailed; }
      NoSealedLeft(full);
      PrunedSlots(Discard(full, Ids(SealedChunks(full))));
      flushed := true;
      snapshot := mem.SealedChunksSnapshot();
    }
    ghost var cs := SealedChunks(full);
    if flushed { PrunedSlots(Discard(full, Ids(cs))); }
    EmptyIffSealed(full, mem.series, cs);
    var oldest := mem.OldestHeadSegment();
    if oldest >= 0 { return Incomplete; }
    NothingLeft(mem.series, oldest);
    AllWasSealed(full, mem.series, cs);
    r := DrainedAll;
  }

  /** Nothing is left exactly when everything was sealed. */
  lemma EmptyIffSealed(full: Head, after: Head, cs: set<Chunk>)
    requires HeadOk(full) && UniqueIds(full) && cs == SealedChunks(full)
    requires Slots(after) == Slots(Discard(full, Ids(cs))) || (after == full && cs == {})
    ensures Slots(after) == {} <==> forall f :: f in Slots(full) ==> f.chunk.sealed
  {
    DiscardSlots(full, Ids(cs));
    if after == full && cs == {} {
      forall f | f in Slots(full) ensures !f.chunk.sealed { assert f.chunk.sealed ==> f.chunk in cs; }
    } else {
      if Slots(after) == {} {
        forall f | f in Slots(full) ensures f.chunk.sealed { DroppedWasSealed(full, f); }
      }
      if forall f :: f in Slots(full) ==> f.chunk.sealed {
        forall f | f in Slots(full) ensures f.chunk.id in Ids(cs) { assert f.chunk in cs; }
      }
    }
  }

  lemma NothingLeft(h: Head, oldest: int)
    requires HeadOk(h) && IsOldest(h, oldest) && oldest < 0
    ensures Slots(h) == {}
  {
    forall f | f in Slots(h) ensures f.seg >= 0 {
      var id :| id in h && f in h[id];
      assert SlotOk(f, id);
    }
  }

  lemma DroppedWasSealed(full: Head, f: Slot)
    requires HeadOk(full) && UniqueIds(full) && f in Slots(full) && Slots(Discard(full, Ids(SealedChunks(full)))) == {}
    ensures f.chunk in SealedChunks(full)
  {
    DiscardSlots(full, Ids(SealedChunks(full)));
    assert f !in Slots(Discard(full, Ids(SealedChunks(full))));
    var c :| c in SealedChunks(full) && c.id == f.chunk.id;
    var g :| g in Slots(full) && g.chunk.sealed && g.chunk == c;
    SameIdSameSlot(full, f, g);
  }

  /** A head emptied by dropping its sealed chunks held only those. */
  lemma AllWasSealed(full: Head, after: Head, cs: set<Chunk>)
    requires HeadOk(full) && UniqueIds(full) && cs == SealedChunks(full) && Slots(after) == {}
    requires Slots(after) == Slots(Discard(full, Ids(cs))) || (after == full && cs == {})
    ensures HeadSamples(full) == set c, x | c in cs && x in c.samples :: x
  {
    DiscardSlots(full, Ids(cs));
    forall f | f in Slots(full) ensures f.chunk in cs {
      if after != full { DroppedWasSealed(full, f); }
    }
    forall x | x in HeadSamples(full) ensures exists c :: c in cs && x in c.samples {
      var f :| f in Slots(full) && x in f.chunk.samples;
    }
  }
}
