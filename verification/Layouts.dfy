/** Where each number of the file formats lies and how it is written, byte by byte: what
    another reader of the same files would rely on. */
module Layouts {
  import opened Sets
  import opened BitStreams
  import opened Chunks
  import opened ChunkCodec
  import opened Varints
  import BlockIndex
  import PostingsFile
  import WalFormat
  import ChunkFormat

  // ---- numbers ----

  /** The first byte of a fixed-width number is its most significant one. */
  lemma {:induction false} FirstByteCounts(s: seq<Byte>)
    requires s != []
    ensures BEVal(s) == s[0] * Pow256(|s| - 1) + BEVal(s[1..])
  {
    if |s| > 1 {
      var p, last := s[..|s| - 1], s[|s| - 1];
      FirstByteCounts(p);
      assert s[1..][..|s| - 2] == p[1..] && s[1..][|s| - 2] == last;
      Scaled(s[0], Pow256(|s| - 2), BEVal(p[1..]), last);
    } else {
      assert s[1..] == [] && s[..0] == [];
    }
  }

  lemma Scaled(a: nat, p: nat, v: nat, last: nat)
    ensures 256 * (a * p + v) + last == a * (256 * p) + (256 * v + last)
  {
  }

  /** In particular of four. */
  lemma FourBytes(s: seq<Byte>)
    requires |s| == 4
    ensures BEVal(s) == (s[0] as nat) * 0x100_0000 + (s[1] as nat) * 0x1_0000 + (s[2] as nat) * 0x100 + (s[3] as nat)
  {
    var a, b, c := s[1..], s[2..], s[3..];
    FirstByteCounts(s);
    FirstByteCounts(a);
    assert a[1..] == b;
    FirstByteCounts(b);
    assert b[1..] == c;
    FirstByteCounts(c);
    assert Pow256(1) == 256 && Pow256(2) == 0x1_0000 && Pow256(3) == 0x100_0000;
  }

  function Pow128(k: nat): nat { if k == 0 then 1 else 128 * Pow128(k - 1) }

  /** A variable-length number takes as many bytes as it has digits to base 128, and no
      more; its lowest digit comes first. */
  lemma {:induction false} UvarintSize(x: nat, k: nat)
    requires k > 0
    ensures |PutUvarint(x)| <= k <==> x < Pow128(k)
    ensures PutUvarint(x)[0] % 128 == x % 128
  {
    assert Pow128(1) == 128;
    if x >= 128 && k > 1 {
      UvarintSize(x / 128, k - 1);
      assert x / 128 < Pow128(k - 1) <==> x < 128 * Pow128(k - 1);
    }
    if k > 1 { PowAtLeast(k); }
  }

  lemma {:induction false} PowAtLeast(k: nat)
    requires k > 0
    ensures Pow128(k) >= 128
  {
    if k > 1 { PowAtLeast(k - 1); }
  }

  // ---- a WAL record ----

  lemma {:induction false} LabelsTake(ls: seq<WalFormat.LabelPair>)
    requires forall i :: 0 <= i < |ls| ==> WalFormat.LabelFits(ls[i])
    ensures |WalFormat.LabelsBytes(ls)| == 3 * |ls| + TextSize(ls)
  {
    if ls != [] { LabelsTake(ls[1..]); }
  }

  function TextSize(ls: seq<WalFormat.LabelPair>): nat {
    if ls == [] then 0 else |ls[0].name| + |ls[0].value| + TextSize(ls[1..])
  }

  /** The body's length in four bytes, the type 2, the number of labels, the labels, and
      timestamp, value and generation in eight bytes each, as unsigned numbers. */
  lemma RecordLayout(r: WalFormat.Record, s: seq<Byte>)
    requires WalFormat.Writable(r) && s == WalFormat.EncodeRecord(r)
    ensures |s| == 4 + 2 + 3 * |r.labels| + TextSize(r.labels) + 24
    ensures BEVal(s[..4]) == |s| - 4 && s[4] == 2 && s[5] == |r.labels|
    ensures s[6..|s| - 24] == WalFormat.LabelsBytes(r.labels)
    ensures BEVal(s[|s| - 24..|s| - 16]) == (if r.ts >= 0 then r.ts else r.ts + 0x1_0000_0000_0000_0000)
    ensures BEVal(s[|s| - 16..|s| - 8]) == r.val
    ensures BEVal(s[|s| - 8..]) == (if r.gen >= 0 then r.gen else r.gen + 0x1_0000_0000_0000_0000)
  {
    LabelsTake(r.labels);
    WalFormat.PrefixLength(r, []);
    assert WalFormat.EncodeRecord(r) + [] == s;
    Pow256Values();
    BERoundTrip(ToU64(r.ts), 8);
    BERoundTrip(r.val, 8);
    BERoundTrip(ToU64(r.gen), 8);
    var body := WalFormat.Body(r);
    RecordParts(r, body, s);
  }

  lemma RecordParts(r: WalFormat.Record, body: seq<Byte>, s: seq<Byte>)
    requires WalFormat.Writable(r) && body == WalFormat.Body(r) && s == BE(|body|, 4) + body
    ensures |s| >= 30 && s[4] == 2 && s[5] == |r.labels| && s[6..|s| - 24] == WalFormat.LabelsBytes(r.labels)
    ensures s[|s| - 24..|s| - 16] == BE(ToU64(r.ts), 8) && s[|s| - 16..|s| - 8] == BE(r.val, 8) && s[|s| - 8..] == BE(ToU64(r.gen), 8)
  {
    var ls, tail := WalFormat.LabelsBytes(r.labels), WalFormat.Tail(r);
    assert s == BE(|body|, 4) + [2, |r.labels|] + ls + tail;
    assert s[|s| - 24..] == tail;
    SubSlice(s, |s| - 24, |s|, 0, 8);
    SubSlice(s, |s| - 24, |s|, 8, 16);
    SubSlice(s, |s| - 24, |s|, 16, 24);
  }

  /** A label: the name's length in one byte, the name, the value's in two, the value. */
  lemma LabelLayout(l: WalFormat.LabelPair, s: seq<Byte>)
    requires WalFormat.LabelFits(l) && s == WalFormat.LabelBytes(l)
    ensures var n := |l.name|;
      |s| == 3 + n + |l.value| && s[0] == n && s[1..1 + n] == l.name && BEVal(s[1 + n..3 + n]) == |l.value| && s[3 + n..] == l.value
  {
    var n := |l.name|;
    Pow256Values();
    BERoundTrip(|l.value|, 2);
    assert s[1..1 + n] == l.name && s[1 + n..3 + n] == BE(|l.value|, 2) && s[3 + n..] == l.value;
  }

  // ---- a block's index and postings ----

  /** The identity in eight bytes, the size of the labels, the labels, the number of
      chunks, and twelve bytes for the place of each. */
  lemma IndexEntryLayout(e: BlockIndex.SeriesEntry, s: seq<Byte>)
    requires BlockIndex.EntryFits(e) && s == BlockIndex.EntryBytes(e)
    ensures |s| >= 16 && BEVal(s[..8]) == e.id
    ensures var n := BEVal(s[8..12]);
      |s| == 16 + n + 12 * |e.refs| && s[12..12 + n] == BlockIndex.LabelsBytes(e.labels) && BEVal(s[12 + n..16 + n]) == |e.refs|
  {
    var ls := BlockIndex.LabelsBytes(e.labels);
    var n := |ls|;
    Pow256Values();
    BERoundTrip(e.id, 8);
    BERoundTrip(n, 4);
    BERoundTrip(|e.refs|, 4);
    assert s[..8] == BE(e.id, 8) && s[8..12] == BE(n, 4) && s[12..12 + n] == ls;
    assert s[12 + n..16 + n] == BE(|e.refs|, 4);
  }

  /** The magic and the version, the lists, the offset table, and in the last eight bytes
      where that table starts; the table starts with the number of its entries. */
  lemma PostingsLayout(es: seq<PostingsFile.Entry>, s: seq<Byte>) returns (n: nat)
    requires PostingsFile.Fits(es) && s == PostingsFile.FileBytes(es)
    ensures |s| >= 17 && s[..5] == [0x4F, 0x50, 0x50, 0x49, 1] && BEVal(s[|s| - 8..]) == n
    ensures 5 <= n <= |s| - 12 && s[5..n] == PostingsFile.BodyBytes(es) && s[n..|s| - 8] == PostingsFile.OffsetTable(es) && BEVal(s[n..n + 4]) == |es|
  {
    var body, entries := PostingsFile.BodyBytes(es), PostingsFile.TableBytes(PostingsFile.RefsFrom(es, 5));
    n := 5 + |body|;
    var count, footer := BE(|es|, 4), BE(n, 8);
    Numbers(n, |es|);
    assert PostingsFile.OffsetTable(es) == count + entries;
    FileParts(body, count, entries, footer, s);
    assert BEVal(count) == |es| && s[n..n + 4] == count;
  }

  lemma Numbers(a: nat, b: nat)
    requires a <= MAX_INT64 && b < 0x1_0000_0000
    ensures BEVal(BE(a, 8)) == a && BEVal(BE(b, 4)) == b
  {
    Pow256Values();
    BERoundTrip(a, 8);
    BERoundTrip(b, 4);
  }

  lemma FileParts(body: seq<Byte>, count: seq<Byte>, entries: seq<Byte>, footer: seq<Byte>, s: seq<Byte>)
    requires |count| == 4 && |footer| == 8 && s == [0x4F, 0x50, 0x50, 0x49] + [1] + body + (count + entries) + footer
    ensures |s| == 17 + |body| + |entries| && s[..5] == [0x4F, 0x50, 0x50, 0x49, 1] && s[|s| - 8..] == footer
    ensures var n := 5 + |body|; s[5..n] == body && s[n..|s| - 8] == count + entries && s[n..n + 4] == count
  {
    var n, head := 5 + |body|, [0x4F, 0x50, 0x50, 0x49, 1];
    assert head == [0x4F, 0x50, 0x50, 0x49] + [1];
    var front := head + body;
    assert |front| == n && front[..5] == head && front[5..] == body;
    assert s[..n] == front;
    SubSlice(s, 0, n, 0, 5);
    SubSlice(s, 0, n, 5, n);
  }

  // ---- a chunk ----

  /** The earliest and the latest of the samples. */
  predicate Spans(points: seq<Point>, first: Point, last: Point) {
    first in points && last in points && forall x :: x in points ==> first.ts <= x.ts <= last.ts
  }

  /** Four magic bytes, the least and greatest timestamp, the number of samples, the length
      of the stream in bytes, the stream, the generations. */
  lemma ChunkLayout(points: seq<Point>, gens: seq<Gen>, s: seq<Byte>)
    requires points != [] && |points| < 0x1_0000 && |Pack(Stream(points))| < 0x1_0000_0000 && s == ChunkFormat.Encode(points, gens)
    ensures |s| >= 26 && s[..4] == [0x9C, 0x43, 0x48, 0x01]
    ensures exists first, last :: Spans(points, first, last) && BEVal(s[4..12]) == ToU64(first.ts) && BEVal(s[12..20]) == ToU64(last.ts)
    ensures BEVal(s[20..22]) == |points| && var n := BEVal(s[22..26]);
      26 + n <= |s| && s[26..26 + n] == Pack(Stream(points)) && s[26 + n..] == GenBytes(gens)
  {
    ChunkFormat.BoundsAreBounds(points);
    var lo, hi, bits := ChunkFormat.MinOf(points), ChunkFormat.MaxOf(points), Pack(Stream(points));
    ChunkFormat.HeaderParts(lo, hi, |points|, |bits|, bits + GenBytes(gens));
    ConcatAssoc(ChunkFormat.Header(lo, hi, |points|, |bits|), bits, GenBytes(gens));
    Pow256Values();
    BERoundTrip(ToU64(lo), 8);
    BERoundTrip(ToU64(hi), 8);
    BERoundTrip(|points|, 2);
    BERoundTrip(|bits|, 4);
    assert s[26..] == bits + GenBytes(gens);
    assert s[26..26 + |bits|] == bits && s[26 + |bits|..] == GenBytes(gens);
    var first :| first in points && first.ts == lo;
    var last :| last in points && last.ts == hi;
    assert Spans(points, first, last);
  }
}
