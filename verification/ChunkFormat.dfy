/** The chunk as an object, its iterator, and its persisted form. */
module ChunkFormat {
  import opened Options
  import opened Sets
  import opened BitStreams
  import opened Chunks
  import opened ChunkCodec
  import opened Varints

  // ---- bounds of a sequence of samples ----

  function MinOf(xs: seq<Point>): int {
    if xs == [] then 0
    else if |xs| == 1 then xs[0].ts
    else Min(MinOf(xs[..|xs| - 1]), xs[|xs| - 1].ts)
  }

  function MaxOf(xs: seq<Point>): int {
    if xs == [] then 0
    else if |xs| == 1 then xs[0].ts
    else Max(MaxOf(xs[..|xs| - 1]), xs[|xs| - 1].ts)
  }

  lemma {:induction false} BoundsAreBounds(xs: seq<Point>)
    requires xs != []
    ensures forall x :: x in xs ==> MinOf(xs) <= x.ts <= MaxOf(xs)
    ensures Int64(MinOf(xs)) && Int64(MaxOf(xs))
    ensures (exists x :: x in xs && x.ts == MinOf(xs)) && exists x :: x in xs && x.ts == MaxOf(xs)
  {
    var n := |xs| - 1;
    assert xs == xs[..n] + [xs[n]];
    if n > 0 { BoundsAreBounds(xs[..n]); }
    assert xs[n] in xs;
  }

  // ---- Chunk ----

  datatype Appended = Stored | Full | BadGeneration

  class Chunk {
    const bw: BitsWriter
    var coder: Coder
    var minTs: int
    var maxTs: int
    var sealed: bool
    var gens: seq<Gen>
    var maxGen: int
    ghost var points: seq<Point>

    ghost predicate Coded() reads this, bw {
      bw.Valid() && bw.stream == Stream(points) && coder == CoderAfter(points)
    }

    ghost predicate Valid() reads this, bw {
      && Coded()
      && minTs == MinOf(points) && maxTs == MaxOf(points)
      && |gens| == |points| <= MAX_SAMPLES && (|points| == MAX_SAMPLES ==> sealed)
      && maxGen >= 0 && (forall g :: g in gens ==> g <= maxGen)
    }

    constructor ()
      ensures Valid() && points == [] && gens == [] && !sealed && fresh(bw)
    {
      bw := new BitsWriter();
      coder, minTs, maxTs, sealed, gens, maxGen, points := START, 0, 0, false, [], 0, [];
    }

    /** Refuses when sealed and for a generation out of range; otherwise the sample is
        added to the stream, the bounds widen, and the chunk may seal. */
    method Append(ts: I64, val: W64, gen: int) returns (r: Appended)
      requires Valid()
      modifies this, bw
      ensures Valid()
      ensures r.Full? <==> old(sealed)
      ensures r.BadGeneration? <==> !old(sealed) && !GenOk(gen)
      ensures !r.Stored? ==> points == old(points) && gens == old(gens) && sealed == old(sealed)
      ensures r.Stored? ==> points == old(points) + [Point(ts, val)] && gens == old(gens) + [gen]
      ensures r.Stored? ==> sealed == (old(points) != [] && SealsAt(|points|, minTs, maxTs))
    {
      if sealed { return Full; }
      if !GenOk(gen) { return BadGeneration; }
      if coder.n == 0 {
        AppendFirst(ts, val, gen);
      } else {
        AppendLater(ts, val, gen);
      }
      r := Stored;
    }

    method AppendFirst(ts: I64, val: W64, gen: Gen)
      requires Valid() && !sealed && coder.n == 0
      modifies this, bw
      ensures Valid() && !sealed && points == old(points) + [Point(ts, val)] && gens == old(gens) + [gen]
    {
      AppendPoint(points, Point(ts, val));
      gens := gens + [gen];
      if gen > maxGen { maxGen := gen; }
      points := points + [Point(ts, val)];
      coder := WriteFirst(bw, coder, ts, val);
      minTs, maxTs := ts, ts;
    }

    method AppendLater(ts: I64, val: W64, gen: Gen)
      requires Valid() && !sealed && coder.n > 0
      modifies this, bw
      ensures Valid() && points == old(points) + [Point(ts, val)] && gens == old(gens) + [gen]
      ensures sealed == SealsAt(|points|, minTs, maxTs)
    {
      WidenBounds(points, Point(ts, val));
      Extend(ts, val);
      Track(ts, gen);
      if SealsAt(coder.n, minTs, maxTs) { sealed := true; }
    }

    method Track(ts: int, gen: Gen)
      modifies this`gens, this`maxGen, this`minTs, this`maxTs
      ensures gens == old(gens) + [gen] && maxGen == Max(gen, old(maxGen))
      ensures minTs == Min(old(minTs), ts) && maxTs == Max(old(maxTs), ts)
    {
      gens := gens + [gen];
      if gen > maxGen { maxGen := gen; }
      if ts < minTs { minTs := ts; }
      if ts > maxTs { maxTs := ts; }
    }

    /** The stream's part of an append. */
    method Extend(ts: I64, val: W64)
      requires Coded() && points != []
      modifies this`coder, this`points, bw
      ensures Coded() && points == old(points) + [Point(ts, val)]
    {
      coder := WriteOn(bw, coder, points, ts, val);
      points := points + [Point(ts, val)];
    }

    /** The persisted form. */
    method Bytes() returns (out: seq<Byte>)
      requires Valid()
      ensures out == Encode(points, gens)
    {
      var bitstream := bw.Bytes();
      var genBuf := WriteGens(gens);
      if points != [] { BoundsAreBounds(points); }
      out := Header(minTs, maxTs, coder.n, |bitstream|) + bitstream + genBuf;
    }
  }

  method WriteGens(gens: seq<Gen>) returns (genBuf: seq<Byte>)
    ensures genBuf == GenBytes(gens)
  {
    genBuf := [];
    var i := 0;
    while i < |gens|
      invariant 0 <= i <= |gens| && genBuf == GenBytes(gens[..i])
    {
      assert gens[..i + 1][..i] == gens[..i];
      if i == 0 {
        assert [] + PutUvarint(gens[0]) == PutUvarint(gens[0]);
        genBuf := genBuf + PutUvarint(gens[0]);
      } else {
        assert gens[..i + 1][i - 1] == gens[i - 1];
        genBuf := genBuf + PutVarint(gens[i] as int - gens[i - 1]);
      }
      i := i + 1;
    }
    assert gens[..i] == gens;
  }

  /** The first sample: absolute timestamp, raw value. */
  method WriteFirst(w: BitsWriter, st: Coder, ts: I64, val: W64) returns (after: Coder)
    requires w.Valid() && CoderOk(st) && st.n == 0
    modifies w
    ensures w.Valid() && w.stream == old(w.stream) + SampleBits(st, Point(ts, val))
    ensures after == AfterSample(st, Point(ts, val))
  {
    w.WriteBits(ToU64(ts), 64);
    w.WriteBits(val, 64);
    ConcatAssoc(old(w.stream), NatBits(ToU64(ts), 64), NatBits(val, 64));
    after := st.(n := 1, lastTs := ts, lastVal := val);
  }

  /** Every other one: wrapping deltas, then the value. */
  method WriteLater(w: BitsWriter, st: Coder, ts: I64, val: W64) returns (after: Coder)
    requires w.Valid() && CoderOk(st) && st.n > 0
    modifies w
    ensures w.Valid() && w.stream == old(w.stream) + SampleBits(st, Point(ts, val))
    ensures after == AfterSample(st, Point(ts, val))
  {
    var delta := Wrap64(ts - st.lastTs);
    var dod := Wrap64(delta - st.lastDelta);
    WriteDod(w, dod);
    var value := WriteValue(w, st, val);
    assert w.stream == old(w.stream) + (DodBits(dod) + ValueBits(st, val)) by {
      ConcatAssoc(old(w.stream), DodBits(dod), ValueBits(st, val));
    }
    LaterCode(st, Point(ts, val), dod);
    after := value.(n := st.n + 1, lastTs := ts, lastDelta := delta);
  }

  lemma LaterCode(st: Coder, x: Point, dod: int)
    requires CoderOk(st) && st.n > 0 && dod == Wrap64(Wrap64(x.ts - st.lastTs) - st.lastDelta)
    ensures SampleBits(st, x) == DodBits(dod) + ValueBits(st, x.val)
  {
  }

  /** WriteLater seen from the whole stream. */
  method WriteOn(w: BitsWriter, st: Coder, ghost points: seq<Point>, ts: I64, val: W64) returns (after: Coder)
    requires w.Valid() && points != []
    requires w.stream == Stream(points) && st == CoderAfter(points)
    modifies w
    ensures w.Valid()
    ensures w.stream == Stream(points + [Point(ts, val)]) && after == CoderAfter(points + [Point(ts, val)])
  {
    AppendPoint(points, Point(ts, val));
    after := WriteLater(w, st, ts, val);
  }

  lemma WidenBounds(xs: seq<Point>, x: Point)
    ensures MinOf(xs + [x]) == if xs == [] then x.ts else Min(MinOf(xs), x.ts)
    ensures MaxOf(xs + [x]) == if xs == [] then x.ts else Max(MaxOf(xs), x.ts)
  {
    assert (xs + [x])[..|xs|] == xs;
  }

  lemma AppendPoint(xs: seq<Point>, x: Point)
    ensures Stream(xs + [x]) == Stream(xs) + SampleBits(CoderAfter(xs), x)
    ensures CoderAfter(xs + [x]) == AfterSample(CoderAfter(xs), x)
    ensures MinOf(xs + [x]) == if xs == [] then x.ts else Min(MinOf(xs), x.ts)
    ensures MaxOf(xs + [x]) == if xs == [] then x.ts else Max(MaxOf(xs), x.ts)
  {
    AppendSample(xs, x);
    WidenBounds(xs, x);
  }

  /** writeTimestampDod. */
  method WriteDod(w: BitsWriter, dod: int)
    requires w.Valid() && Int64(dod)
    modifies w
    ensures w.Valid() && w.stream == old(w.stream) + DodBits(dod)
  {
    if dod == 0 {
      w.WriteBit(false);
    } else if -64 <= dod <= 63 {
      WriteClass(w, [true, false], dod, 7);
    } else if -256 <= dod <= 255 {
      WriteClass(w, [true, true, false], dod, 9);
    } else if -2048 <= dod <= 2047 {
      WriteClass(w, [true, true, true, false], dod, 12);
    } else {
      WriteClass(w, [true, true, true, true], dod, 64);
    }
  }

  method WriteClass(w: BitsWriter, control: seq<bool>, dod: int, n: nat)
    requires w.Valid() && Int64(dod)
    modifies w
    ensures w.Valid() && w.stream == old(w.stream) + (control + NatBits(ZigZag(dod), n))
  {
    WriteControl(w, control);
    w.WriteBits(ZigZag(dod), n);
    ConcatAssoc(old(w.stream), control, NatBits(ZigZag(dod), n));
  }

  method WriteControl(w: BitsWriter, control: seq<bool>)
    requires w.Valid()
    modifies w
    ensures w.Valid() && w.stream == old(w.stream) + control
  {
    var i := 0;
    while i < |control|
      invariant 0 <= i <= |control| && w.Valid() && w.stream == old(w.stream) + control[..i]
    {
      assert control[..i + 1] == control[..i] + [control[i]];
      w.WriteBit(control[i]);
      i := i + 1;
    }
    assert control[..i] == control;
  }

  /** writeValueXOR: the window is written by shifting the xor right, and kept for the
      next value. */
  method WriteValue(w: BitsWriter, st: Coder, val: nat) returns (after: Coder)
    requires w.Valid() && CoderOk(st) && U64(val)
    modifies w
    ensures w.Valid() && w.stream == old(w.stream) + ValueBits(st, val)
    ensures after == AfterValue(st, val)
  {
    after := WriteXor(w, st, Xor(st.lastVal, val));
    after := after.(lastVal := val);
  }

  method WriteXor(w: BitsWriter, st: Coder, x: nat) returns (after: Coder)
    requires w.Valid() && CoderOk(st) && U64(x)
    modifies w
    ensures w.Valid() && w.stream == old(w.stream) + XorCode(st, x)
    ensures after == AfterXor(st, x)
  {
    after := st;
    if x == 0 {
      w.WriteBit(false);
    } else if st.leading != 255 && Leading(x) >= st.leading && Trailing(x) >= st.trailing {
      WriteReuse(w, x, st.leading, st.trailing);
    } else {
      after := WriteFresh(w, st, x);
    }
  }

  method WriteFresh(w: BitsWriter, st: Coder, x: nat) returns (after: Coder)
    requires w.Valid() && CoderOk(st) && U64(x) && x > 0 && !Reuses(st, x)
    modifies w
    ensures w.Valid() && w.stream == old(w.stream) + XorCode(st, x)
    ensures after == AfterXor(st, x)
  {
    WindowHolds(x);
    WriteBlock(w, x, Leading(x), Trailing(x));
    after := st.(leading := Leading(x), trailing := Trailing(x));
  }

  method WriteReuse(w: BitsWriter, x: nat, l: nat, t: nat)
    requires w.Valid() && l + t <= 64
    modifies w
    ensures w.Valid() && w.stream == old(w.stream) + ([true, false] + NatBits(x, 64)[l..64 - t])
  {
    WriteControl(w, [true, false]);
    WriteWindow(w, x, l, t);
    ConcatAssoc(old(w.stream), [true, false], NatBits(x, 64)[l..64 - t]);
  }

  method WriteBlock(w: BitsWriter, x: nat, lz: nat, tz: nat)
    requires w.Valid() && lz + tz < 64
    modifies w
    ensures w.Valid()
    ensures w.stream == old(w.stream) + BlockCode(x, lz, tz)
  {
    WriteHeader(w, lz, 64 - lz - tz);
    WriteWindow(w, x, lz, tz);
    ConcatAssoc(old(w.stream), [true, true] + NatBits(lz, 5) + NatBits(64 - lz - tz - 1, 6), NatBits(x, 64)[lz..64 - tz]);
  }

  method WriteWindow(w: BitsWriter, x: nat, l: nat, t: nat)
    requires w.Valid() && l + t <= 64
    modifies w
    ensures w.Valid() && w.stream == old(w.stream) + NatBits(x, 64)[l..64 - t]
  {
    WindowBits(x, l, t);
    w.WriteBits(Shr(x, t), 64 - l - t);
  }

  method WriteHeader(w: BitsWriter, lz: nat, sig: nat)
    requires w.Valid() && sig > 0
    modifies w
    ensures w.Valid() && w.stream == old(w.stream) + ([true, true] + NatBits(lz, 5) + NatBits(sig - 1, 6))
  {
    ghost var s, a, b, c := w.stream, [true, true], NatBits(lz, 5), NatBits(sig - 1, 6);
    WriteControl(w, [true, true]);
    w.WriteBits(lz, 5);
    w.WriteBits(sig - 1, 6);
    ConcatAssoc(s, a, b);
    ConcatAssoc(s, a + b, c);
  }

  /** xor >> t, low 64-l-t bits, are the bits between the window's ends. */
  lemma WindowBits(x: nat, l: nat, t: nat)
    requires l + t <= 64
    ensures NatBits(Shr(x, t), 64 - l - t) == NatBits(x, 64)[l..64 - t]
  {
    ShiftBits(x, 64 - l - t, t);
    LowBits(x, 64, 64 - l);
    assert NatBits(x, 64)[l..64 - t] == NatBits(x, 64)[l..][..64 - l - t];
  }

  // ---- the persisted form ----

  const MAGIC: seq<Byte> := [0x9C, 67, 72, 0x01]

  function Header(minTs: int, maxTs: int, n: nat, bitLen: nat): (h: seq<Byte>)
    requires Int64(minTs) && Int64(maxTs)
    ensures |h| == 26
  {
    MAGIC + BE(ToU64(minTs), 8) + BE(ToU64(maxTs), 8) + BE(n, 2) + BE(bitLen, 4)
  }

  function Encode(points: seq<Point>, gens: seq<Gen>): seq<Byte>
  {
    if points != [] then (BoundsAreBounds(points); Body(points, gens)) else Body(points, gens)
  }

  function Body(points: seq<Point>, gens: seq<Gen>): seq<Byte>
    requires Int64(MinOf(points)) && Int64(MaxOf(points))
  {
    var bits := Pack(Stream(points));
    Header(MinOf(points), MaxOf(points), |points|, |bits|) + bits + GenBytes(gens)
  }

  /** What a persisted chunk turns out to hold. */
  datatype Parsed = Parsed(points: seq<Point>, gens: seq<Gen>, minTs: int, maxTs: int)

  /** decodeAndValidate: exactly n samples, matching bounds, no whole byte left. */
  function DecodePoints(minTs: int, maxTs: int, n: nat, payload: seq<Byte>): Option<seq<Point>> {
    if n == 0 then (if minTs == 0 && maxTs == 0 && payload == [] then Some([]) else None)
    else
      match ReadAll(AllBits(payload), n)
      case Eof => None
      case Got(xs, rest) => if MinOf(xs) == minTs && MaxOf(xs) == maxTs && |rest| < 8 then Some(xs) else None
  }

  /** FromBytes. */
  function Parse(data: seq<Byte>): (r: Option<Parsed>) {
    if |data| < 26 || data[..4] != MAGIC then None
    else
      var minTs, maxTs := HeaderTs(data[4..12]), HeaderTs(data[12..20]);
      var n, bitLen := BEVal(data[20..22]), BEVal(data[22..26]);
      if 26 + bitLen > |data| then None
      else
        match DecodePoints(minTs, maxTs, n, data[26..26 + bitLen])
        case None => None
        case Some(points) =>
          match DecodeGens(data[26 + bitLen..], n)
          case None => None
          case Some(gens) => Some(Parsed(points, gens, minTs, maxTs))
  }

  function HeaderTs(s: seq<Byte>): (ts: int)
    requires |s| == 8
    ensures Int64(ts)
  {
    BEValBound(s);
    Pow256Values();
    ToI64(BEVal(s))
  }

  lemma TsRoundTrip(ts: int)
    requires Int64(ts)
    ensures HeaderTs(BE(ToU64(ts), 8)) == ts
  {
    Pow256Values();
    BERoundTrip(ToU64(ts), 8);
  }

  /** The parts of a file with a well-formed header. */
  lemma HeaderParts(minTs: int, maxTs: int, n: nat, bitLen: nat, tail: seq<Byte>)
    requires Int64(minTs) && Int64(maxTs)
    ensures var data := Header(minTs, maxTs, n, bitLen) + tail;
      |data| == 26 + |tail| && data[..4] == MAGIC
      && data[4..12] == BE(ToU64(minTs), 8) && data[12..20] == BE(ToU64(maxTs), 8)
      && data[20..22] == BE(n, 2) && data[22..26] == BE(bitLen, 4) && data[26..] == tail
  {
  }

  lemma ParseParts(minTs: int, maxTs: int, n: nat, bits: seq<Byte>, genBytes: seq<Byte>)
    requires Int64(minTs) && Int64(maxTs) && n < 0x1_0000 && |bits| < 0x1_0000_0000
    ensures Parse(Header(minTs, maxTs, n, |bits|) + bits + genBytes) ==
      match DecodePoints(minTs, maxTs, n, bits)
      case None => None
      case Some(points) =>
        match DecodeGens(genBytes, n)
        case None => None
        case Some(gens) => Some(Parsed(points, gens, minTs, maxTs))
  {
    var tail := bits + genBytes;
    var data := Header(minTs, maxTs, n, |bits|) + tail;
    assert Header(minTs, maxTs, n, |bits|) + bits + genBytes == data;
    HeaderParts(minTs, maxTs, n, |bits|, tail);
    TsRoundTrip(minTs);
    TsRoundTrip(maxTs);
    Pow256Values();
    BERoundTrip(n, 2);
    BERoundTrip(|bits|, 4);
    assert data[26..26 + |bits|] == data[26..][..|bits|] == bits;
    assert data[26 + |bits|..] == data[26..][|bits|..] == genBytes;
  }

  lemma PointsRoundTrip(points: seq<Point>)
    requires points != []
    ensures DecodePoints(MinOf(points), MaxOf(points), |points|, Pack(Stream(points))) == Some(points)
  {
    var s := Stream(points);
    var pad := Zeros(Padding(|s|));
    PackBits(s);
    StreamRoundTrip(points, pad);
    DecodedPoints(Pack(s), points, pad);
  }

  lemma DecodedPoints(payload: seq<Byte>, points: seq<Point>, pad: seq<bool>)
    requires points != [] && ReadAll(AllBits(payload), |points|) == Got(points, pad) && |pad| < 8
    ensures DecodePoints(MinOf(points), MaxOf(points), |points|, payload) == Some(points)
  {
  }

  /** No sample takes more than 145 bits, so a chunk's length fits its header. */
  lemma {:induction false} StreamLength(points: seq<Point>)
    ensures |Stream(points)| <= 145 * |points|
  {
    if points != [] {
      var p := points[..|points| - 1];
      StreamLength(p);
      SampleLength(CoderAfter(p), points[|points| - 1]);
    }
  }

  lemma SampleLength(st: Coder, x: Point)
    requires CoderOk(st)
    ensures |SampleBits(st, x)| <= 145
  {
    if st.n > 0 { ValueLength(st, x.val); }
  }

  lemma ValueLength(st: Coder, v: nat)
    requires CoderOk(st) && U64(v)
    ensures |ValueBits(st, v)| <= 77
  {
    var x := Xor(st.lastVal, v);
    if x != 0 { WindowHolds(x); }
  }

  /** The chunk codec's round trip: whatever a chunk accepted, its bytes are accepted
      and give back exactly its samples, generations and bounds. */
  lemma ChunkRoundTrip(points: seq<Point>, gens: seq<Gen>)
    requires |gens| == |points| <= MAX_SAMPLES
    ensures Parse(Encode(points, gens)) == Some(Parsed(points, gens, MinOf(points), MaxOf(points)))
  {
    StreamLength(points);
    GensRoundTrip(gens);
    if points == [] {
      assert Stream(points) == [] && Pack([]) == [];
    } else {
      BoundsAreBounds(points);
      PointsRoundTrip(points);
    }
    ParseParts(MinOf(points), MaxOf(points), |points|, Pack(Stream(points)), GenBytes(gens));
  }

  /** Whatever bytes are accepted, the result is coherent: as many generations as
      samples, and bounds that are the samples' own. */
  lemma AcceptedIsCoherent(data: seq<Byte>)
    requires Parse(data).Some?
    ensures var p := Parse(data).value;
      |p.gens| == |p.points| && p.minTs == MinOf(p.points) && p.maxTs == MaxOf(p.points)
  {
    var n := BEVal(data[20..22]);
    if n > 0 {
      var r := ReadFrom(START, AllBits(data[26..26 + BEVal(data[22..26])]), n);
    }
  }

  // ---- Iterator ----

  class Iterator {
    const br: BitsReader
    const total: nat
    var coder: Coder
    var failed: bool

    ghost predicate Valid() reads this, br {
      br.Valid()
    }

    constructor (data: seq<Byte>, count: nat)
      ensures Valid() && coder == START && !failed && total == count && br.rest == AllBits(data) && fresh(br)
    {
      br := new BitsReader(data);
      total, coder, failed := count, START, false;
    }

    /** Advances to the next sample, which coder.lastTs and coder.lastVal then hold. */
    method Next() returns (more: bool)
      requires Valid()
      modifies this, br
      ensures Valid()
      ensures old(coder.n >= total || failed) ==> !more && coder == old(coder) && failed == old(failed) && br.rest == old(br.rest)
      ensures !old(coder.n >= total || failed) ==> more == ReadSample(old(coder), old(br.rest)).Got? && failed == !more
      ensures more ==> ReadSample(old(coder), old(br.rest)) == Got(coder, br.rest)
    {
      if coder.n >= total || failed { return false; }
      var st: Option<Coder>;
      if coder.n == 0 {
        st := NextFirst(br, coder);
      } else {
        st := NextLater(br, coder);
      }
      if st.None? { failed := true; return false; }
      coder := st.value;
      more := true;
    }
  }

  method NextFirst(br: BitsReader, st: Coder) returns (r: Option<Coder>)
    requires br.Valid() && st.n == 0
    modifies br
    ensures br.Valid()
    ensures r.None? <==> ReadSample(st, old(br.rest)).Eof?
    ensures r.Some? ==> ReadSample(st, old(br.rest)) == Got(r.value, br.rest)
  {
    var ts := br.ReadBits(64);
    if ts.None? { return None; }
    ghost var mid := br.rest;
    var val := br.ReadBits(64);
    if val.None? { return None; }
    NatValFits(old(br.rest)[..64]);
    NatValFits(mid[..64]);
    r := Some(st.(n := 1, lastTs := ToI64(ts.value), lastVal := val.value));
  }

  method NextLater(br: BitsReader, st: Coder) returns (r: Option<Coder>)
    requires br.Valid() && st.n > 0
    modifies br
    ensures br.Valid()
    ensures r.None? <==> ReadSample(st, old(br.rest)).Eof?
    ensures r.Some? ==> ReadSample(st, old(br.rest)) == Got(r.value, br.rest)
  {
    ghost var s := br.rest;
    var dod := DecodeTimestamp(br);
    if dod.None? {
      NoSample(st, s);
      return None;
    }
    ghost var s1 := br.rest;
    var st1 := StepTime(st, dod.value);
    var st2 := DecodeValue(br, st1);
    SampleByParts(st, s, dod.value, s1);
    r := if st2.None? then None else Some(st2.value.(n := st.n + 1));
  }

  lemma NoSample(st: Coder, s: seq<bool>)
    requires st.n > 0 && ReadDod(s).Eof?
    ensures ReadSample(st, s).Eof?
  {
  }

  lemma SampleByParts(st: Coder, s: seq<bool>, dod: int, s1: seq<bool>)
    requires st.n > 0 && ReadDod(s) == Got(dod, s1)
    ensures var v := ReadValue(StepTime(st, dod), s1);
      ReadSample(st, s) == if v.Eof? then Eof else Got(v.value.(n := st.n + 1), v.rest)
  {
  }

  method ReadZigZagBits(br: BitsReader, n: nat) returns (v: Option<int>)
    requires br.Valid() && n <= 64
    modifies br
    ensures br.Valid()
    ensures v.None? <==> ReadZigZag(old(br.rest), n).Eof?
    ensures v.Some? ==> ReadZigZag(old(br.rest), n) == Got(v.value, br.rest)
  {
    var z := br.ReadBits(n);
    if z.None? { return None; }
    NatValFits(old(br.rest)[..n]);
    v := Some(UnZigZag(z.value));
  }

  /** decodeTimestamp. */
  method DecodeTimestamp(br: BitsReader) returns (v: Option<int>)
    requires br.Valid()
    modifies br
    ensures br.Valid()
    ensures v.None? <==> ReadDod(old(br.rest)).Eof?
    ensures v.Some? ==> ReadDod(old(br.rest)) == Got(v.value, br.rest) && Int64(v.value)
  {
    ghost var s := br.rest;
    var b0 := br.ReadBit();
    if b0.None? { return None; }
    if !b0.value { return Some(0); }
    var b1 := br.ReadBit();
    if b1.None? { return None; }
    assert br.rest == s[2..] && b1.value == s[1];
    if b1.value {
      v := DecodeWide(br);
    } else {
      v := ReadZigZagBits(br, 7);
    }
  }

  method DecodeWide(br: BitsReader) returns (v: Option<int>)
    requires br.Valid()
    modifies br
    ensures br.Valid()
    ensures v.None? <==> ReadWideDod(old(br.rest)).Eof?
    ensures v.Some? ==> ReadWideDod(old(br.rest)) == Got(v.value, br.rest) && Int64(v.value)
  {
    ghost var s := br.rest;
    var b2 := br.ReadBit();
    if b2.None? { return None; }
    if !b2.value { v := ReadZigZagBits(br, 9); return; }
    var b3 := br.ReadBit();
    if b3.None? { return None; }
    assert br.rest == s[2..] && b3.value == s[1];
    if b3.value {
      v := ReadZigZagBits(br, 64);
    } else {
      v := ReadZigZagBits(br, 12);
    }
  }

  /** The significant bits of a block, put back in place. */
  method DecodeBlock(br: BitsReader, leading: nat, trailing: nat, n: nat) returns (r: Option<Window>)
    requires br.Valid()
    modifies br
    ensures br.Valid()
    ensures r.None? <==> ReadBlock(leading, trailing, old(br.rest), n).Eof?
    ensures r.Some? ==> ReadBlock(leading, trailing, old(br.rest), n) == Got(r.value, br.rest)
  {
    var width := if n > 64 then 64 else n;
    var v := br.ReadBits(n);
    if v.None? { return None; }
    BitsOfVal(old(br.rest)[..width]);
    r := Some(Window(NatVal(Shl64(NatBits(v.value, width), trailing)), leading, trailing));
  }

  /** decodeValue. */
  method DecodeValue(br: BitsReader, st: Coder) returns (r: Option<Coder>)
    requires br.Valid()
    modifies br
    ensures br.Valid()
    ensures r.None? <==> ReadValue(st, old(br.rest)).Eof?
    ensures r.Some? ==> ReadValue(st, old(br.rest)) == Got(r.value, br.rest)
  {
    var w := DecodeXor(br, st.leading, st.trailing);
    r := if w.None? then None else Some(ApplyXor(st, w.value));
  }

  method DecodeXor(br: BitsReader, leading: nat, trailing: nat) returns (r: Option<Window>)
    requires br.Valid()
    modifies br
    ensures br.Valid()
    ensures r.None? <==> ReadXor(leading, trailing, old(br.rest)).Eof?
    ensures r.Some? ==> ReadXor(leading, trailing, old(br.rest)) == Got(r.value, br.rest) && U64(r.value.x)
  {
    ghost var s := br.rest;
    var b0 := br.ReadBit();
    if b0.None? { return None; }
    if !b0.value { return Some(Window(0, leading, trailing)); }
    var b1 := br.ReadBit();
    if b1.None? { return None; }
    assert br.rest == s[2..] && b1.value == s[1];
    if !b1.value {
      r := DecodeBlock(br, leading, trailing, Sub8(Sub8(64, leading), trailing));
      return;
    }
    var lz := br.ReadBits(5);
    if lz.None? { return None; }
    var sb := br.ReadBits(6);
    if sb.None? { return None; }
    r := DecodeBlock(br, lz.value, Sub8(Sub8(64, lz.value), sb.value + 1), sb.value + 1);
  }

  // ---- FromBytes ----

  /** The decode loop: xs are decoded, and what follows is what is still to come. */
  ghost predicate Decoding(xs: seq<Point>, st: Coder, s: seq<bool>, n: nat, all: Read<seq<Point>>) {
    && st.n == |xs| <= n && all == Prepend(xs, ReadFrom(st, s, n - |xs|))
  }

  lemma DecodingStep(xs: seq<Point>, st: Coder, s: seq<bool>, n: nat, all: Read<seq<Point>>, st': Coder, rest: seq<bool>)
    requires Decoding(xs, st, s, n, all) && |xs| < n && ReadSample(st, s) == Got(st', rest)
    ensures Decoding(xs + [Point(st'.lastTs, st'.lastVal)], st', rest, n, all)
  {
    var x := Point(st'.lastTs, st'.lastVal);
    var r := ReadFrom(st', rest, n - |xs| - 1);
    ReadStep(st, s, n - |xs|, st', rest);
    assert all == Prepend(xs, Prepend([x], r));
    PrependTwice(xs, x, r);
    var ys := xs + [x];
    assert n - |ys| == n - |xs| - 1;
  }

  lemma PrependTwice(xs: seq<Point>, x: Point, r: Read<seq<Point>>)
    ensures Prepend(xs, Prepend([x], r)) == Prepend(xs + [x], r)
  {
    if r.Got? { ConcatAssoc(xs, [x], r.value); }
  }

  lemma DecodingStops(xs: seq<Point>, st: Coder, s: seq<bool>, n: nat, all: Read<seq<Point>>)
    requires Decoding(xs, st, s, n, all)
    ensures |xs| == n ==> all == Got(xs, s)
    ensures |xs| < n && ReadSample(st, s).Eof? ==> all.Eof?
  {
    assert xs + [] == xs;
  }

  lemma DecodingStart(s: seq<bool>, n: nat)
    ensures Decoding([], START, s, n, ReadAll(s, n))
  {
    var r := ReadFrom(START, s, n);
    if r.Got? { assert [] + r.value == r.value; }
  }

  /** The eager decode of every declared sample. */
  method DecodeAll(payload: seq<Byte>, n: nat) returns (r: Option<seq<Point>>, gotMin: int, gotMax: int, atEnd: bool)
    ensures r.None? <==> ReadAll(AllBits(payload), n).Eof?
    ensures r.Some? ==> ReadAll(AllBits(payload), n).Got? && r.value == ReadAll(AllBits(payload), n).value
    ensures r.Some? ==> gotMin == MinOf(r.value) && gotMax == MaxOf(r.value) && (atEnd <==> |ReadAll(AllBits(payload), n).rest| < 8)
  {
    var it := new Iterator(payload, n);
    var xs: seq<Point> := [];
    gotMin, gotMax, atEnd := 0, 0, false;
    ghost var all := ReadAll(AllBits(payload), n);
    DecodingStart(AllBits(payload), n);
    while true
      invariant it.Valid() && fresh(it) && fresh(it.br) && it.total == n && !it.failed
      invariant Decoding(xs, it.coder, it.br.rest, n, all)
      invariant gotMin == MinOf(xs) && gotMax == MaxOf(xs)
      decreases n - |xs|
    {
      ghost var st, s := it.coder, it.br.rest;
      DecodingStops(xs, st, s, n, all);
      var more := it.Next();
      if !more { break; }
      DecodingStep(xs, st, s, n, all, it.coder, it.br.rest);
      var x := Point(it.coder.lastTs, it.coder.lastVal);
      WidenBounds(xs, x);
      if xs == [] {
        gotMin, gotMax := x.ts, x.ts;
      } else {
        if x.ts < gotMin { gotMin := x.ts; }
        if x.ts > gotMax { gotMax := x.ts; }
      }
      xs := xs + [x];
    }
    if it.failed { return None, gotMin, gotMax, false; }
    atEnd := it.br.AtEnd();
    r := Some(xs);
  }

  /** FromBytes: accepts exactly the well-formed chunks Parse describes. */
  method FromBytes(data: seq<Byte>) returns (r: Option<Parsed>)
    ensures r == Parse(data)
  {
    if |data| < 26 || data[0] != MAGIC[0] || data[1] != MAGIC[1] || data[2] != MAGIC[2] || data[3] != MAGIC[3] {
      assert |data| >= 26 ==> data[..4][0] == data[0] && data[..4][1] == data[1] && data[..4][2] == data[2] && data[..4][3] == data[3];
      return None;
    }
    assert data[..4] == MAGIC;
    var minTs, maxTs := HeaderTs(data[4..12]), HeaderTs(data[12..20]);
    var n, bitLen := BEVal(data[20..22]), BEVal(data[22..26]);
    if 26 + bitLen > |data| { return None; }
    var points := DecodeAndValidate(minTs, maxTs, n, data[26..26 + bitLen]);
    if points.None? { return None; }
    var gens := DecodeGensInto(data[26 + bitLen..], n);
    if gens.None? { return None; }
    r := Some(Parsed(points.value, gens.value, minTs, maxTs));
  }

  method DecodeAndValidate(minTs: int, maxTs: int, n: nat, payload: seq<Byte>) returns (r: Option<seq<Point>>)
    ensures r == DecodePoints(minTs, maxTs, n, payload)
  {
    if n == 0 {
      if minTs != 0 || maxTs != 0 || payload != [] { return None; }
      return Some([]);
    }
    var points, gotMin, gotMax, atEnd := DecodeAll(payload, n);
    if points.None? { return None; }
    if gotMin != minTs || gotMax != maxTs { return None; }
    if !atEnd { return None; }
    r := points;
  }
}
