/** The write-ahead log on disk: records, segments, and a replay that repairs a torn
    tail. */
module WalFormat {
  import opened Options
  import opened Sets
  import opened BitStreams
  import opened Chunks
  import opened ChunkCodec
  import opened Varints

  // ---- records ----

  datatype LabelPair = LabelPair(name: seq<Byte>, value: seq<Byte>)

  datatype Record = Record(labels: seq<LabelPair>, ts: int, val: nat, gen: int)

  const TYPE_SAMPLE: Byte := 1
  const TYPE_SAMPLE_GEN: Byte := 2
  const MAX_BODY := 255 * (1 + 255 + 2 + 65535) + 2 + 16 + 8

  predicate LabelFits(l: LabelPair) { |l.name| <= 255 && |l.value| <= 65535 }

  /** validateLabels, and fields of their 64-bit types. */
  predicate Writable(r: Record) {
    |r.labels| <= 255 && (forall i :: 0 <= i < |r.labels| ==> LabelFits(r.labels[i]))
    && Int64(r.ts) && U64(r.val) && Int64(r.gen)
  }

  function LabelBytes(l: LabelPair): seq<Byte>
    requires LabelFits(l)
  {
    [|l.name|] + l.name + BE(|l.value|, 2) + l.value
  }

  function LabelsBytes(ls: seq<LabelPair>): seq<Byte>
    requires forall i :: 0 <= i < |ls| ==> LabelFits(ls[i])
  {
    if ls == [] then [] else LabelBytes(ls[0]) + LabelsBytes(ls[1..])
  }

  function Tail(r: Record): (s: seq<Byte>)
    requires Int64(r.ts) && Int64(r.gen)
    ensures |s| == 24
  {
    BE(ToU64(r.ts), 8) + BE(r.val, 8) + BE(ToU64(r.gen), 8)
  }

  /** A type-2 record's body. */
  function Body(r: Record): seq<Byte>
    requires Writable(r)
  {
    [TYPE_SAMPLE_GEN, |r.labels|] + LabelsBytes(r.labels) + Tail(r)
  }

  function EncodeRecord(r: Record): seq<Byte>
    requires Writable(r)
  {
    BE(|Body(r)|, 4) + Body(r)
  }

  datatype LabelsRead = BadLabels | Labels(labels: seq<LabelPair>, rest: seq<Byte>)

  function DecodeLabel(b: seq<Byte>): (r: LabelsRead)
    ensures r.Labels? ==> |r.labels| == 1 && |r.rest| < |b|
  {
    if |b| < 1 || 1 + b[0] > |b| then BadLabels
    else
      var s := b[1 + b[0]..];
      if |s| < 2 || 2 + BEVal(s[..2]) > |s| then BadLabels
      else Labels([LabelPair(b[1..1 + b[0]], s[2..2 + BEVal(s[..2])])], s[2 + BEVal(s[..2])..])
  }

  function DecodeLabels(b: seq<Byte>, n: nat): (r: LabelsRead)
    ensures r.Labels? ==> |r.labels| == n && |r.rest| <= |b|
    decreases n
  {
    if n == 0 then Labels([], b)
    else
      var l := DecodeLabel(b);
      if l.BadLabels? then BadLabels
      else
        var r := DecodeLabels(l.rest, n - 1);
        if r.BadLabels? then BadLabels else Labels(l.labels + r.labels, r.rest)
  }

  function U64At(s: seq<Byte>, i: nat): (v: nat)
    requires i + 8 <= |s|
    ensures U64(v)
  {
    BEValBound(s[i..i + 8]);
    Pow256Values();
    BEVal(s[i..i + 8])
  }

  /** decodeRecord: exact consumption, either type. */
  function DecodeRecord(b: seq<Byte>): Option<Record> {
    if |b| < 2 || (b[0] != TYPE_SAMPLE && b[0] != TYPE_SAMPLE_GEN) then None
    else
      var ls := DecodeLabels(b[2..], b[1]);
      if ls.BadLabels? then None
      else DecodeTail(b[0], ls.labels, ls.rest)
  }

  function DecodeTail(typ: Byte, labels: seq<LabelPair>, s: seq<Byte>): Option<Record> {
    if |s| != (if typ == TYPE_SAMPLE_GEN then 24 else 16) then None
    else Some(Record(labels, ToI64(U64At(s, 0)), U64At(s, 8), if typ == TYPE_SAMPLE_GEN then ToI64(U64At(s, 16)) else 0))
  }

  lemma LabelRoundTrip(l: LabelPair, more: seq<Byte>)
    requires LabelFits(l)
    ensures DecodeLabel(LabelBytes(l) + more) == Labels([l], more)
  {
    var b := LabelBytes(l) + more;
    var n, v := |l.name|, |l.value|;
    Pow256Values();
    BERoundTrip(v, 2);
    assert b[1..1 + n] == l.name;
    var s := b[1 + n..];
    assert s == BE(v, 2) + l.value + more;
    assert s[..2] == BE(v, 2) && s[2..2 + v] == l.value && s[2 + v..] == more;
  }

  lemma {:induction false} LabelsRoundTrip(ls: seq<LabelPair>, more: seq<Byte>)
    requires forall i :: 0 <= i < |ls| ==> LabelFits(ls[i])
    ensures DecodeLabels(LabelsBytes(ls) + more, |ls|) == Labels(ls, more)
  {
    if ls == [] {
      assert LabelsBytes(ls) + more == more;
    } else {
      var rest := LabelsBytes(ls[1..]);
      LabelsRoundTrip(ls[1..], more);
      LabelRoundTrip(ls[0], rest + more);
      ConcatAssoc(LabelBytes(ls[0]), rest, more);
      assert [ls[0]] + ls[1..] == ls;
    }
  }

  lemma TailRoundTrip(r: Record)
    requires Writable(r)
    ensures DecodeTail(TYPE_SAMPLE_GEN, r.labels, Tail(r)) == Some(r)
  {
    Pow256Values();
    BERoundTrip(ToU64(r.ts), 8);
    BERoundTrip(r.val, 8);
    BERoundTrip(ToU64(r.gen), 8);
    assert Tail(r)[0..8] == BE(ToU64(r.ts), 8);
    assert Tail(r)[8..16] == BE(r.val, 8);
    assert Tail(r)[16..24] == BE(ToU64(r.gen), 8);
  }

  /** Every record the writer accepts is decoded back exactly. */
  lemma RecordRoundTrip(r: Record)
    requires Writable(r)
    ensures DecodeRecord(Body(r)) == Some(r)
  {
    var b := Body(r);
    assert b[2..] == LabelsBytes(r.labels) + Tail(r);
    assert DecodeLabels(b[2..], |r.labels|) == Labels(r.labels, Tail(r)) by { LabelsRoundTrip(r.labels, Tail(r)); }
    DecodeByParts(b, r.labels, Tail(r));
    TailRoundTrip(r);
  }

  lemma DecodeByParts(b: seq<Byte>, labels: seq<LabelPair>, rest: seq<Byte>)
    requires |b| >= 2 && b[0] == TYPE_SAMPLE_GEN && DecodeLabels(b[2..], b[1]) == Labels(labels, rest)
    ensures DecodeRecord(b) == DecodeTail(TYPE_SAMPLE_GEN, labels, rest)
  {
  }

  lemma {:induction false} LabelsLength(ls: seq<LabelPair>)
    requires forall i :: 0 <= i < |ls| ==> LabelFits(ls[i])
    ensures |LabelsBytes(ls)| <= |ls| * (1 + 255 + 2 + 65535)
  {
    if ls != [] { LabelsLength(ls[1..]); }
  }

  /** No writable record exceeds the limit replay allows, nor its length prefix. */
  lemma BodyLength(r: Record)
    requires Writable(r)
    ensures 26 <= |Body(r)| <= MAX_BODY < 0x1_0000_0000
  {
    LabelsLength(r.labels);
  }

  // ---- encodeBody and decodeRecord as they fill and scan a buffer ----

  method EncodeInto(r: Record) returns (buf: array<Byte>)
    requires Writable(r)
    ensures fresh(buf) && buf[..] == EncodeRecord(r)
  {
    var bodyLen := MeasureBody(r);
    buf := new Byte[4 + bodyLen];
    var len, kind := BE(bodyLen, 4), [TYPE_SAMPLE_GEN, |r.labels|];
    Put(buf, 0, len);
    Put(buf, 4, kind);
    var pos := PutLabels(buf, 6, r.labels);
    Put(buf, pos, Tail(r));
    assert buf[..] == buf[..pos + 24];
    ghost var ls, tail := LabelsBytes(r.labels), Tail(r);
    ConcatAssoc(len, kind, ls);
    ConcatAssoc(len, kind + ls, tail);
  }

  method MeasureBody(r: Record) returns (bodyLen: nat)
    requires Writable(r)
    ensures bodyLen == |Body(r)|
  {
    bodyLen := 2;
    var i := 0;
    while i < |r.labels|
      invariant 0 <= i <= |r.labels| && bodyLen == 2 + |LabelsBytes(r.labels[..i])|
    {
      LabelsAppend(r.labels[..i], r.labels[i]);
      assert r.labels[..i + 1] == r.labels[..i] + [r.labels[i]];
      bodyLen := bodyLen + 1 + |r.labels[i].name| + 2 + |r.labels[i].value|;
      i := i + 1;
    }
    assert r.labels[..i] == r.labels;
    bodyLen := bodyLen + 16 + 8;
  }

  method PutLabels(buf: array<Byte>, start: nat, labels: seq<LabelPair>) returns (pos: nat)
    requires forall i :: 0 <= i < |labels| ==> LabelFits(labels[i])
    requires start + |LabelsBytes(labels)| <= buf.Length
    modifies buf
    ensures pos == start + |LabelsBytes(labels)| && buf[..pos] == old(buf[..start]) + LabelsBytes(labels)
  {
    pos := start;
    var i := 0;
    while i < |labels|
      invariant 0 <= i <= |labels| && pos == start + |LabelsBytes(labels[..i])| <= buf.Length
      invariant buf[..pos] == old(buf[..start]) + LabelsBytes(labels[..i])
    {
      var l := LabelBytes(labels[i]);
      NextLabel(labels, i, l);
      Put(buf, pos, l);
      pos := pos + |l|;
      i := i + 1;
    }
    assert labels[..i] == labels;
  }

  lemma {:induction false} LabelsAppend(ls: seq<LabelPair>, l: LabelPair)
    requires (forall i :: 0 <= i < |ls| ==> LabelFits(ls[i])) && LabelFits(l)
    ensures LabelsBytes(ls + [l]) == LabelsBytes(ls) + LabelBytes(l)
  {
    if ls == [] {
      assert ls + [l] == [l] && [l][1..] == [];
      assert LabelBytes(l) + [] == LabelBytes(l);
    } else {
      LabelsAppend(ls[1..], l);
      assert (ls + [l])[1..] == ls[1..] + [l];
    }
  }

  lemma NextLabel(ls: seq<LabelPair>, i: nat, l: seq<Byte>)
    requires i < |ls| && (forall i :: 0 <= i < |ls| ==> LabelFits(ls[i])) && l == LabelBytes(ls[i])
    ensures LabelsBytes(ls[..i + 1]) == LabelsBytes(ls[..i]) + l
    ensures |LabelsBytes(ls[..i + 1])| <= |LabelsBytes(ls)|
  {
    LabelsAppend(ls[..i], ls[i]);
    LabelsPrefix(ls, i + 1);
    assert ls[..i + 1] == ls[..i] + [ls[i]];
  }

  lemma {:induction false} LabelsPrefix(ls: seq<LabelPair>, n: nat)
    requires n <= |ls| && forall i :: 0 <= i < |ls| ==> LabelFits(ls[i])
    ensures |LabelsBytes(ls[..n])| <= |LabelsBytes(ls)|
    decreases |ls| - n
  {
    if n < |ls| {
      LabelsPrefix(ls, n + 1);
      LabelsAppend(ls[..n], ls[n]);
      assert ls[..n + 1] == ls[..n] + [ls[n]];
    } else {
      assert ls[..n] == ls;
    }
  }

  /** copy(buf[pos:], s): the rest of the buffer is untouched. */
  method Put(buf: array<Byte>, pos: nat, s: seq<Byte>)
    requires pos + |s| <= buf.Length
    modifies buf
    ensures buf[..pos] == old(buf[..pos]) && buf[..pos + |s|] == old(buf[..pos]) + s
  {
    forall i | 0 <= i < |s| { buf[pos + i] := s[i]; }
  }

  method ScanLabel(b: seq<Byte>) returns (r: LabelsRead)
    ensures r == DecodeLabel(b)
  {
    if |b| < 1 { return BadLabels; }
    var nameLen := b[0];
    if 1 + nameLen > |b| { return BadLabels; }
    var s := b[1 + nameLen..];
    if |s| < 2 { return BadLabels; }
    var valueLen := BEVal(s[..2]);
    if 2 + valueLen > |s| { return BadLabels; }
    r := Labels([LabelPair(b[1..1 + nameLen], s[2..2 + valueLen])], s[2 + valueLen..]);
  }

  method ScanLabels(b: seq<Byte>, n: nat) returns (r: LabelsRead)
    ensures r == DecodeLabels(b, n)
  {
    var rest := b;
    var labels: seq<LabelPair> := [];
    var i := 0;
    AfterNone(DecodeLabels(b, n));
    while i < n
      invariant 0 <= i <= n
      invariant DecodeLabels(b, n) == AfterLabels(labels, DecodeLabels(rest, n - i))
    {
      var l := ScanLabel(rest);
      if l.BadLabels? { return BadLabels; }
      AfterOne(labels, l.labels[0], DecodeLabels(l.rest, n - i - 1));
      assert l.labels == [l.labels[0]];
      labels := labels + l.labels;
      rest := l.rest;
      i := i + 1;
    }
    assert labels + [] == labels;
    r := Labels(labels, rest);
  }

  lemma AfterNone(r: LabelsRead)
    ensures AfterLabels([], r) == r
  {
    if r.Labels? { assert [] + r.labels == r.labels; }
  }

  function AfterLabels(labels: seq<LabelPair>, r: LabelsRead): LabelsRead {
    if r.BadLabels? then BadLabels else Labels(labels + r.labels, r.rest)
  }

  lemma AfterOne(labels: seq<LabelPair>, l: LabelPair, r: LabelsRead)
    ensures AfterLabels(labels, AfterLabels([l], r)) == AfterLabels(labels + [l], r)
  {
    if r.Labels? { assert labels + ([l] + r.labels) == labels + [l] + r.labels; }
  }

  method ScanRecord(b: seq<Byte>) returns (r: Option<Record>)
    ensures r == DecodeRecord(b)
  {
    if |b| < 2 || (b[0] != TYPE_SAMPLE && b[0] != TYPE_SAMPLE_GEN) { return None; }
    var ls := ScanLabels(b[2..], b[1]);
    if ls.BadLabels? { return None; }
    r := DecodeTail(b[0], ls.labels, ls.rest);
  }

  // ---- a segment ----

  function Encoded(rs: seq<Record>): seq<Byte>
    requires forall r :: r in rs ==> Writable(r)
  {
    if rs == [] then [] else EncodeRecord(rs[0]) + Encoded(rs[1..])
  }

  /** What replaying a segment yields: the records delivered and how it ended. A torn
      segment was truncated to offset. */
  datatype Replayed = Clean(records: seq<Record>) | Torn(records: seq<Record>, offset: nat) | Failed(records: seq<Record>)

  function Before(r: Record, n: nat, more: Replayed): Replayed {
    match more
    case Clean(rs) => Clean([r] + rs)
    case Torn(rs, offset) => Torn([r] + rs, n + offset)
    case Failed(rs) => Failed([r] + rs)
  }

  /** The next record, or how the segment ends here. */
  datatype One = Stop(end: Replayed) | Go(record: Record, len: nat)

  /** One turn of replaySegment's loop. A short read at the very start of a body is a
      plain end of file, which only a boundary between records may be. */
  function First(s: seq<Byte>, isLast: bool): (o: One)
    ensures o.Go? ==> 4 <= o.len <= |s|
    ensures o.Stop? ==> o.end.records == [] && (o.end.Torn? ==> o.end.offset == 0)
  {
    if s == [] then Stop(Clean([]))
    else if |s| < 4 then Stop(if isLast then Torn([], 0) else Failed([]))
    else
      var n := BEVal(s[..4]);
      if n > MAX_BODY then Stop(if isLast then Torn([], 0) else Failed([]))
      else if |s| - 4 < n then Stop(if isLast && |s| > 4 then Torn([], 0) else Failed([]))
      else
        var r := DecodeRecord(s[4..4 + n]);
        if r.None? then Stop(Failed([])) else Go(r.value, 4 + n)
  }

  function Replay(s: seq<Byte>, isLast: bool): Replayed
    decreases |s|
  {
    var o := First(s, isLast);
    if o.Stop? then o.end else Before(o.record, o.len, Replay(s[o.len..], isLast))
  }

  lemma PrefixLength(r: Record, more: seq<Byte>)
    requires Writable(r)
    ensures var s := EncodeRecord(r) + more; var n := |Body(r)|;
      |EncodeRecord(r)| == 4 + n && 26 <= n <= MAX_BODY
      && BEVal(s[..4]) == n && s[4..4 + n] == Body(r) && s[4 + n..] == more
  {
    BodyLength(r);
    Pow256Values();
    BERoundTrip(|Body(r)|, 4);
    var s := EncodeRecord(r) + more;
    assert s[..4] == BE(|Body(r)|, 4);
    assert s[4..4 + |Body(r)|] == Body(r);
  }

  /** A complete record at the front is delivered, whatever follows. */
  lemma ReplayStep(r: Record, more: seq<Byte>, isLast: bool)
    requires Writable(r)
    ensures Replay(EncodeRecord(r) + more, isLast) == Before(r, |EncodeRecord(r)|, Replay(more, isLast))
  {
    PrefixLength(r, more);
    RecordRoundTrip(r);
  }

  /** An uncut segment replays to exactly its records, last or not. */
  lemma {:induction false} ReplayComplete(rs: seq<Record>, isLast: bool)
    requires forall r :: r in rs ==> Writable(r)
    ensures Replay(Encoded(rs), isLast) == Clean(rs)
  {
    if rs != [] {
      ReplayStep(rs[0], Encoded(rs[1..]), isLast);
      ReplayComplete(rs[1..], isLast);
      assert [rs[0]] + rs[1..] == rs;
    }
  }

  /** A record cut short, by where the cut falls: nothing written, between the prefix
      and the body, or anywhere else. */
  lemma CutRecord(r: Record, k: nat, isLast: bool)
    requires Writable(r) && 0 < k < |EncodeRecord(r)|
    ensures Replay(EncodeRecord(r)[..k], isLast) == if isLast && k != 4 then Torn([], 0) else Failed([])
  {
    PrefixLength(r, []);
    var s := EncodeRecord(r)[..k];
    assert EncodeRecord(r) + [] == EncodeRecord(r);
    if k >= 4 { assert s[..4] == EncodeRecord(r)[..4]; }
  }

  /** How many records lie wholly before byte k. */
  function Whole(rs: seq<Record>, k: nat): (m: nat)
    requires forall r :: r in rs ==> Writable(r)
    ensures m <= |rs|
  {
    if rs == [] || |EncodeRecord(rs[0])| > k then 0 else 1 + Whole(rs[1..], k - |EncodeRecord(rs[0])|)
  }

  lemma {:induction false} WholeIsBoundary(rs: seq<Record>, k: nat)
    requires (forall r :: r in rs ==> Writable(r)) && k <= |Encoded(rs)|
    ensures var m := Whole(rs, k);
      |Encoded(rs[..m])| <= k && (m < |rs| ==> k < |Encoded(rs[..m])| + |EncodeRecord(rs[m])|)
      && Encoded(rs)[..|Encoded(rs[..m])|] == Encoded(rs[..m])
  {
    var m := Whole(rs, k);
    if m == 0 {
      assert rs[..0] == [];
    } else {
      WholeIsBoundary(rs[1..], k - |EncodeRecord(rs[0])|);
      assert rs[..m][1..] == rs[1..][..m - 1];
      assert Encoded(rs[..m]) == EncodeRecord(rs[0]) + Encoded(rs[1..][..m - 1]);
    }
  }

  /** The result of replaying a segment cut at byte k. */
  function CutResult(rs: seq<Record>, k: nat, isLast: bool): Replayed
    requires (forall r :: r in rs ==> Writable(r)) && k <= |Encoded(rs)|
  {
    WholeIsBoundary(rs, k);
    var m := Whole(rs, k);
    var b := |Encoded(rs[..m])|;
    EndAfter(rs[..m], b, k - b, isLast)
  }

  /** The end of a segment with d bytes after its records, which take b bytes. */
  function EndAfter(rs: seq<Record>, b: nat, d: nat, isLast: bool): Replayed {
    if d == 0 then Clean(rs)
    else if isLast && d != 4 then Torn(rs, b)
    else Failed(rs)
  }

  lemma EndBefore(r: Record, rs: seq<Record>, a: nat, b: nat, d: nat, isLast: bool)
    ensures EndAfter([r] + rs, a + b, d, isLast) == Before(r, a, EndAfter(rs, b, d, isLast))
  {
  }

  /** Torn-tail replay: for any records and any cut, replay delivers exactly the
      records wholly before the cut and truncates to their boundary, except when the
      cut leaves exactly a length prefix, which is refused. */
  lemma {:induction false} CutReplay(rs: seq<Record>, k: nat, isLast: bool)
    requires (forall r :: r in rs ==> Writable(r)) && k <= |Encoded(rs)|
    ensures Replay(Encoded(rs)[..k], isLast) == CutResult(rs, k, isLast)
    decreases |rs|
  {
    if rs == [] {
      assert Encoded(rs)[..k] == [];
    } else {
      PrefixLength(rs[0], []);
      var first := EncodeRecord(rs[0]);
      if k < |first| {
        assert rs[..0] == [];
        if k > 0 {
          CutRecord(rs[0], k, isLast);
          assert Encoded(rs)[..k] == first[..k];
        } else {
          assert Encoded(rs)[..k] == [];
        }
      } else {
        CutLater(rs, k, isLast);
      }
    }
  }

  lemma {:induction false} CutLater(rs: seq<Record>, k: nat, isLast: bool)
    requires (forall r :: r in rs ==> Writable(r)) && rs != [] && |EncodeRecord(rs[0])| <= k <= |Encoded(rs)|
    ensures Replay(Encoded(rs)[..k], isLast) == CutResult(rs, k, isLast)
    decreases |rs|, 0
  {
    var r, tail := rs[0], rs[1..];
    var k' := k - |EncodeRecord(r)|;
    var cut := Encoded(tail)[..k'];
    assert Encoded(rs)[..k] == EncodeRecord(r) + cut;
    ReplayStep(r, cut, isLast);
    CutReplay(tail, k', isLast);
    assert [r] + tail == rs;
    CutResultStep(r, tail, k', isLast);
  }

  lemma CutResultStep(r: Record, tail: seq<Record>, k: nat, isLast: bool)
    requires Writable(r) && (forall x :: x in tail ==> Writable(x)) && k <= |Encoded(tail)|
    ensures |EncodeRecord(r)| + k <= |Encoded([r] + tail)|
    ensures CutResult([r] + tail, |EncodeRecord(r)| + k, isLast) == Before(r, |EncodeRecord(r)|, CutResult(tail, k, isLast))
  {
    var a, m := |EncodeRecord(r)|, Whole(tail, k);
    EncodedFirst(r, tail);
    assert Whole([r] + tail, a + k) == m + 1 by { assert ([r] + tail)[1..] == tail; }
    WholeIsBoundary(tail, k);
    assert ([r] + tail)[..m + 1] == [r] + tail[..m];
    EncodedFirst(r, tail[..m]);
    var b := |Encoded(tail[..m])|;
    EndBefore(r, tail[..m], a, b, k - b, isLast);
  }

  lemma EncodedFirst(r: Record, tail: seq<Record>)
    requires Writable(r) && forall x :: x in tail ==> Writable(x)
    ensures Encoded([r] + tail) == EncodeRecord(r) + Encoded(tail)
  {
    assert ([r] + tail)[1..] == tail;
  }

  /** Replay of the last segment succeeds exactly when the cut does not fall right
      after a length prefix. */
  lemma TornTailAcceptedIff(rs: seq<Record>, k: nat)
    requires (forall r :: r in rs ==> Writable(r)) && k <= |Encoded(rs)|
    ensures Replay(Encoded(rs)[..k], true).Failed? <==> k == |Encoded(rs[..Whole(rs, k)])| + 4
  {
    CutReplay(rs, k, true);
    WholeIsBoundary(rs, k);
  }

  /** The refused cut, concretely: a first record cut after its four length bytes. */
  lemma PrefixOnlyIsRefused(r: Record)
    requires Writable(r)
    ensures Replay(EncodeRecord(r)[..4], true) == Failed([])
  {
    PrefixLength(r, []);
    CutRecord(r, 4, true);
  }

  /** The repaired file: what is on disk after the replay. */
  function Repaired(s: seq<Byte>, isLast: bool): seq<Byte> {
    var r := Replay(s, isLast);
    if r.Torn? && r.offset <= |s| then s[..r.offset] else s
  }

  /** Once repaired, the segment is complete: it replays to the same records with
      newer segments after it. */
  lemma RepairedReplaysAsNonLast(rs: seq<Record>, k: nat)
    requires (forall r :: r in rs ==> Writable(r)) && k <= |Encoded(rs)|
    requires !Replay(Encoded(rs)[..k], true).Failed?
    ensures var m := Whole(rs, k);
      Repaired(Encoded(rs)[..k], true) == Encoded(rs[..m])
      && Replay(Repaired(Encoded(rs)[..k], true), false) == Clean(rs[..m])
  {
    CutReplay(rs, k, true);
    WholeIsBoundary(rs, k);
    var m := Whole(rs, k);
    var s, b := Encoded(rs), |Encoded(rs[..m])|;
    assert s[..k][..b] == s[..b];
    ReplayComplete(rs[..m], false);
  }

  /** Unrepaired, the same file would stop a later replay: why the truncation must be
      durable before a newer segment exists. */
  lemma UnrepairedStopsReplay(rs: seq<Record>, k: nat)
    requires (forall r :: r in rs ==> Writable(r)) && k <= |Encoded(rs)|
    ensures Replay(Encoded(rs)[..k], false).Failed? <==> k != |Encoded(rs[..Whole(rs, k)])|
  {
    CutReplay(rs, k, false);
    WholeIsBoundary(rs, k);
  }

  /** One read: the length prefix, its guards, the body, the record. */
  method ReadOne(s: seq<Byte>, isLast: bool) returns (o: One)
    ensures o == First(s, isLast)
  {
    if |s| == 0 { return Stop(Clean([])); }
    if |s| < 4 { return Stop(if isLast then Torn([], 0) else Failed([])); }
    var bodyLen := BEVal(s[..4]);
    if bodyLen > MAX_BODY { return Stop(if isLast then Torn([], 0) else Failed([])); }
    if |s| - 4 < bodyLen { return Stop(if isLast && |s| - 4 > 0 then Torn([], 0) else Failed([])); }
    var rec := ScanRecord(s[4..4 + bodyLen]);
    o := if rec.None? then Stop(Failed([])) else Go(rec.value, 4 + bodyLen);
  }

  /** The read loop at an offset: what it delivered, then what is still to come, is
      the whole replay. */
  predicate Reading(file: seq<Byte>, isLast: bool, rs: seq<Record>, offset: nat) {
    offset <= |file| && Replay(file, isLast) == Ahead(rs, offset, Replay(file[offset..], isLast))
  }

  lemma ReadingStarts(file: seq<Byte>, isLast: bool)
    ensures Reading(file, isLast, [], 0) && file[0..] == file
  {
    SliceAll(file);
    AheadOfNothing(Replay(file, isLast));
  }

  lemma ReadingTurn(file: seq<Byte>, isLast: bool, rs: seq<Record>, offset: nat, o: One, rs': seq<Record>, offset': nat)
    requires Reading(file, isLast, rs, offset) && o == First(file[offset..], isLast) && o.Go?
    requires rs' == rs + [o.record] && offset' == offset + o.len
    ensures Reading(file, isLast, rs', offset')
  {
    var s, rest := file[offset..], file[offset'..];
    assert rest == s[o.len..] by { DropTwice(file, offset, o.len); }
    ReplayTurn(s, o, isLast, rs, offset, rest, rs', offset');
  }

  lemma ReadingEnds(file: seq<Byte>, isLast: bool, rs: seq<Record>, offset: nat, o: One)
    requires Reading(file, isLast, rs, offset) && o == First(file[offset..], isLast) && o.Stop?
    ensures Replay(file, isLast) == Ahead(rs, offset, o.end)
  {
  }

  /** The read loop, with its offset, and the truncation. */
  method ReplaySegment(file: seq<Byte>, isLast: bool) returns (r: Replayed, after: seq<Byte>)
    ensures r == Replay(file, isLast) && after == Repaired(file, isLast)
  {
    var offset := 0;
    var records: seq<Record> := [];
    ReadingStarts(file, isLast);
    var o := ReadOne(file, isLast);
    while o.Go?
      invariant 0 <= offset <= |file| && o == First(file[offset..], isLast)
      invariant Reading(file, isLast, records, offset)
      decreases |file| - offset
    {
      ghost var records0, offset0 := records, offset;
      records := records + [o.record];
      offset := offset + o.len;
      ReadingTurn(file, isLast, records0, offset0, o, records, offset);
      o := ReadOne(file[offset..], isLast);
    }
    ReadingEnds(file, isLast, records, offset, o);
    r := Ahead(records, offset, o.end);
    after := if r.Torn? then file[..r.offset] else file;
  }

  /** After rs at offset n, the next record moves on by its length. */
  lemma ReplayTurn(s: seq<Byte>, o: One, isLast: bool, rs: seq<Record>, n: nat, rest: seq<Byte>, rs': seq<Record>, n': nat)
    requires o == First(s, isLast) && o.Go? && rest == s[o.len..]
    requires rs' == rs + [o.record] && n' == n + o.len
    ensures Ahead(rs, n, Replay(s, isLast)) == Ahead(rs', n', Replay(rest, isLast))
  {
    AheadStep(rs, n, o.record, o.len, Replay(rest, isLast));
  }

  function Ahead(rs: seq<Record>, n: nat, more: Replayed): Replayed {
    match more
    case Clean(r) => Clean(rs + r)
    case Torn(r, offset) => Torn(rs + r, n + offset)
    case Failed(r) => Failed(rs + r)
  }

  lemma AheadOfNothing(more: Replayed)
    ensures Ahead([], 0, more) == more
  {
    assert [] + more.records == more.records;
  }

  lemma AheadStep(rs: seq<Record>, n: nat, r: Record, len: nat, more: Replayed)
    ensures Ahead(rs, n, Before(r, len, more)) == Ahead(rs + [r], n + len, more)
  {
    assert rs + ([r] + more.records) == rs + [r] + more.records;
  }
}
