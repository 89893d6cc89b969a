/** The index file of a block: how its series, their labels and the places of their
    chunks are laid out, and which byte strings a reader takes for one. */
module BlockIndex {
  import opened Sets
  import opened Options
  import opened BitStreams
  import opened Chunks
  import opened ChunkCodec
  import opened Varints
  import opened Postings
  import PostingsFile

  const MAX_SERIES := 1_000_000
  const MAX_CHUNKS := 10_000
  const REF := 12
  const TWO32 := 0x1_0000_0000

  /** Where a chunk's payload lies in the chunks file. */
  datatype ChunkRef = ChunkRef(off: int, len: nat)

  datatype SeriesEntry = SeriesEntry(id: nat, labels: seq<Pair>, refs: seq<ChunkRef>)

  // ---- writing ----

  function LabelBytes(l: Pair): seq<Byte> {
    PostingsFile.TextBytes(l.name) + PostingsFile.TextBytes(l.value)
  }

  function LabelsBytes(ls: seq<Pair>): seq<Byte> {
    if ls == [] then [] else LabelBytes(ls[0]) + LabelsBytes(ls[1..])
  }

  predicate RefFits(r: ChunkRef) { Int64(r.off) && r.len < TWO32 }

  function RefBytes(r: ChunkRef): (s: seq<Byte>)
    ensures |s| == REF
  {
    BE(ToU64(Wrap64(r.off)), 8) + BE(r.len, 4)
  }

  predicate RefsFit(rs: seq<ChunkRef>) { forall i :: 0 <= i < |rs| ==> RefFits(rs[i]) }

  function RefsBytes(rs: seq<ChunkRef>): (s: seq<Byte>)
    ensures |s| == REF * |rs|
  {
    if rs == [] then [] else RefBytes(rs[0]) + RefsBytes(rs[1..])
  }

  predicate LabelsFit(ls: seq<Pair>) {
    forall i :: 0 <= i < |ls| ==> |ls[i].name| < TWO32 && |ls[i].value| < TWO32
  }

  /** Every field holds its number. */
  predicate EntryFits(e: SeriesEntry) {
    U64(e.id) && LabelsFit(e.labels) && |LabelsBytes(e.labels)| < TWO32 && |e.refs| < TWO32 && RefsFit(e.refs)
  }

  function HeadBytes(e: SeriesEntry): seq<Byte> {
    BE(e.id, 8) + BE(|LabelsBytes(e.labels)|, 4)
  }

  function TailBytes(e: SeriesEntry): seq<Byte> {
    BE(|e.refs|, 4) + RefsBytes(e.refs)
  }

  function EntryBytes(e: SeriesEntry): seq<Byte> {
    HeadBytes(e) + LabelsBytes(e.labels) + TailBytes(e)
  }

  predicate AllFit(es: seq<SeriesEntry>) { forall i :: 0 <= i < |es| ==> EntryFits(es[i]) }

  function EntriesBytes(es: seq<SeriesEntry>): seq<Byte> {
    if es == [] then [] else EntryBytes(es[0]) + EntriesBytes(es[1..])
  }

  function IndexBytes(es: seq<SeriesEntry>): seq<Byte> {
    BE(|es|, 4) + EntriesBytes(es)
  }

  // ---- what a reader accepts ----

  /** Label pairs to the end of s, each name after the one before it. */
  function DecodeLabels(s: seq<Byte>, prev: Option<Text>): Option<seq<Pair>>
    decreases |s|
  {
    if s == [] then Some([])
    else
      var name := PostingsFile.ReadText(s);
      if name.BadText? then None
      else
        var value := PostingsFile.ReadText(name.rest);
        if value.BadText? || (prev.Some? && !TextLess(prev.value, name.text)) then None
        else Prefixed(Pair(name.text, value.text), DecodeLabels(value.rest, Some(name.text)))
  }

  function ReadRef(s: seq<Byte>): ChunkRef
    requires |s| >= REF
  {
    ChunkRef(PostingsFile.Int64At(s[..8]), BEVal(s[8..REF]))
  }

  function DecodeRefs(s: seq<Byte>, n: nat): (rs: seq<ChunkRef>)
    requires |s| >= REF * n
    ensures |rs| == n
  {
    if n == 0 then [] else [ReadRef(s)] + DecodeRefs(s[REF..], n - 1)
  }

  datatype EntryRead = BadEntry | EntryAt(entry: SeriesEntry, rest: seq<Byte>)

  /** The chunk places after an entry's labels. */
  function ReadTail(id: nat, labels: seq<Pair>, t: seq<Byte>): EntryRead {
    if |t| < 4 then BadEntry
    else
      var c := BEVal(t[..4]);
      if c > MAX_CHUNKS || |t| < 4 + REF * c then BadEntry
      else EntryAt(SeriesEntry(id, labels, DecodeRefs(t[4..], c)), t[4 + REF * c..])
  }

  function ReadEntry(s: seq<Byte>): EntryRead {
    if |s| < 12 then BadEntry
    else
      var n := BEVal(s[8..12]);
      if 12 + n > |s| then BadEntry
      else
        var labels := DecodeLabels(s[12..12 + n], None);
        if labels.None? then BadEntry else ReadTail(BEVal(s[..8]), labels.value, s[12 + n..])
  }

  /** n entries; what follows them is not looked at. */
  function ReadEntries(s: seq<Byte>, n: nat): Option<seq<SeriesEntry>> {
    if n == 0 then Some([])
    else
      var one := ReadEntry(s);
      if one.BadEntry? then None else Prefixed(one.entry, ReadEntries(one.rest, n - 1))
  }

  function ReadIndex(s: seq<Byte>): Option<seq<SeriesEntry>> {
    if |s| < 4 || BEVal(s[..4]) > MAX_SERIES then None else ReadEntries(s[4..], BEVal(s[..4]))
  }

  // ---- the parser ----

  function LastName(ls: seq<Pair>): Option<Text> {
    if ls == [] then None else Some(ls[|ls| - 1].name)
  }

  /** decodeLabelSet, position by position. */
  method ParseLabels(data: seq<Byte>) returns (r: Option<seq<Pair>>)
    ensures r == DecodeLabels(data, None)
  {
    var rest, ls := data, [];
    ExtendedNone(DecodeLabels(data, None));
    while rest != []
      invariant DecodeLabels(data, None) == Extended(ls, DecodeLabels(rest, LastName(ls)))
      decreases |rest|
    {
      var name := PostingsFile.ReadText(rest);
      if name.BadText? { return None; }
      var value := PostingsFile.ReadText(name.rest);
      if value.BadText? { return None; }
      if |ls| > 0 && !TextLess(ls[|ls| - 1].name, name.text) { return None; }
      ExtendedOne(ls, Pair(name.text, value.text), DecodeLabels(value.rest, Some(name.text)));
      ls := ls + [Pair(name.text, value.text)];
      rest := value.rest;
    }
    assert ls + [] == ls;
    r := Some(ls);
  }

  method ParseRefs(s: seq<Byte>, n: nat) returns (rs: seq<ChunkRef>)
    requires |s| >= REF * n
    ensures rs == DecodeRefs(s, n)
  {
    rs := [];
    var i := 0;
    while i < n
      invariant 0 <= i <= n && DecodeRefs(s, n) == rs + DecodeRefs(s[REF * i..], n - i)
    {
      var more := s[REF * i..];
      DropTwice(s, REF * i, REF);
      ConcatAssoc(rs, [ReadRef(more)], DecodeRefs(more[REF..], n - i - 1));
      rs := rs + [ReadRef(more)];
      i := i + 1;
    }
    assert rs + [] == rs;
  }

  method ParseEntry(s: seq<Byte>) returns (r: EntryRead)
    ensures r == ReadEntry(s)
  {
    if |s| < 12 { return BadEntry; }
    var n := BEVal(s[8..12]);
    if 12 + n > |s| { return BadEntry; }
    var labels := ParseLabels(s[12..12 + n]);
    if labels.None? { return BadEntry; }
    var t := s[12 + n..];
    if |t| < 4 { return BadEntry; }
    var c := BEVal(t[..4]);
    if c > MAX_CHUNKS || |t| < 4 + REF * c { return BadEntry; }
    var refs := ParseRefs(t[4..], c);
    r := EntryAt(SeriesEntry(BEVal(s[..8]), labels.value, refs), t[4 + REF * c..]);
  }

  /** readIndex. */
  method ParseIndex(data: seq<Byte>) returns (r: Option<seq<SeriesEntry>>)
    ensures r == ReadIndex(data)
  {
    if |data| < 4 { return None; }
    var n := BEVal(data[..4]);
    if n > MAX_SERIES { return None; }
    r := ParseEntries(data[4..], n);
  }

  method ParseEntries(data: seq<Byte>, n: nat) returns (r: Option<seq<SeriesEntry>>)
    ensures r == ReadEntries(data, n)
  {
    var rest, es := data, [];
    var i := 0;
    ghost var all, k := ReadEntries(data, n), n;
    ExtendedNone(all);
    assert Left(all, es, rest, k);
    while i < n
      invariant 0 <= i <= n && k == n - i && Left(all, es, rest, k)
    {
      var one := ParseNext(rest, k, es, all);
      if one.BadEntry? { return None; }
      k := k - 1;
      es := es + [one.entry];
      rest := one.rest;
      i := i + 1;
    }
    NoneLeft(all, es, rest);
    r := Some(es);
  }

  /** es has been read, and k entries of rest are to come. */
  ghost predicate Left(all: Option<seq<SeriesEntry>>, es: seq<SeriesEntry>, rest: seq<Byte>, k: nat) {
    all == Extended(es, ReadEntries(rest, k))
  }

  lemma NoneLeft(all: Option<seq<SeriesEntry>>, es: seq<SeriesEntry>, rest: seq<Byte>)
    requires Left(all, es, rest, 0)
    ensures all == Some(es)
  {
    assert es + [] == es;
  }

  method ParseNext(s: seq<Byte>, ghost n: nat, ghost es: seq<SeriesEntry>, ghost all: Option<seq<SeriesEntry>>) returns (one: EntryRead)
    requires n > 0 && Left(all, es, s, n)
    ensures one == ReadEntry(s)
    ensures one.BadEntry? ==> all == None
    ensures one.EntryAt? ==> Left(all, es + [one.entry], one.rest, n - 1)
  {
    one := ParseEntry(s);
    if one.EntryAt? { ExtendedOne(es, one.entry, ReadEntries(one.rest, n - 1)); }
  }

  // ---- round trips ----

  predicate AscendingNames(ls: seq<Pair>) {
    forall i, j :: 0 <= i < j < |ls| ==> TextLess(ls[i].name, ls[j].name)
  }

  /** Names ascend from prev on, each compared with the one before it. */
  predicate NamesFrom(prev: Option<Text>, ls: seq<Pair>)
    decreases |ls|
  {
    ls == [] || ((prev.Some? ==> TextLess(prev.value, ls[0].name)) && NamesFrom(Some(ls[0].name), ls[1..]))
  }

  lemma {:induction false} NeighboursSuffice(prev: Option<Text>, ls: seq<Pair>)
    ensures NamesFrom(prev, ls) <==> AscendingNames(ls) && (prev.Some? && ls != [] ==> TextLess(prev.value, ls[0].name))
    decreases |ls|
  {
    if ls != [] {
      var first, tail := ls[0], ls[1..];
      NeighboursSuffice(Some(first.name), tail);
      if NamesFrom(prev, ls) {
        forall j | 0 < j < |ls| ensures TextLess(first.name, ls[j].name) {
          assert ls[j] == tail[j - 1];
          if j > 1 { TextTrans(first.name, tail[0].name, tail[j - 1].name); }
        }
        forall i, j | 0 < i < j < |ls| ensures TextLess(ls[i].name, ls[j].name) {
          assert ls[i] == tail[i - 1] && ls[j] == tail[j - 1];
        }
      }
      if AscendingNames(ls) {
        forall i, j | 0 <= i < j < |tail| ensures TextLess(tail[i].name, tail[j].name) {
          assert ls[i + 1] == tail[i] && ls[j + 1] == tail[j];
        }
      }
    }
  }

  lemma OneLabelRead(l: Pair, more: seq<Byte>, s: seq<Byte>)
    requires |l.name| < TWO32 && |l.value| < TWO32 && s == LabelBytes(l) + more
    ensures s != [] && var name := PostingsFile.ReadText(s);
      name.TextAt? && name.text == l.name && PostingsFile.ReadText(name.rest) == PostingsFile.TextAt(l.value, more)
  {
    var a, b := PostingsFile.TextBytes(l.name), PostingsFile.TextBytes(l.value);
    ConcatAssoc(a, b, more);
    PostingsFile.TextRoundTrip(l.name, b + more);
    PostingsFile.TextRoundTrip(l.value, more);
  }

  lemma {:induction false} LabelsFrom(ls: seq<Pair>, prev: Option<Text>)
    requires LabelsFit(ls)
    ensures DecodeLabels(LabelsBytes(ls), prev) == if NamesFrom(prev, ls) then Some(ls) else None
    decreases |ls|
  {
    if ls != [] {
      var l, tail := ls[0], ls[1..];
      OneLabelRead(l, LabelsBytes(tail), LabelsBytes(ls));
      LabelsFrom(tail, Some(l.name));
      SplitFirst(ls, 0);
      assert l == Pair(l.name, l.value);
    }
  }

  /** A label set is read back exactly when its names strictly ascend, and refused
      otherwise: out of order or repeated. */
  lemma LabelsRoundTrip(ls: seq<Pair>)
    requires LabelsFit(ls)
    ensures DecodeLabels(LabelsBytes(ls), None) == if AscendingNames(ls) then Some(ls) else None
  {
    LabelsFrom(ls, None);
    NeighboursSuffice(None, ls);
  }

  lemma RefRoundTrip(r: ChunkRef, s: seq<Byte>, more: seq<Byte>)
    requires RefFits(r) && s == RefBytes(r) + more
    ensures ReadRef(s) == r && s[REF..] == more
  {
    Pow256Values();
    WrapCases(r.off);
    BERoundTrip(ToU64(r.off), 8);
    BERoundTrip(r.len, 4);
    assert s[..8] == BE(ToU64(r.off), 8) && s[8..REF] == BE(r.len, 4);
  }

  lemma {:induction false} RefsRoundTrip(rs: seq<ChunkRef>, more: seq<Byte>, s: seq<Byte>)
    requires RefsFit(rs) && s == RefsBytes(rs) + more
    ensures DecodeRefs(s, |rs|) == rs
  {
    if rs != [] {
      var r, tail := rs[0], rs[1..];
      ConcatAssoc(RefBytes(r), RefsBytes(tail), more);
      RefRoundTrip(r, s, RefsBytes(tail) + more);
      RefsRoundTrip(tail, more, s[REF..]);
      SplitFirst(rs, 0);
    }
  }

  lemma TailRoundTrip(e: SeriesEntry, more: seq<Byte>, t: seq<Byte>)
    requires RefsFit(e.refs) && |e.refs| < TWO32 && t == TailBytes(e) + more
    ensures ReadTail(e.id, e.labels, t) == if |e.refs| <= MAX_CHUNKS then EntryAt(e, more) else BadEntry
  {
    Pow256Values();
    BERoundTrip(|e.refs|, 4);
    ConcatAssoc(BE(|e.refs|, 4), RefsBytes(e.refs), more);
    assert t[..4] == BE(|e.refs|, 4) && t[4..] == RefsBytes(e.refs) + more;
    RefsRoundTrip(e.refs, more, t[4..]);
    assert t[4 + REF * |e.refs|..] == more;
    assert e == SeriesEntry(e.id, e.labels, e.refs);
  }

  /** What the reader asks of an entry beyond fitting. */
  predicate Readable(e: SeriesEntry) { AscendingNames(e.labels) && |e.refs| <= MAX_CHUNKS }

  lemma HeadRoundTrip(e: SeriesEntry, h: seq<Byte>)
    requires EntryFits(e) && h == HeadBytes(e)
    ensures |h| == 12 && BEVal(h[..8]) == e.id && BEVal(h[8..]) == |LabelsBytes(e.labels)|
  {
    Pow256Values();
    BERoundTrip(e.id, 8);
    BERoundTrip(|LabelsBytes(e.labels)|, 4);
    assert h[..8] == BE(e.id, 8) && h[8..] == BE(|LabelsBytes(e.labels)|, 4);
  }

  lemma EntryRoundTrip(e: SeriesEntry, more: seq<Byte>, s: seq<Byte>)
    requires EntryFits(e) && s == EntryBytes(e) + more
    ensures ReadEntry(s) == if Readable(e) then EntryAt(e, more) else BadEntry
  {
    var h, m, t := HeadBytes(e), LabelsBytes(e.labels), TailBytes(e);
    HeadRoundTrip(e, h);
    LabelsRoundTrip(e.labels);
    TailRoundTrip(e, more, t + more);
    Sliced(h, m, t, more, s);
    PartsRead(e, s, |m|, t + more);
  }

  lemma PartsRead(e: SeriesEntry, s: seq<Byte>, n: nat, t: seq<Byte>)
    requires |s| >= 12 + n && BEVal(s[..8]) == e.id && BEVal(s[8..12]) == n && s[12 + n..] == t
    requires DecodeLabels(s[12..12 + n], None) == if AscendingNames(e.labels) then Some(e.labels) else None
    ensures ReadEntry(s) == if AscendingNames(e.labels) then ReadTail(e.id, e.labels, t) else BadEntry
  {
  }

  lemma Sliced(h: seq<Byte>, m: seq<Byte>, t: seq<Byte>, more: seq<Byte>, s: seq<Byte>)
    requires |h| == 12 && s == h + m + t + more
    ensures |s| >= 12 + |m| && s[..8] == h[..8] && s[8..12] == h[8..] && s[12..12 + |m|] == m && s[12 + |m|..] == t + more
  {
  }

  predicate AllReadable(es: seq<SeriesEntry>) { forall i :: 0 <= i < |es| ==> Readable(es[i]) }

  lemma FirstReadable(es: seq<SeriesEntry>, e: SeriesEntry, tail: seq<SeriesEntry>)
    requires es == [e] + tail
    ensures AllReadable(es) <==> Readable(e) && AllReadable(tail)
  {
    if AllReadable(es) {
      assert es[0] == e;
      forall i | 0 <= i < |tail| ensures Readable(tail[i]) { assert tail[i] == es[i + 1]; }
    }
  }

  lemma FirstEntryRead(s: seq<Byte>, e: SeriesEntry, more: seq<Byte>, tail: Option<seq<SeriesEntry>>, n: nat)
    requires ReadEntry(s) == (if Readable(e) then EntryAt(e, more) else BadEntry) && ReadEntries(more, n) == tail
    ensures ReadEntries(s, n + 1) == if Readable(e) then Prefixed(e, tail) else None
  {
  }

  /** What reading the entries es out of s comes to. */
  ghost predicate ReadsBack(s: seq<Byte>, n: nat, es: seq<SeriesEntry>) {
    ReadEntries(s, n) == if AllReadable(es) then Some(es) else None
  }

  lemma {:induction false} EntriesRoundTrip(es: seq<SeriesEntry>, s: seq<Byte>)
    requires AllFit(es) && s == EntriesBytes(es)
    ensures ReadsBack(s, |es|, es)
  {
    if es != [] {
      var e, tail := es[0], es[1..];
      var more := EntriesBytes(tail);
      EntryRoundTrip(e, more, s);
      EntriesRoundTrip(tail, more);
      FirstReadsBack(es, e, tail, s, more);
    }
  }

  lemma FirstReadsBack(es: seq<SeriesEntry>, e: SeriesEntry, tail: seq<SeriesEntry>, s: seq<Byte>, more: seq<Byte>)
    requires es != [] && e == es[0] && tail == es[1..] && ReadsBack(more, |tail|, tail)
    requires ReadEntry(s) == if Readable(e) then EntryAt(e, more) else BadEntry
    ensures ReadsBack(s, |es|, es)
  {
    SplitFirst(es, 0);
    SliceAll(es);
    FirstReadable(es, e, tail);
    FirstEntryRead(s, e, more, ReadEntries(more, |tail|), |tail|);
  }

  /** An index is read back exactly when it keeps the reader's two bounds and every
      label set ascends; otherwise it is refused. */
  lemma IndexRoundTrip(es: seq<SeriesEntry>)
    requires AllFit(es) && |es| < TWO32
    ensures ReadIndex(IndexBytes(es)) == if |es| <= MAX_SERIES && AllReadable(es) then Some(es) else None
  {
    var s := IndexBytes(es);
    Pow256Values();
    BERoundTrip(|es|, 4);
    assert s[..4] == BE(|es|, 4) && s[4..] == EntriesBytes(es);
    EntriesRoundTrip(es, EntriesBytes(es));
  }

  lemma {:induction false} EntriesAppend(es: seq<SeriesEntry>, e: SeriesEntry)
    ensures EntriesBytes(es + [e]) == EntriesBytes(es) + EntryBytes(e)
  {
    if es == [] {
      assert es + [e] == [e] && [e][1..] == [];
      assert EntryBytes(e) + [] == EntryBytes(e);
    } else {
      var first, tail := es[0], es[1..];
      EntriesAppend(tail, e);
      assert (es + [e])[1..] == tail + [e];
      ConcatAssoc(EntryBytes(first), EntriesBytes(tail), EntryBytes(e));
    }
  }
}
