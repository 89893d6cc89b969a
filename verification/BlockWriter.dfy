/** A block's writer: which series it takes, the three files it commits, and that a
    reader opens them and finds exactly what was added. */
module BlockWriter {
  import opened Sets
  import opened Options
  import opened BitStreams
  import opened Chunks
  import opened ChunkCodec
  import opened Varints
  import opened Postings
  import opened BlockIndex
  import PostingsFile

  const HDR := 12

  /** One series as it waits to be written; a chunk is its encoded payload. */
  datatype Series = Series(id: nat, labels: seq<Pair>, chunks: seq<seq<Byte>>)

  // ---- canonical labels ----

  function NamesOf(ls: seq<Pair>): seq<Text> {
    if ls == [] then [] else NamesOf(ls[..|ls| - 1]) + [ls[|ls| - 1].name]
  }

  lemma {:induction false} NamesAt(ls: seq<Pair>)
    ensures |NamesOf(ls)| == |ls| && forall i :: 0 <= i < |ls| ==> NamesOf(ls)[i] == ls[i].name
  {
    if ls != [] { NamesAt(ls[..|ls| - 1]); }
  }

  /** What AddSeries asks of labels: no empty name and no name twice. */
  predicate NamesOk(ls: seq<Pair>) {
    && (forall i :: 0 <= i < |ls| ==> ls[i].name != [])
    && forall i, j :: 0 <= i < j < |ls| ==> ls[i].name != ls[j].name
  }

  lemma NamesOkCounts(ls: seq<Pair>)
    ensures NamesOk(ls) <==> multiset(NamesOf(ls))[[]] == 0 && forall t :: multiset(NamesOf(ls))[t] <= 1
  {
    var names := NamesOf(ls);
    NamesAt(ls);
    DistinctCounts(names);
    assert [] in multiset(names) <==> [] in names;
  }

  function InsertByName(s: seq<Pair>, l: Pair): seq<Pair> {
    if s == [] || !TextLess(l.name, s[|s| - 1].name) then s + [l] else InsertByName(s[..|s| - 1], l) + [s[|s| - 1]]
  }

  /** canonicalizeLabels: a copy sorted by name. */
  function Canonical(ls: seq<Pair>): seq<Pair> {
    if ls == [] then [] else InsertByName(Canonical(ls[..|ls| - 1]), ls[|ls| - 1])
  }

  predicate ByName(s: seq<Pair>) {
    forall i, j :: 0 <= i < j < |s| ==> !TextLess(s[j].name, s[i].name)
  }

  lemma NotLessTrans(a: Text, b: Text, c: Text)
    requires !TextLess(b, a) && !TextLess(c, b)
    ensures !TextLess(c, a)
  {
    TextOrder(a, b);
    TextOrder(b, c);
    if TextLess(c, a) && TextLess(a, b) { TextTrans(c, a, b); }
  }

  lemma AppendByName(s: seq<Pair>, l: Pair)
    requires ByName(s) && forall x :: x in s ==> !TextLess(l.name, x.name)
    ensures ByName(s + [l])
  {
  }

  lemma NamesLast(s: seq<Pair>, l: Pair, r: seq<Pair>)
    requires r == s + [l]
    ensures multiset(NamesOf(r)) == multiset(NamesOf(s)) + multiset{l.name} && multiset(r) == multiset(s) + multiset{l}
  {
    assert r[..|r| - 1] == s;
  }

  lemma {:induction false} InsertByNameCounts(s: seq<Pair>, l: Pair, r: seq<Pair>)
    requires r == InsertByName(s, l)
    ensures multiset(r) == multiset(s) + multiset{l} && multiset(NamesOf(r)) == multiset(NamesOf(s)) + multiset{l.name}
  {
    if s == [] || !TextLess(l.name, s[|s| - 1].name) {
      NamesLast(s, l, r);
    } else {
      var p, last := s[..|s| - 1], s[|s| - 1];
      var q := InsertByName(p, l);
      InsertByNameCounts(p, l, q);
      SplitLast(s);
      NamesLast(p, last, s);
      NamesLast(q, last, r);
    }
  }

  lemma LastByName(s: seq<Pair>, p: seq<Pair>, last: Pair)
    requires ByName(s) && s == p + [last]
    ensures ByName(p) && forall x :: x in p ==> !TextLess(last.name, x.name)
  {
    forall x | x in p ensures !TextLess(last.name, x.name) {
      var k :| 0 <= k < |p| && p[k] == x;
      assert s[k] == x && s[|p|] == last;
    }
    forall i, j | 0 <= i < j < |p| ensures !TextLess(p[j].name, p[i].name) { assert s[i] == p[i] && s[j] == p[j]; }
  }

  lemma {:induction false} InsertByNameOk(s: seq<Pair>, l: Pair, r: seq<Pair>)
    requires ByName(s) && r == InsertByName(s, l)
    ensures ByName(r)
  {
    if s != [] {
      var p, last := s[..|s| - 1], s[|s| - 1];
      SplitLast(s);
      LastByName(s, p, last);
      if TextLess(l.name, last.name) {
        var q := InsertByName(p, l);
        InsertByNameOk(p, l, q);
        InsertByNameCounts(p, l, q);
        TextOrder(l.name, last.name);
        forall x | x in q ensures !TextLess(last.name, x.name) { assert x in multiset(q); }
        AppendByName(q, last);
      } else {
        forall x | x in s ensures !TextLess(l.name, x.name) {
          if x != last { NotLessTrans(x.name, last.name, l.name); }
        }
        AppendByName(s, l);
      }
    }
  }

  lemma {:induction false} CanonicalOk(ls: seq<Pair>, r: seq<Pair>)
    requires r == Canonical(ls)
    ensures ByName(r) && multiset(r) == multiset(ls) && multiset(NamesOf(r)) == multiset(NamesOf(ls))
  {
    if ls != [] {
      var p, l := ls[..|ls| - 1], ls[|ls| - 1];
      CanonicalOk(p, Canonical(p));
      InsertByNameOk(Canonical(p), l, r);
      InsertByNameCounts(Canonical(p), l, r);
      SplitLast(ls);
      NamesLast(p, l, ls);
    }
  }

  lemma CanonicalPairs(ls: seq<Pair>, r: seq<Pair>)
    requires multiset(r) == multiset(ls)
    ensures PairSet(r) == PairSet(ls)
  {
    forall l ensures l in r <==> l in ls { assert l in multiset(r) <==> l in multiset(ls); }
  }

  /** The guard does not depend on the order the labels came in. */
  lemma GuardIgnoresOrder(ls: seq<Pair>, r: seq<Pair>)
    requires r == Canonical(ls)
    ensures NamesOk(r) <==> NamesOk(ls)
  {
    CanonicalOk(ls, r);
    NamesOkCounts(ls);
    NamesOkCounts(r);
  }

  /** Neighbours alone tell whether a sorted label set is clean. */
  predicate CleanTo(s: seq<Pair>, n: nat)
    requires n <= |s|
  {
    forall k :: 0 <= k < n ==> s[k].name != [] && (k > 0 ==> s[k].name != s[k - 1].name)
  }

  lemma CleanAscends(s: seq<Pair>)
    requires ByName(s) && CleanTo(s, |s|)
    ensures AscendingNames(s) && NamesOk(s)
  {
    forall i, j | 0 <= i < j < |s| ensures TextLess(s[i].name, s[j].name) {
      TextOrder(s[j - 1].name, s[j].name);
      if i < j - 1 { LessBefore(s[i].name, s[j - 1].name, s[j].name); }
    }
    AscendingOk(s);
  }

  lemma LessBefore(a: Text, b: Text, c: Text)
    requires !TextLess(b, a) && TextLess(b, c)
    ensures TextLess(a, c)
  {
    TextOrder(a, b);
    if TextLess(a, b) { TextTrans(a, b, c); }
  }

  lemma AscendingOk(s: seq<Pair>)
    requires AscendingNames(s) && forall i :: 0 <= i < |s| ==> s[i].name != []
    ensures NamesOk(s)
  {
    forall i, j | 0 <= i < j < |s| ensures s[i].name != s[j].name { TextOrder(s[i].name, s[j].name); }
  }

  // ---- the writer ----

  /** What the writer holds can be committed: distinct ids, label sets the reader takes. */
  predicate Committable(ss: seq<Series>) {
    && (forall i :: 0 <= i < |ss| ==> U64(ss[i].id) && AscendingNames(ss[i].labels) && NamesOk(ss[i].labels))
    && forall i, j :: 0 <= i < j < |ss| ==> ss[i].id != ss[j].id
  }

  function IdsOf(ss: seq<Series>): set<nat> { set i | 0 <= i < |ss| :: ss[i].id }

  lemma Added(ss: seq<Series>, s: Series, after: seq<Series>)
    requires Committable(ss) && after == ss + [s]
    requires s.id !in IdsOf(ss) && U64(s.id) && AscendingNames(s.labels) && NamesOk(s.labels)
    ensures Committable(after) && IdsOf(after) == IdsOf(ss) + {s.id}
  {
    assert after[|ss|] == s;
    forall i | 0 <= i < |ss| ensures after[i].id == ss[i].id && ss[i].id != s.id { assert ss[i].id in IdsOf(ss); }
  }

  /** The writer's guard on sorted labels, neighbour by neighbour. */
  method CheckNames(sorted: seq<Pair>) returns (ok: bool)
    requires ByName(sorted)
    ensures ok <==> NamesOk(sorted)
    ensures ok ==> AscendingNames(sorted)
  {
    var i := 0;
    while i < |sorted|
      invariant 0 <= i <= |sorted| && CleanTo(sorted, i)
    {
      if sorted[i].name == [] { return false; }
      if i > 0 && sorted[i].name == sorted[i - 1].name { return false; }
      i := i + 1;
    }
    CleanAscends(sorted);
    return true;
  }

  class Writer {
    var series: seq<Series>
    var seriesIDs: set<nat>
    var pending: bool

    predicate Valid() reads this {
      Committable(series) && seriesIDs == IdsOf(series)
    }

    constructor ()
      ensures Valid() && series == [] && pending
    {
      series, seriesIDs, pending := [], {}, true;
    }

    /** Takes a series unless its id has been added or its labels have an empty or a
        repeated name; a refusal changes nothing. */
    method AddSeries(id: nat, labels: seq<Pair>, chunks: seq<seq<Byte>>) returns (ok: bool)
      requires Valid() && U64(id)
      modifies this`series, this`seriesIDs
      ensures Valid()
      ensures ok <==> NamesOk(labels) && id !in IdsOf(old(series))
      ensures series == if ok then old(series) + [Series(id, Canonical(labels), chunks)] else old(series)
    {
      if id in seriesIDs { return false; }
      var sorted := Canonical(labels);
      CanonicalOk(labels, sorted);
      GuardIgnoresOrder(labels, sorted);
      ok := CheckNames(sorted);
      if !ok { return; }
      var added := Series(id, sorted, chunks);
      Added(series, added, series + [added]);
      seriesIDs := seriesIDs + {id};
      series := series + [added];
    }

    /** The three files, once: a second Commit, or one after Abort, is refused. */
    method Commit() returns (r: Option<Files>, ghost es: seq<PostingsFile.Entry>)
      requires Valid()
      modifies this`pending
      ensures !pending && (r.Some? <==> old(pending))
      ensures r.Some? ==> r.value.chunks == ChunksBytes(series) && r.value.index == IndexBytes(EntriesOf(series))
      ensures r.Some? ==> r.value.postings == PostingsFile.FileBytes(es) && PostingsFile.InOrder(es) && PostingsFile.Describes(es, HeldOf(series))
    {
      es := [];
      if !pending { return None, es; }
      var chunks, entries := WriteChunks(series);
      var index := WriteIndex(entries);
      var postings;
      postings, es := WritePostings(series);
      pending := false;
      r := Some(Files(chunks, index, postings));
    }

    method Abort()
      modifies this`pending
      ensures !pending
    {
      pending := false;
    }
  }

  datatype Files = Files(chunks: seq<Byte>, index: seq<Byte>, postings: seq<Byte>)

  // ---- the chunks file ----

  /** One chunk: its series, its length, its payload. */
  function RecordBytes(id: nat, p: seq<Byte>): (s: seq<Byte>)
    ensures |s| == HDR + |p|
  {
    BE(id, 8) + BE(|p|, 4) + p
  }

  function SeriesBytes(id: nat, ps: seq<seq<Byte>>): seq<Byte> {
    if ps == [] then [] else SeriesBytes(id, ps[..|ps| - 1]) + RecordBytes(id, ps[|ps| - 1])
  }

  function ChunksBytes(ss: seq<Series>): seq<Byte> {
    if ss == [] then [] else ChunksBytes(ss[..|ss| - 1]) + SeriesBytes(ss[|ss| - 1].id, ss[|ss| - 1].chunks)
  }

  /** Where the payloads of a series come to lie when its records start at base. */
  function RefsOf(id: nat, ps: seq<seq<Byte>>, base: nat): (rs: seq<ChunkRef>)
    ensures |rs| == |ps|
  {
    if ps == [] then []
    else
      var n := |ps| - 1;
      RefsOf(id, ps[..n], base) + [ChunkRef(base + |SeriesBytes(id, ps[..n])| + HDR, |ps[n]|)]
  }

  function EntryOf(s: Series, base: nat): SeriesEntry { SeriesEntry(s.id, s.labels, RefsOf(s.id, s.chunks, base)) }

  function EntriesOf(ss: seq<Series>): (es: seq<SeriesEntry>)
    ensures |es| == |ss|
  {
    if ss == [] then []
    else EntriesOf(ss[..|ss| - 1]) + [EntryOf(ss[|ss| - 1], |ChunksBytes(ss[..|ss| - 1])|)]
  }

  /** The chunks file, and where each payload went. */
  method WriteChunks(ss: seq<Series>) returns (f: seq<Byte>, es: seq<SeriesEntry>)
    ensures f == ChunksBytes(ss) && es == EntriesOf(ss)
  {
    f, es := [], [];
    var i := 0;
    while i < |ss|
      invariant 0 <= i <= |ss| && f == ChunksBytes(ss[..i]) && es == EntriesOf(ss[..i])
    {
      NextSeries(ss, i, ss[i]);
      var refs;
      f, refs := WriteSeries(f, ss[i].id, ss[i].chunks);
      es := es + [SeriesEntry(ss[i].id, ss[i].labels, refs)];
      i := i + 1;
    }
    SliceAll(ss);
  }

  lemma NextSeries(ss: seq<Series>, i: nat, s: Series)
    requires i < |ss| && s == ss[i]
    ensures ChunksBytes(ss[..i + 1]) == ChunksBytes(ss[..i]) + SeriesBytes(s.id, s.chunks)
    ensures EntriesOf(ss[..i + 1]) == EntriesOf(ss[..i]) + [EntryOf(s, |ChunksBytes(ss[..i])|)]
  {
    assert ss[..i + 1][..i] == ss[..i];
  }

  method WriteSeries(f0: seq<Byte>, id: nat, ps: seq<seq<Byte>>) returns (f: seq<Byte>, refs: seq<ChunkRef>)
    ensures f == f0 + SeriesBytes(id, ps) && refs == RefsOf(id, ps, |f0|)
  {
    f, refs := f0, [];
    var j := 0;
    while j < |ps|
      invariant 0 <= j <= |ps| && f == f0 + SeriesBytes(id, ps[..j]) && refs == RefsOf(id, ps[..j], |f0|)
    {
      NextChunk(id, ps, j, |f0|, ps[j]);
      ConcatAssoc(f0, SeriesBytes(id, ps[..j]), RecordBytes(id, ps[j]));
      refs := refs + [ChunkRef(|f| + HDR, |ps[j]|)];
      f := f + RecordBytes(id, ps[j]);
      j := j + 1;
    }
    SliceAll(ps);
  }

  lemma NextChunk(id: nat, ps: seq<seq<Byte>>, j: nat, base: nat, p: seq<Byte>)
    requires j < |ps| && p == ps[j]
    ensures SeriesBytes(id, ps[..j + 1]) == SeriesBytes(id, ps[..j]) + RecordBytes(id, p)
    ensures RefsOf(id, ps[..j + 1], base) == RefsOf(id, ps[..j], base) + [ChunkRef(base + |SeriesBytes(id, ps[..j])| + HDR, |p|)]
  {
    assert ps[..j + 1][..j] == ps[..j];
  }

  method WriteIndex(es: seq<SeriesEntry>) returns (f: seq<Byte>)
    ensures f == IndexBytes(es)
  {
    var count := BE(|es|, 4);
    f := count;
    var i := 0;
    while i < |es|
      invariant 0 <= i <= |es| && f == count + EntriesBytes(es[..i])
    {
      EntriesAppend(es[..i], es[i]);
      assert es[..i + 1] == es[..i] + [es[i]];
      ConcatAssoc(count, EntriesBytes(es[..i]), EntryBytes(es[i]));
      f := f + EntryBytes(es[i]);
      i := i + 1;
    }
    SliceAll(es);
  }

  // ---- the postings ----

  /** What the series say: each id with its labels. */
  function HeldOf(ss: seq<Series>): (held: Forward)
    ensures held.Keys == IdsOf(ss)
  {
    if ss == [] then map[]
    else
      var n := |ss| - 1;
      assert IdsOf(ss) == IdsOf(ss[..n]) + {ss[n].id} by { assert forall i :: 0 <= i < n ==> ss[..n][i] == ss[i]; }
      HeldOf(ss[..n])[ss[n].id := PairSet(ss[n].labels)]
  }

  lemma NextHeld(ss: seq<Series>, i: nat, s: Series)
    requires Committable(ss) && i < |ss| && s == ss[i]
    ensures s.id !in HeldOf(ss[..i]) && HeldOf(ss[..i + 1]) == HeldOf(ss[..i])[s.id := PairSet(s.labels)]
  {
    assert ss[..i + 1][..i] == ss[..i];
  }

  /** No accepted series carries the pair that stands for all of them. */
  lemma {:induction false} NoEmptyPair(ss: seq<Series>)
    requires forall i :: 0 <= i < |ss| ==> NamesOk(ss[i].labels)
    ensures Having(HeldOf(ss), PostingsFile.ALL) == {}
  {
    if ss != [] {
      var p, s := ss[..|ss| - 1], ss[|ss| - 1];
      assert PostingsFile.ALL !in PairSet(s.labels);
      assert Having(HeldOf(ss), PostingsFile.ALL) <= Having(HeldOf(p), PostingsFile.ALL);
      NoEmptyPair(p);
    }
  }

  method BuildPostings(ss: seq<Series>) returns (mp: MemPostings)
    requires Committable(ss)
    ensures fresh(mp) && mp.Valid() && mp.held == HeldOf(ss)
  {
    mp := new MemPostings();
    var i := 0;
    while i < |ss|
      invariant 0 <= i <= |ss| && fresh(mp) && mp.Valid() && mp.held == HeldOf(ss[..i])
    {
      NextHeld(ss, i, ss[i]);
      mp.Add(ss[i].id, ss[i].labels);
      i := i + 1;
    }
    SliceAll(ss);
  }

  method WritePostings(ss: seq<Series>) returns (buf: seq<Byte>, ghost es: seq<PostingsFile.Entry>)
    requires Committable(ss)
    ensures buf == PostingsFile.FileBytes(es) && PostingsFile.InOrder(es) && PostingsFile.Describes(es, HeldOf(ss))
  {
    var mp := BuildPostings(ss);
    NoEmptyPair(ss);
    buf, es := PostingsFile.WritePostings(mp);
  }
}
