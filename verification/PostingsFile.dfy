/** The inverted index on disk: which byte strings the loader accepts, what it then
    answers, and that the writer's output is accepted. */
module PostingsFile {
  import opened Sets
  import opened Options
  import opened BitStreams
  import opened Chunks
  import opened ChunkCodec
  import opened Varints
  import opened Postings

  const MAGIC: seq<Byte> := [79, 80, 80, 73]
  const VERSION: Byte := 1
  const HEADER := 5
  const FOOTER := 8

  /** The sentinel pair, under which every series is listed. */
  const ALL := Pair([], [])

  /** An offset-table entry. */
  datatype Ref = Ref(l: Pair, off: nat)

  // ---- the offset table ----

  datatype TextRead = BadText | TextAt(text: Text, rest: seq<Byte>)

  function ReadText(s: seq<Byte>): (r: TextRead)
    ensures r.TextAt? ==> |r.rest| < |s|
  {
    if |s| < 4 || 4 + BEVal(s[..4]) > |s| then BadText
    else TextAt(s[4..4 + BEVal(s[..4])], s[4 + BEVal(s[..4])..])
  }

  function Int64At(s: seq<Byte>): (v: int)
    requires |s| == 8
    ensures Int64(v)
  {
    BEValBound(s);
    Pow256Values();
    ToI64(BEVal(s))
  }

  datatype RefRead = BadRef | RefAt(ref: Ref, rest: seq<Byte>)

  /** One entry: name, value, and an offset that must leave room for a count before
      the table, in int64 arithmetic. */
  function ReadRef(s: seq<Byte>, ot: int): (r: RefRead)
    ensures r.RefAt? ==> |r.rest| < |s| && Int64(r.ref.off) && r.ref.off >= HEADER
  {
    var name := ReadText(s);
    if name.BadText? then BadRef
    else
      var value := ReadText(name.rest);
      if value.BadText? || |value.rest| < 8 then BadRef
      else
        var off := Int64At(value.rest[..8]);
        if off < HEADER || Wrap64(off + 4) > ot then BadRef
        else RefAt(Ref(Pair(name.text, value.text), off), value.rest[8..])
  }

  /** Exactly n entries, using up the table. */
  function ReadRefs(s: seq<Byte>, n: nat, ot: int): (r: Option<seq<Ref>>)
    ensures r.Some? ==> |r.value| == n && forall i :: 0 <= i < n ==> Int64(r.value[i].off) && r.value[i].off >= HEADER
    decreases n
  {
    if n == 0 then (if s == [] then Some([]) else None)
    else
      var one := ReadRef(s, ot);
      if one.BadRef? then None
      else
        Prefixed(one.ref, ReadRefs(one.rest, n - 1, ot))
  }

  /** Where the table starts, when header and footer are in order. */
  function TableStart(f: seq<Byte>): (ot: Option<int>)
    ensures ot.Some? ==> HEADER <= ot.value <= |f| - FOOTER
  {
    if |f| < HEADER + FOOTER || f[..4] != MAGIC || f[4] != VERSION then None
    else
      var ot := Int64At(f[|f| - FOOTER..]);
      if ot < HEADER || ot > |f| - FOOTER then None else Some(ot)
  }

  function TableOf(f: seq<Byte>, ot: int): Option<seq<Ref>>
    requires HEADER <= ot <= |f| - FOOTER
  {
    var t := f[ot..|f| - FOOTER];
    if |t| < 4 then None else ReadRefs(t[4..], BEVal(t[..4]), ot)
  }

  // ---- the lists ----

  function DecodeIds(s: seq<Byte>): seq<nat>
  {
    if |s| < 8 then [] else [BEVal(s[..8])] + DecodeIds(s[8..])
  }

  /** The list at off, if its body ends exactly at end and is not longer than max. */
  function ListBounded(f: seq<Byte>, off: int, end: int, max: nat): (r: Option<seq<nat>>)
    ensures r.Some? ==> 0 <= off < off + 4 <= end
  {
    if off < 0 || off + 4 > |f| then None
    else
      var cnt := BEVal(f[off..off + 4]);
      if off + 4 + cnt * 8 != end || cnt > max || end > |f| then None
      else Some(DecodeIds(f[off + 4..end]))
  }

  /** The list at off as a query reads it: it must end before the table. */
  function ListAt(f: seq<Byte>, off: int, ot: int): Option<seq<nat>> {
    if off < 0 || off + 4 > |f| then None
    else
      var cnt := BEVal(f[off..off + 4]);
      if cnt == 0 then Some([])
      else if off + 4 + cnt * 8 > ot || off + 4 + cnt * 8 > |f| then None
      else Some(DecodeIds(f[off + 4..off + 4 + cnt * 8]))
  }

  /** What the forward index says a pair's list must hold. */
  function Expected(held: Forward, l: Pair): set<nat> {
    if l == ALL then held.Keys else Having(held, l)
  }

  /** The next list's start, or the table's. */
  function NextOff(refs: seq<Ref>, off: int, ot: int): (e: int)
    ensures e <= ot && (forall i :: 0 <= i < |refs| && refs[i].off > off ==> e <= refs[i].off)
    ensures e == ot || exists i :: 0 <= i < |refs| && refs[i].off == e && e > off
  {
    if refs == [] then ot
    else
      var n := |refs| - 1;
      var e := NextOff(refs[..n], off, ot);
      assert forall i :: 0 <= i < n ==> refs[..n][i] == refs[i];
      if off < refs[n].off < e then refs[n].off else e
  }

  ghost predicate ListOk(f: seq<Byte>, r: Ref, end: int, held: Forward) {
    var ids := ListBounded(f, r.off, end, |held|);
    ids.Some? && Lists(ids.value, Expected(held, r.l))
  }

  ghost predicate ListsOk(f: seq<Byte>, refs: seq<Ref>, ot: int, held: Forward) {
    && (forall i, j :: 0 <= i < j < |refs| ==> refs[i].off != refs[j].off)
    && (forall i :: 0 <= i < |refs| ==> ListOk(f, refs[i], NextOff(refs, refs[i].off, ot), held))
  }

  // ---- acceptance ----

  predicate DistinctPairs(refs: seq<Ref>) {
    forall i, j :: 0 <= i < j < |refs| ==> refs[i].l != refs[j].l
  }

  predicate HasRef(refs: seq<Ref>, l: Pair) {
    exists i :: 0 <= i < |refs| && refs[i].l == l
  }

  /** The table lists the sentinel and exactly the pairs some series carries. */
  ghost predicate KeysOk(refs: seq<Ref>, held: Forward) {
    HasRef(refs, ALL) && Having(held, ALL) == {} && forall l :: l != ALL ==> (HasRef(refs, l) <==> Having(held, l) != {})
  }

  ghost predicate Acceptable(f: seq<Byte>, held: Forward) {
    var ot := TableStart(f);
    ot.Some? && var refs := TableOf(f, ot.value);
    refs.Some? && DistinctPairs(refs.value) && KeysOk(refs.value, held) && ListsOk(f, refs.value, ot.value, held)
  }

  // ---- parsing ----

  method ParseRefs(t: seq<Byte>, ot: int) returns (r: Option<seq<Ref>>)
    requires |t| >= 4
    ensures r == ReadRefs(t[4..], BEVal(t[..4]), ot)
  {
    var n := BEVal(t[..4]);
    var rest := t[4..];
    var refs: seq<Ref> := [];
    var i := 0;
    ExtendedNone(ReadRefs(rest, n, ot));
    while i < n
      invariant 0 <= i <= n && ReadRefs(t[4..], n, ot) == Extended(refs, ReadRefs(rest, n - i, ot))
    {
      var one := ReadRef(rest, ot);
      if one.BadRef? { return None; }
      ExtendedOne(refs, one.ref, ReadRefs(one.rest, n - i - 1, ot));
      refs := refs + [one.ref];
      rest := one.rest;
      i := i + 1;
    }
    if rest != [] { return None; }
    assert refs + [] == refs;
    r := Some(refs);
  }

  type Offsets = map<Text, map<Text, int>>

  predicate Has(o: Offsets, l: Pair) { l.name in o && l.value in o[l.name] }

  function OffOf(o: Offsets, l: Pair): int
    requires Has(o, l)
  {
    o[l.name][l.value]
  }

  /** The table as maps: every pair but the sentinel under its name and value. */
  ghost predicate OffsetsOf(o: Offsets, allRefs: Option<int>, refs: seq<Ref>) {
    && !Has(o, ALL)
    && (forall l {:trigger Has(o, l)} :: l != ALL ==> (Has(o, l) <==> HasRef(refs, l)))
    && (allRefs.Some? <==> HasRef(refs, ALL))
    && (forall i :: 0 <= i < |refs| ==> if refs[i].l == ALL then allRefs == Some(refs[i].off) else Has(o, refs[i].l) && OffOf(o, refs[i].l) == refs[i].off)
  }

  function WithOffset(o: Offsets, r: Ref): Offsets {
    o[r.l.name := (if r.l.name in o then o[r.l.name] else map[])[r.l.value := r.off]]
  }

  lemma WithOffsetHas(o: Offsets, r: Ref, l: Pair)
    ensures Has(WithOffset(o, r), l) <==> l == r.l || Has(o, l)
    ensures Has(WithOffset(o, r), l) ==> OffOf(WithOffset(o, r), l) == if l == r.l then r.off else OffOf(o, l)
  {
    assert l == Pair(l.name, l.value) && r.l == Pair(r.l.name, r.l.value);
  }

  lemma HasRefAppend(refs: seq<Ref>, r: Ref, l: Pair)
    ensures HasRef(refs + [r], l) <==> HasRef(refs, l) || l == r.l
  {
    var all := refs + [r];
    assert all[|refs|] == r;
    if HasRef(refs, l) {
      var i :| 0 <= i < |refs| && refs[i].l == l;
      assert all[i].l == l;
    }
  }

  lemma OffsetsNext(o: Offsets, allRefs: Option<int>, refs: seq<Ref>, r: Ref)
    requires OffsetsOf(o, allRefs, refs) && !HasRef(refs, r.l)
    ensures if r.l == ALL then OffsetsOf(o, Some(r.off), refs + [r]) else OffsetsOf(WithOffset(o, r), allRefs, refs + [r])
  {
    forall l ensures HasRef(refs + [r], l) <==> HasRef(refs, l) || l == r.l { HasRefAppend(refs, r, l); }
    forall l ensures Has(WithOffset(o, r), l) <==> l == r.l || Has(o, l) { WithOffsetHas(o, r, l); }
    forall i | 0 <= i < |refs| ensures refs[i].l != r.l && (refs[i].l != ALL && r.l != ALL ==> OffOf(WithOffset(o, r), refs[i].l) == refs[i].off) {
      assert HasRef(refs, refs[i].l);
      WithOffsetHas(o, r, refs[i].l);
    }
  }

  lemma RepeatedPair(refs: seq<Ref>, i: nat)
    requires i < |refs| && HasRef(refs[..i], refs[i].l)
    ensures !DistinctPairs(refs)
  {
    var k :| 0 <= k < i && refs[..i][k].l == refs[i].l;
    assert refs[k].l == refs[i].l;
  }

  lemma NewPair(refs: seq<Ref>, i: nat)
    requires i < |refs| && DistinctPairs(refs[..i]) && !HasRef(refs[..i], refs[i].l)
    ensures DistinctPairs(refs[..i + 1])
  {
    forall k | 0 <= k < i ensures refs[k].l != refs[i].l { assert refs[..i][k].l == refs[k].l; }
    var before, after := refs[..i], refs[..i + 1];
    forall j, k | 0 <= j < k < |after| ensures after[j].l != after[k].l {
      if k < i { assert before[j].l != before[k].l; }
    }
  }

  /** Fills the maps, refusing a repeated pair, a repeated sentinel and none. */
  method BuildOffsets(refs: seq<Ref>) returns (ok: bool, o: Offsets, allRefs: int)
    ensures ok <==> DistinctPairs(refs) && HasRef(refs, ALL)
    ensures ok ==> OffsetsOf(o, Some(allRefs), refs)
  {
    o := map[];
    var sentinel: Option<int> := None;
    var i := 0;
    while i < |refs|
      invariant 0 <= i <= |refs| && DistinctPairs(refs[..i]) && OffsetsOf(o, sentinel, refs[..i])
    {
      var r := refs[i];
      assert refs[..i + 1] == refs[..i] + [r];
      if (if r.l == ALL then sentinel.Some? else r.l.name in o && r.l.value in o[r.l.name]) {
        assert HasRef(refs[..i], r.l) by { assert Has(o, r.l) ==> r.l != ALL; }
        RepeatedPair(refs, i);
        return false, o, 0;
      }
      assert !HasRef(refs[..i], r.l) by { assert r.l != ALL ==> !Has(o, r.l); }
      OffsetsNext(o, sentinel, refs[..i], r);
      NewPair(refs, i);
      if r.l == ALL { sentinel := Some(r.off); } else { o := WithOffset(o, r); }
      i := i + 1;
    }
    assert refs[..i] == refs;
    if sentinel.None? { return false, o, 0; }
    return true, o, sentinel.value;
  }

  // ---- the key set ----

  function PairsOf<V>(m: map<Text, map<Text, V>>): set<Pair> {
    set n, v | n in m && v in m[n] :: Pair(n, v)
  }

  function Paired(n: Text, vals: set<Text>): set<Pair> {
    set v | v in vals :: Pair(n, v)
  }

  lemma {:induction false} PairedSize(n: Text, vals: set<Text>)
    ensures |Paired(n, vals)| == |vals|
  {
    if vals == {} {
      assert Paired(n, vals) == {};
    } else {
      var v :| v in vals;
      PairedSize(n, vals - {v});
      assert Paired(n, vals) == Paired(n, vals - {v}) + {Pair(n, v)};
    }
  }

  /** How many pairs a nested map holds, summed name by name. */
  method CountPairs<V>(m: map<Text, map<Text, V>>) returns (n: nat)
    ensures n == |PairsOf(m)|
  {
    n := 0;
    var todo := m.Keys;
    assert PairsBut(m, m.Keys) == {};
    while todo != {}
      invariant todo <= m.Keys && n == |PairsBut(m, todo)|
      decreases todo
    {
      var name :| name in todo;
      CountName(m, todo, name);
      n := n + |m[name]|;
      todo := todo - {name};
    }
    assert PairsBut(m, {}) == PairsOf(m);
  }

  /** The pairs whose names are not in todo. */
  function PairsBut<V>(m: map<Text, map<Text, V>>, todo: set<Text>): set<Pair> {
    set l | l in PairsOf(m) && l.name !in todo
  }

  lemma CountName<V>(m: map<Text, map<Text, V>>, todo: set<Text>, name: Text)
    requires name in todo && name in m
    ensures |PairsBut(m, todo - {name})| == |PairsBut(m, todo)| + |m[name]|
  {
    var paired := Paired(name, m[name].Keys);
    PairedSize(name, m[name].Keys);
    forall l ensures l in PairsBut(m, todo - {name}) <==> l in PairsBut(m, todo) + paired {
      assert l == Pair(l.name, l.value);
    }
    assert PairsBut(m, todo - {name}) == PairsBut(m, todo) + paired;
    assert PairsBut(m, todo) !! paired;
  }

  /** Every expected pair is in the file, and the counts are equal: so the key sets
      are the same. */
  method ValidatePairKeySet(m: Index, o: Offsets) returns (ok: bool)
    ensures ok <==> PairsOf(m) == PairsOf(o)
  {
    var names := m.Keys;
    while names != {}
      invariant names <= m.Keys
      invariant forall l :: l in PairsOf(m) && l.name !in names ==> l in PairsOf(o)
      decreases names
    {
      var name :| name in names;
      var values := m[name].Keys;
      while values != {}
        invariant values <= m[name].Keys
        invariant forall v :: v in m[name] && v !in values ==> Pair(name, v) in PairsOf(o)
        decreases values
      {
        var v :| v in values;
        if name !in o || v !in o[name] {
          assert Pair(name, v) in PairsOf(m) && Pair(name, v) !in PairsOf(o);
          return false;
        }
        assert Pair(name, v) in PairsOf(o);
        values := values - {v};
      }
      names := names - {name};
    }
    var filePairs := CountPairs(o);
    var expectedPairs := CountPairs(m);
    SubsetSize(PairsOf(m), PairsOf(o));
    ok := filePairs == expectedPairs;
  }

  lemma KeySetsAgree(m: Index, held: Forward, o: Offsets, allRefs: int, refs: seq<Ref>)
    requires Indexes(m, held) && OffsetsOf(o, Some(allRefs), refs) && HasRef(refs, ALL)
    ensures PairsOf(m) == PairsOf(o) <==> KeysOk(refs, held)
  {
    forall l ensures (l in PairsOf(m) <==> Having(held, l) != {}) && (l in PairsOf(o) <==> Has(o, l)) {
      ListedIff(m, held, l);
      assert l == Pair(l.name, l.value);
    }
    assert ALL !in PairsOf(o);
    if KeysOk(refs, held) {
      forall l ensures l in PairsOf(m) <==> l in PairsOf(o) {
        if l != ALL { assert HasRef(refs, l) <==> Having(held, l) != {}; assert Has(o, l) <==> HasRef(refs, l); }
      }
    }
    if PairsOf(m) == PairsOf(o) {
      forall l | l != ALL ensures HasRef(refs, l) <==> Having(held, l) != {} {
        assert Has(o, l) <==> HasRef(refs, l);
      }
    }
  }

  // ---- the lists in file order ----

  predicate ByOffset(s: seq<Ref>) {
    forall i, j :: 0 <= i < j < |s| ==> s[i].off <= s[j].off
  }

  function InsertRef(s: seq<Ref>, r: Ref): seq<Ref> {
    if s == [] || s[|s| - 1].off <= r.off then s + [r] else InsertRef(s[..|s| - 1], r) + [s[|s| - 1]]
  }

  /** sort.Slice by offset. */
  function SortRefs(s: seq<Ref>): seq<Ref> {
    if s == [] then [] else InsertRef(SortRefs(s[..|s| - 1]), s[|s| - 1])
  }

  lemma {:induction false} InsertRefOk(s: seq<Ref>, r: Ref)
    requires ByOffset(s)
    ensures ByOffset(InsertRef(s, r)) && multiset(InsertRef(s, r)) == multiset(s) + multiset{r}
  {
    if s != [] {
      var p, last := s[..|s| - 1], s[|s| - 1];
      SplitLast(s);
      if last.off > r.off {
        InsertRefOk(p, r);
        LastAfter(p, r, InsertRef(p, r), last);
      }
    }
  }

  lemma LastAfter(p: seq<Ref>, r: Ref, q: seq<Ref>, last: Ref)
    requires ByOffset(q) && multiset(q) == multiset(p) + multiset{r}
    requires r.off <= last.off && forall i :: 0 <= i < |p| ==> p[i].off <= last.off
    ensures ByOffset(q + [last]) && multiset(q + [last]) == multiset(p) + multiset{r} + multiset{last}
  {
    forall i | 0 <= i < |q| ensures q[i].off <= last.off {
      assert q[i] in multiset(q);
      if q[i] != r { assert q[i] in multiset(p); }
    }
  }

  lemma {:induction false} SortRefsOk(s: seq<Ref>)
    ensures ByOffset(SortRefs(s)) && multiset(SortRefs(s)) == multiset(s)
  {
    if s != [] {
      var p, r := s[..|s| - 1], s[|s| - 1];
      SplitLast(s);
      SortRefsOk(p);
      InsertRefOk(SortRefs(p), r);
    }
  }

  function EndOf(s: seq<Ref>, i: nat, ot: int): int
    requires i < |s|
  {
    if i + 1 < |s| then s[i + 1].off else ot
  }

  /** Each list fills the gap to the next one in file order. */
  ghost predicate FilesOk(f: seq<Byte>, s: seq<Ref>, ot: int, held: Forward) {
    forall i :: 0 <= i < |s| ==> Fills(f, s, i, ot, held)
  }

  ghost predicate Fills(f: seq<Byte>, s: seq<Ref>, i: nat, ot: int, held: Forward)
    requires i < |s|
  {
    ListOk(f, s[i], EndOf(s, i, ot), held)
  }

  lemma FilledIsAscending(f: seq<Byte>, s: seq<Ref>, ot: int, held: Forward)
    requires FilesOk(f, s, ot, held)
    ensures forall i, j :: 0 <= i < j < |s| ==> s[i].off < s[j].off
    ensures forall i :: 0 <= i < |s| ==> s[i].off < ot
  {
    forall i, j | 0 <= i < j < |s| ensures s[i].off < s[j].off { FilledStep(f, s, ot, held, i, j); }
    forall i | 0 <= i < |s| ensures s[i].off < ot {
      assert Fills(f, s, |s| - 1, ot, held);
      FillsForward(f, s[|s| - 1], EndOf(s, |s| - 1, ot), held);
      if i < |s| - 1 { FilledStep(f, s, ot, held, i, |s| - 1); }
    }
  }

  lemma FillsForward(f: seq<Byte>, r: Ref, end: int, held: Forward)
    requires ListOk(f, r, end, held)
    ensures r.off < end
  {
  }

  lemma {:induction false} FilledStep(f: seq<Byte>, s: seq<Ref>, ot: int, held: Forward, i: nat, j: nat)
    requires FilesOk(f, s, ot, held) && i < j < |s|
    ensures s[i].off < s[j].off
    decreases j
  {
    assert Fills(f, s, j - 1, ot, held);
    FillsForward(f, s[j - 1], EndOf(s, j - 1, ot), held);
    if i < j - 1 { FilledStep(f, s, ot, held, i, j - 1); }
  }

  lemma SamePlaces(s: seq<Ref>, refs: seq<Ref>)
    requires multiset(s) == multiset(refs)
    ensures |s| == |refs| && forall r :: r in s <==> r in refs
  {
    assert |s| == |multiset(s)| == |multiset(refs)| == |refs|;
    forall r ensures r in s <==> r in refs { assert r in multiset(s) <==> r in multiset(refs); }
  }

  /** In strictly ascending file order the next list is the next element. */
  lemma NextIsNext(s: seq<Ref>, refs: seq<Ref>, i: nat, ot: int)
    requires i < |s| && (forall r :: r in s <==> r in refs)
    requires (forall a, b :: 0 <= a < b < |s| ==> s[a].off < s[b].off) && forall a :: 0 <= a < |s| ==> s[a].off < ot
    ensures NextOff(refs, s[i].off, ot) == EndOf(s, i, ot)
  {
    var e := NextOff(refs, s[i].off, ot);
    if e != ot {
      var k :| 0 <= k < |refs| && refs[k].off == e && e > s[i].off;
      assert refs[k] in s;
      var a :| 0 <= a < |s| && s[a] == refs[k];
    }
    if i + 1 < |s| {
      assert s[i + 1] in refs;
      var k :| 0 <= k < |refs| && refs[k] == s[i + 1];
    }
  }

  lemma {:induction false} DistinctOffsets(s: seq<Ref>, refs: seq<Ref>)
    requires multiset(s) == multiset(refs)
    ensures (forall i, j :: 0 <= i < j < |s| ==> s[i].off != s[j].off) <==> forall i, j :: 0 <= i < j < |refs| ==> refs[i].off != refs[j].off
  {
    OffCounts(s);
    OffCounts(refs);
    SameOffs(s, refs);
  }

  function Offs(s: seq<Ref>): seq<int> {
    seq(|s|, i requires 0 <= i < |s| => s[i].off)
  }

  lemma {:induction false} SameOffs(s: seq<Ref>, t: seq<Ref>)
    requires multiset(s) == multiset(t)
    ensures multiset(Offs(s)) == multiset(Offs(t))
    decreases |s|
  {
    SamePlaces(s, t);
    if s != [] {
      var r, p := s[|s| - 1], s[..|s| - 1];
      SplitLast(s);
      var j := PlaceOf(t, r, s);
      var q := t[..j] + t[j + 1..];
      TakeOut(t, j);
      OffsLast(s, p, r);
      SameOffs(p, q);
    }
  }

  lemma PlaceOf(t: seq<Ref>, r: Ref, s: seq<Ref>) returns (j: nat)
    requires multiset(s) == multiset(t) && r in s
    ensures j < |t| && t[j] == r
  {
    assert r in multiset(t);
    j :| 0 <= j < |t| && t[j] == r;
  }

  lemma OffsLast(s: seq<Ref>, p: seq<Ref>, r: Ref)
    requires s == p + [r]
    ensures multiset(Offs(s)) == multiset(Offs(p)) + multiset{r.off}
  {
    assert Offs(s) == Offs(p) + [r.off];
  }

  lemma TakeOut(t: seq<Ref>, j: nat)
    requires j < |t|
    ensures multiset(t[..j] + t[j + 1..]) == multiset(t) - multiset{t[j]}
    ensures multiset(Offs(t)) == multiset(Offs(t[..j] + t[j + 1..])) + multiset{t[j].off}
  {
    var a, b := t[..j], t[j + 1..];
    assert t == a + [t[j]] + b;
    assert Offs(t) == Offs(a) + [t[j].off] + Offs(b);
    assert Offs(a + b) == Offs(a) + Offs(b);
  }

  lemma OffCounts(s: seq<Ref>)
    ensures (forall i, j :: 0 <= i < j < |s| ==> s[i].off != s[j].off) <==> forall k :: multiset(Offs(s))[k] <= 1
  {
    DistinctCounts(Offs(s));
    assert forall i :: 0 <= i < |s| ==> Offs(s)[i] == s[i].off;
  }

  /** Checking neighbours in file order is checking every list against the next. */
  lemma FileOrderIsEnough(f: seq<Byte>, refs: seq<Ref>, ot: int, held: Forward)
    ensures FilesOk(f, SortRefs(refs), ot, held) <==> ListsOk(f, refs, ot, held)
  {
    var s := SortRefs(refs);
    SortRefsOk(refs);
    if FilesOk(f, s, ot, held) { FilesThenLists(f, s, refs, ot, held); }
    if ListsOk(f, refs, ot, held) { ListsThenFiles(f, s, refs, ot, held); }
  }

  lemma FilesThenLists(f: seq<Byte>, s: seq<Ref>, refs: seq<Ref>, ot: int, held: Forward)
    requires multiset(s) == multiset(refs) && FilesOk(f, s, ot, held)
    ensures ListsOk(f, refs, ot, held)
  {
    SamePlaces(s, refs);
    DistinctOffsets(s, refs);
    FilledIsAscending(f, s, ot, held);
    forall i | 0 <= i < |refs| ensures ListOk(f, refs[i], NextOff(refs, refs[i].off, ot), held) {
      assert refs[i] in s;
      var k :| 0 <= k < |s| && s[k] == refs[i];
      NextIsNext(s, refs, k, ot);
      assert Fills(f, s, k, ot, held);
    }
  }

  lemma ListsThenFiles(f: seq<Byte>, s: seq<Ref>, refs: seq<Ref>, ot: int, held: Forward)
    requires ByOffset(s) && multiset(s) == multiset(refs) && ListsOk(f, refs, ot, held)
    ensures FilesOk(f, s, ot, held)
  {
    SamePlaces(s, refs);
    DistinctOffsets(s, refs);
    forall i | 0 <= i < |s| ensures s[i].off < ot && exists k :: 0 <= k < |refs| && refs[k] == s[i] {
      assert s[i] in refs;
      var k :| 0 <= k < |refs| && refs[k] == s[i];
      FillsForward(f, refs[k], NextOff(refs, refs[k].off, ot), held);
    }
    forall i | 0 <= i < |s| ensures Fills(f, s, i, ot, held) {
      NextIsNext(s, refs, i, ot);
    }
  }

  // ---- reading lists ----

  method ReadIds(s: seq<Byte>, cnt: nat) returns (ids: seq<nat>)
    requires |s| == cnt * 8
    ensures ids == DecodeIds(s)
  {
    ids := [];
    var i := 0;
    assert s[0..] == s;
    while i < cnt
      invariant 0 <= i <= cnt && ids + DecodeIds(s[i * 8..]) == DecodeIds(s)
    {
      assert s[i * 8..][..8] == s[i * 8..i * 8 + 8] && s[i * 8..][8..] == s[(i + 1) * 8..];
      assert ids + ([BEVal(s[i * 8..i * 8 + 8])] + DecodeIds(s[(i + 1) * 8..])) == ids + [BEVal(s[i * 8..i * 8 + 8])] + DecodeIds(s[(i + 1) * 8..]);
      ids := ids + [BEVal(s[i * 8..i * 8 + 8])];
      i := i + 1;
    }
    assert s[cnt * 8..] == [];
    assert ids + [] == ids;
  }

  method ReadListBounded(f: seq<Byte>, off: int, end: int, max: nat) returns (r: Option<seq<nat>>)
    ensures r == ListBounded(f, off, end, max)
  {
    if off < 0 || off + 4 > |f| { return None; }
    var cnt := BEVal(f[off..off + 4]);
    if off + 4 + cnt * 8 != end { return None; }
    if cnt > max { return None; }
    if end > |f| { return None; }
    if cnt == 0 {
      assert f[off + 4..end] == [];
      return Some([]);
    }
    var ids := ReadIds(f[off + 4..end], cnt);
    r := Some(ids);
  }

  method ReadList(f: seq<Byte>, off: int, ot: int) returns (r: Option<seq<nat>>)
    ensures r == ListAt(f, off, ot)
  {
    if off < 0 || off + 4 > |f| { return None; }
    var cnt := BEVal(f[off..off + 4]);
    if cnt == 0 { return Some([]); }
    if off + 4 + cnt * 8 > ot { return None; }
    if off + 4 + cnt * 8 > |f| { return None; }
    var ids := ReadIds(f[off + 4..off + 4 + cnt * 8], cnt);
    r := Some(ids);
  }

  /** A list validated against its bounds is the list a query reads. */
  lemma ValidatedIsRead(f: seq<Byte>, off: int, end: int, max: nat, ot: int)
    requires ListBounded(f, off, end, max).Some? && end <= ot
    ensures ListAt(f, off, ot) == ListBounded(f, off, end, max)
  {
    if end == off + 4 { assert f[off + 4..end] == []; }
  }

  lemma {:induction false} ListSize(s: seq<nat>, S: set<nat>)
    requires Lists(s, S)
    ensures |s| == |S|
  {
    EmptyIff(s, S);
    if s != [] {
      ListsButLast(s, S);
      ListSize(s[..|s| - 1], S - {s[|s| - 1]});
      assert s[|s| - 1] in s;
    }
  }

  /** Every list checked, in file order, against the forward index. */
  method ValidateLists(f: seq<Byte>, refs: seq<Ref>, ot: int, mp: MemPostings) returns (ok: bool)
    requires mp.Valid()
    ensures ok <==> ListsOk(f, refs, ot, mp.held)
  {
    var total := |mp.allRefs|;
    ListSize(mp.allRefs, mp.held.Keys);
    assert |mp.held| == |mp.held.Keys|;
    var s := SortRefs(refs);
    FileOrderIsEnough(f, refs, ot, mp.held);
    var i := 0;
    while i < |s|
      invariant 0 <= i <= |s| && forall k :: 0 <= k < i ==> Fills(f, s, k, ot, mp.held)
    {
      var ids := ReadListBounded(f, s[i].off, EndOf(s, i, ot), total);
      var want := mp.PostingsOf(s[i].l);
      if ids.None? || ids.value != want {
        if ids.Some? && Lists(ids.value, Expected(mp.held, s[i].l)) { ListsUnique(ids.value, want, Expected(mp.held, s[i].l)); }
        assert !Fills(f, s, i, ot, mp.held);
        return false;
      }
      i := i + 1;
    }
    ok := true;
  }

  // ---- the loader ----

  /** The open index: where each pair's list starts. */
  datatype Loaded = Loaded(offsets: Offsets, allRefs: int, ot: int)

  /** Whatever the bytes, an open index reads, for every pair some series carries and
      no other, exactly those series. */
  ghost predicate Faithful(f: seq<Byte>, x: Loaded, held: Forward) {
    && (forall l {:trigger Has(x.offsets, l)} :: Has(x.offsets, l) <==> Having(held, l) != {})
    && (forall l {:trigger Has(x.offsets, l)} :: Has(x.offsets, l) ==> Reads(f, OffOf(x.offsets, l), x.ot, Having(held, l)))
    && Reads(f, x.allRefs, x.ot, held.Keys)
  }

  ghost predicate Reads(f: seq<Byte>, off: int, ot: int, S: set<nat>) {
    ListAt(f, off, ot).Some? && Lists(ListAt(f, off, ot).value, S)
  }

  lemma AcceptedIsFaithful(f: seq<Byte>, refs: seq<Ref>, o: Offsets, allRefs: int, ot: int, held: Forward)
    requires OffsetsOf(o, Some(allRefs), refs) && KeysOk(refs, held) && ListsOk(f, refs, ot, held)
    ensures Faithful(f, Loaded(o, allRefs, ot), held)
  {
    forall i | 0 <= i < |refs| ensures Reads(f, refs[i].off, ot, Expected(held, refs[i].l)) {
      assert ListOk(f, refs[i], NextOff(refs, refs[i].off, ot), held);
      ValidatedIsRead(f, refs[i].off, NextOff(refs, refs[i].off, ot), |held|, ot);
    }
    forall l ensures Has(o, l) <==> Having(held, l) != {} {
      if l != ALL { assert HasRef(refs, l) <==> Having(held, l) != {}; }
    }
    forall l | Has(o, l) ensures Reads(f, OffOf(o, l), ot, Having(held, l)) {
      assert l != ALL && HasRef(refs, l);
      var i :| 0 <= i < |refs| && refs[i].l == l;
    }
    var i :| 0 <= i < |refs| && refs[i].l == ALL;
  }

  /** newFilePostings: accepts exactly the acceptable files, and what it accepts is
      faithful to the forward index. */
  method Load(f: seq<Byte>, mp: MemPostings) returns (r: Option<Loaded>)
    requires mp.Valid()
    ensures r.Some? <==> Acceptable(f, mp.held)
    ensures r.Some? ==> Faithful(f, r.value, mp.held)
  {
    if |f| < HEADER + FOOTER { return None; }
    if f[..4] != MAGIC { return None; }
    if f[4] != VERSION { return None; }
    var ot := Int64At(f[|f| - FOOTER..]);
    if ot < HEADER || ot > |f| - FOOTER { return None; }
    var t := f[ot..|f| - FOOTER];
    if |t| < 4 { return None; }
    var refs := ParseRefs(t, ot);
    if refs.None? { return None; }
    var ok, offsets, allRefs := BuildOffsets(refs.value);
    if !ok { return None; }
    KeySetsAgree(mp.m, mp.held, offsets, allRefs, refs.value);
    var keys := ValidatePairKeySet(mp.m, offsets);
    if !keys { return None; }
    var lists := ValidateLists(f, refs.value, ot, mp);
    if !lists { return None; }
    AcceptedIsFaithful(f, refs.value, offsets, allRefs, ot, mp.held);
    r := Some(Loaded(offsets, allRefs, ot));
  }

  /** filePostings.Select: on any accepted file, exactly the sorted ids whose labels
      contain every matcher. */
  method Select(f: seq<Byte>, x: Loaded, matchers: seq<Pair>, ghost held: Forward) returns (r: Option<seq<nat>>)
    requires Faithful(f, x, held)
    ensures r.Some? && Lists(r.value, Matching(held, matchers))
  {
    if |matchers| == 0 {
      assert Matching(held, matchers) == held.Keys;
      r := ReadList(f, x.allRefs, x.ot);
      return;
    }
    var lists: seq<seq<nat>> := [];
    ghost var sets: seq<set<nat>> := [];
    var i := 0;
    while i < |matchers|
      invariant 0 <= i <= |matchers| && |sets| == i && AllListed(lists, sets)
      invariant forall k :: 0 <= k < i ==> sets[k] == Having(held, matchers[k])
    {
      var l := matchers[i];
      assert Has(x.offsets, l) <==> Having(held, l) != {};
      if l.name !in x.offsets || l.value !in x.offsets[l.name] {
        NoMatch(held, matchers, i);
        return Some([]);
      }
      assert Reads(f, OffOf(x.offsets, l), x.ot, Having(held, l));
      var list := ReadList(f, x.offsets[l.name][l.value], x.ot);
      EmptyIff(list.value, Having(held, l));
      lists, sets := lists + [list.value], sets + [Having(held, l)];
      i := i + 1;
    }
    var out := IntersectAll(lists, sets);
    MatchingIsCommon(held, matchers, sets);
    r := Some(out);
  }

  // ---- the writer ----

  /** A pair and its list, in the order written. */
  datatype Entry = Entry(l: Pair, ids: seq<nat>)

  function IdsBytes(ids: seq<nat>): (s: seq<Byte>)
    ensures |s| == 8 * |ids|
  {
    if ids == [] then [] else BE(ids[0], 8) + IdsBytes(ids[1..])
  }

  function ListBytes(ids: seq<nat>): (s: seq<Byte>)
    ensures |s| == 4 + 8 * |ids|
  {
    BE(|ids|, 4) + IdsBytes(ids)
  }

  function BodyBytes(es: seq<Entry>): seq<Byte> {
    if es == [] then [] else ListBytes(es[0].ids) + BodyBytes(es[1..])
  }

  /** The offset of each entry's list, the first at off. */
  function RefsFrom(es: seq<Entry>, off: nat): (rs: seq<Ref>)
    ensures |rs| == |es|
  {
    if es == [] then [] else [Ref(es[0].l, off)] + RefsFrom(es[1..], off + |ListBytes(es[0].ids)|)
  }

  function TextBytes(t: Text): seq<Byte> { BE(|t|, 4) + t }

  function RefBytes(r: Ref): seq<Byte> {
    TextBytes(r.l.name) + TextBytes(r.l.value) + BE(r.off, 8)
  }

  function TableBytes(rs: seq<Ref>): seq<Byte> {
    if rs == [] then [] else RefBytes(rs[0]) + TableBytes(rs[1..])
  }

  function OffsetTable(es: seq<Entry>): seq<Byte> {
    BE(|es|, 4) + TableBytes(RefsFrom(es, HEADER))
  }

  function FileBytes(es: seq<Entry>): seq<Byte> {
    MAGIC + [VERSION] + BodyBytes(es) + OffsetTable(es) + BE(HEADER + |BodyBytes(es)|, 8)
  }

  /** Everything fits the field that holds it. */
  ghost predicate Fits(es: seq<Entry>) {
    && |es| < 0x1_0000_0000 && HEADER + |BodyBytes(es)| + 4 <= MAX_INT64
    && forall i :: 0 <= i < |es| ==> EntryFits(es[i])
  }

  predicate EntryFits(e: Entry) {
    && |e.l.name| < 0x1_0000_0000 && |e.l.value| < 0x1_0000_0000 && |e.ids| < 0x1_0000_0000
    && forall k :: 0 <= k < |e.ids| ==> U64(e.ids[k])
  }

  lemma {:induction false} RefsPlaces(es: seq<Entry>, off: nat)
    ensures forall i :: 0 <= i < |es| ==> RefsFrom(es, off)[i] == Ref(es[i].l, off + |BodyBytes(es[..i])|)
    ensures forall i :: 0 <= i < |es| ==> RefsFrom(es, off)[i].off >= off
  {
    if es != [] {
      var n := |ListBytes(es[0].ids)|;
      RefsPlaces(es[1..], off + n);
      forall i | 0 <= i < |es| ensures RefsFrom(es, off)[i] == Ref(es[i].l, off + |BodyBytes(es[..i])|) {
        if i > 0 {
          assert es[..i][1..] == es[1..][..i - 1];
          assert BodyBytes(es[..i]) == ListBytes(es[0].ids) + BodyBytes(es[1..][..i - 1]);
          assert RefsFrom(es, off)[i] == RefsFrom(es[1..], off + n)[i - 1];
        }
      }
    }
  }

  lemma BodySplit(es: seq<Entry>, i: nat)
    requires i < |es|
    ensures BodyBytes(es) == BodyBytes(es[..i]) + ListBytes(es[i].ids) + BodyBytes(es[i + 1..])
  {
    var p, q, r := es[..i], es[i..], es[i + 1..];
    SplitFirst(es, i);
    SplitAt(es, i);
    BodyConcat(p, q);
    BodyFirst(q, es[i], r);
    ConcatAssoc(BodyBytes(p), ListBytes(es[i].ids), BodyBytes(r));
  }

  lemma BodyFirst(q: seq<Entry>, e: Entry, r: seq<Entry>)
    requires q == [e] + r
    ensures BodyBytes(q) == ListBytes(e.ids) + BodyBytes(r)
  {
    assert q[1..] == r;
  }

  lemma {:induction false} BodyConcat(a: seq<Entry>, b: seq<Entry>)
    ensures BodyBytes(a + b) == BodyBytes(a) + BodyBytes(b)
  {
    if a == [] {
      assert a + b == b;
    } else {
      BodyConcat(a[1..], b);
      assert (a + b)[1..] == a[1..] + b;
      ConcatAssoc(ListBytes(a[0].ids), BodyBytes(a[1..]), BodyBytes(b));
    }
  }

  lemma {:induction false} IdsRoundTrip(ids: seq<nat>)
    requires forall k :: 0 <= k < |ids| ==> U64(ids[k])
    ensures DecodeIds(IdsBytes(ids)) == ids
  {
    if ids != [] {
      Pow256Values();
      BERoundTrip(ids[0], 8);
      IdsRoundTrip(ids[1..]);
      assert IdsBytes(ids)[..8] == BE(ids[0], 8) && IdsBytes(ids)[8..] == IdsBytes(ids[1..]);
      assert ids == [ids[0]] + ids[1..];
    }
  }

  /** A list in its place in the file is read back. */
  lemma ListRoundTrip(f: seq<Byte>, off: nat, ids: seq<nat>, max: nat)
    requires |ids| < 0x1_0000_0000 && |ids| <= max && forall k :: 0 <= k < |ids| ==> U64(ids[k])
    requires off + |ListBytes(ids)| <= |f| && f[off..off + |ListBytes(ids)|] == ListBytes(ids)
    ensures ListBounded(f, off, off + |ListBytes(ids)|, max) == Some(ids)
  {
    var end := off + |ListBytes(ids)|;
    Pow256Values();
    BERoundTrip(|ids|, 4);
    assert f[off..off + 4] == f[off..end][..4] == BE(|ids|, 4);
    assert f[off + 4..end] == f[off..end][4..] == IdsBytes(ids);
    IdsRoundTrip(ids);
  }

  lemma TextRoundTrip(t: Text, more: seq<Byte>)
    requires |t| < 0x1_0000_0000
    ensures ReadText(TextBytes(t) + more) == TextAt(t, more)
  {
    var s := TextBytes(t) + more;
    Pow256Values();
    BERoundTrip(|t|, 4);
    assert s[..4] == BE(|t|, 4) && s[4..4 + |t|] == t && s[4 + |t|..] == more;
  }

  lemma RefRoundTrip(r: Ref, ot: int, more: seq<Byte>)
    requires |r.l.name| < 0x1_0000_0000 && |r.l.value| < 0x1_0000_0000
    requires HEADER <= r.off && r.off + 4 <= ot <= MAX_INT64
    ensures ReadRef(RefBytes(r) + more, ot) == RefAt(r, more)
  {
    var a, b, c := TextBytes(r.l.name), TextBytes(r.l.value), BE(r.off, 8);
    var tail := c + more;
    var mid := b + tail;
    assert RefBytes(r) + more == a + mid by {
      ConcatAssoc(a, b, c);
      ConcatAssoc(a, b + c, more);
      ConcatAssoc(b, c, more);
    }
    TextRoundTrip(r.l.name, mid);
    TextRoundTrip(r.l.value, tail);
    assert tail[..8] == c && tail[8..] == more;
    OffRoundTrip(r.off);
    WrapCases(r.off + 4);
  }

  lemma OffRoundTrip(off: nat)
    requires off <= MAX_INT64
    ensures Int64At(BE(off, 8)) == off
  {
    Pow256Values();
    BERoundTrip(off, 8);
  }

  predicate RefFits(r: Ref, ot: int) {
    |r.l.name| < 0x1_0000_0000 && |r.l.value| < 0x1_0000_0000 && HEADER <= r.off && r.off + 4 <= ot
  }

  lemma {:induction false} TableRoundTrip(rs: seq<Ref>, ot: int)
    requires ot <= MAX_INT64 && forall i :: 0 <= i < |rs| ==> RefFits(rs[i], ot)
    ensures ReadRefs(TableBytes(rs), |rs|, ot) == Some(rs)
  {
    if rs != [] {
      var r, tail := rs[0], rs[1..];
      TableRoundTrip(tail, ot);
      assert RefFits(r, ot);
      RefRoundTrip(r, ot, TableBytes(tail));
      FirstRefRead(RefBytes(r) + TableBytes(tail), r, TableBytes(tail), tail, ot);
      assert rs == [r] + tail;
    }
  }

  lemma FirstRefRead(s: seq<Byte>, r: Ref, more: seq<Byte>, tail: seq<Ref>, ot: int)
    requires ReadRef(s, ot) == RefAt(r, more) && ReadRefs(more, |tail|, ot) == Some(tail)
    ensures ReadRefs(s, |tail| + 1, ot) == Some([r] + tail)
  {
  }

  /** What the writer writes for a forward index. */
  ghost predicate Describes(es: seq<Entry>, held: Forward) {
    && (forall i, j :: 0 <= i < j < |es| ==> es[i].l != es[j].l)
    && (forall i :: 0 <= i < |es| ==> Lists(es[i].ids, Expected(held, es[i].l)))
    && (exists i :: 0 <= i < |es| && es[i].l == ALL)
    && (forall l :: l != ALL ==> ((exists i :: 0 <= i < |es| && es[i].l == l) <==> Having(held, l) != {}))
  }

  lemma FileParts(es: seq<Entry>)
    ensures var f := FileBytes(es); var n := |BodyBytes(es)|; var t := OffsetTable(es);
      |f| == HEADER + n + |t| + FOOTER && f[..4] == MAGIC && f[4] == VERSION
      && f[HEADER..HEADER + n] == BodyBytes(es) && f[HEADER + n..|f| - FOOTER] == t && f[|f| - FOOTER..] == BE(HEADER + n, 8)
  {
  }

  lemma WrittenStart(es: seq<Entry>)
    requires Fits(es)
    ensures TableStart(FileBytes(es)) == Some(HEADER + |BodyBytes(es)|)
  {
    FileParts(es);
    Pow256Values();
    BERoundTrip(HEADER + |BodyBytes(es)|, 8);
  }

  lemma RefsFit(es: seq<Entry>)
    requires Fits(es)
    ensures forall i :: 0 <= i < |es| ==> RefFits(RefsFrom(es, HEADER)[i], HEADER + |BodyBytes(es)|)
  {
    RefsPlaces(es, HEADER);
    forall i | 0 <= i < |es| ensures RefFits(RefsFrom(es, HEADER)[i], HEADER + |BodyBytes(es)|) {
      assert EntryFits(es[i]);
      BodySplit(es, i);
    }
  }

  /** f is the written file, its lists at rs and its table at ot. */
  ghost predicate IsWritten(es: seq<Entry>, f: seq<Byte>, rs: seq<Ref>, ot: int) {
    f == FileBytes(es) && rs == RefsFrom(es, HEADER) && ot == HEADER + |BodyBytes(es)|
  }

  lemma WrittenTable(es: seq<Entry>, f: seq<Byte>, rs: seq<Ref>, ot: int)
    requires Fits(es) && IsWritten(es, f, rs, ot)
    ensures TableStart(f) == Some(ot) && TableOf(f, ot) == Some(rs)
  {
    WrittenStart(es);
    assert f[ot..|f| - FOOTER] == OffsetTable(es) by { FileParts(es); }
    assert ReadRefs(TableBytes(rs), |rs|, ot) == Some(rs) by {
      RefsFit(es);
      TableRoundTrip(rs, ot);
    }
    CountedTable(OffsetTable(es), rs, TableBytes(rs), ot);
  }

  /** A count, then that many entries. */
  lemma CountedTable(t: seq<Byte>, rs: seq<Ref>, entries: seq<Byte>, ot: int)
    requires |rs| < 0x1_0000_0000 && t == BE(|rs|, 4) + entries && ReadRefs(entries, |rs|, ot) == Some(rs)
    ensures |t| >= 4 && ReadRefs(t[4..], BEVal(t[..4]), ot) == Some(rs)
  {
    Pow256Values();
    BERoundTrip(|rs|, 4);
    assert t[..4] == BE(|rs|, 4) && t[4..] == entries;
  }

  lemma EndIsNext(es: seq<Entry>, i: nat)
    requires i < |es|
    ensures EndOf(RefsFrom(es, HEADER), i, HEADER + |BodyBytes(es)|) == HEADER + |BodyBytes(es[..i])| + |ListBytes(es[i].ids)|
  {
    RefsPlaces(es, HEADER);
    BodyNext(es, i);
    assert i + 1 == |es| ==> es[..i + 1] == es;
  }

  lemma BodyNext(es: seq<Entry>, i: nat)
    requires i < |es|
    ensures |BodyBytes(es[..i + 1])| == |BodyBytes(es[..i])| + |ListBytes(es[i].ids)|
  {
    var p := es[..i + 1];
    assert p[..i] == es[..i] && p[i] == es[i] && p[i + 1..] == [];
    BodySplit(p, i);
  }

  lemma ListPlace(es: seq<Entry>, i: nat)
    requires i < |es|
    ensures var off := HEADER + |BodyBytes(es[..i])|; var n := |ListBytes(es[i].ids)|;
      off + n <= |FileBytes(es)| && FileBytes(es)[off..off + n] == ListBytes(es[i].ids)
  {
    var body, a, x, b := BodyBytes(es), BodyBytes(es[..i]), ListBytes(es[i].ids), BodyBytes(es[i + 1..]);
    BodySplit(es, i);
    FileParts(es);
    SliceWithin(FileBytes(es), HEADER, body, a, x, b);
  }

  lemma SliceWithin(f: seq<Byte>, h: nat, body: seq<Byte>, a: seq<Byte>, x: seq<Byte>, b: seq<Byte>)
    requires body == a + x + b && h + |body| <= |f| && f[h..h + |body|] == body
    ensures f[h + |a|..h + |a| + |x|] == x
  {
    var g := f[h..h + |body|];
    var i, j := |a|, |a| + |x|;
    assert g[i..j] == x;
    var s := f[h + i..h + j];
    forall k | 0 <= k < |x| ensures s[k] == x[k] {
      assert s[k] == g[i + k] == g[i..j][k];
    }
  }

  lemma {:induction false} WrittenList(es: seq<Entry>, held: Forward, f: seq<Byte>, rs: seq<Ref>, ot: int, i: nat)
    requires IsWritten(es, f, rs, ot) && i < |es|
    requires EntryFits(es[i]) && Lists(es[i].ids, Expected(held, es[i].l))
    ensures Fills(f, rs, i, ot, held)
  {
    var off := HEADER + |BodyBytes(es[..i])|;
    assert rs[i] == Ref(es[i].l, off) by { RefsPlaces(es, HEADER); }
    EndIsNext(es, i);
    ListPlace(es, i);
    PlacedFills(f, rs, i, ot, held, es[i], off);
  }

  lemma PlacedFills(f: seq<Byte>, rs: seq<Ref>, i: nat, ot: int, held: Forward, e: Entry, off: nat)
    requires EntryFits(e) && Lists(e.ids, Expected(held, e.l)) && i < |rs| && rs[i] == Ref(e.l, off)
    requires EndOf(rs, i, ot) == off + |ListBytes(e.ids)| <= |f| && f[off..off + |ListBytes(e.ids)|] == ListBytes(e.ids)
    ensures Fills(f, rs, i, ot, held)
  {
    ListSize(e.ids, Expected(held, e.l));
    ExpectedSize(held, e.l);
    ListRoundTrip(f, off, e.ids, |held|);
  }

  lemma ExpectedSize(held: Forward, l: Pair)
    ensures |Expected(held, l)| <= |held|
  {
    assert Expected(held, l) <= held.Keys;
    SubsetSize(Expected(held, l), held.Keys);
    assert |held| == |held.Keys|;
  }

  lemma WrittenKeys(es: seq<Entry>, held: Forward, rs: seq<Ref>)
    requires Describes(es, held) && Having(held, ALL) == {} && rs == RefsFrom(es, HEADER)
    ensures DistinctPairs(rs) && KeysOk(rs, held)
  {
    RefsPlaces(es, HEADER);
    forall l ensures HasRef(rs, l) <==> exists i :: 0 <= i < |es| && es[i].l == l {
      if i :| 0 <= i < |es| && es[i].l == l { assert rs[i].l == l; }
      if HasRef(rs, l) {
        var i :| 0 <= i < |rs| && rs[i].l == l;
        assert es[i].l == l;
      }
    }
  }

  lemma WrittenLists(es: seq<Entry>, held: Forward, f: seq<Byte>, rs: seq<Ref>, ot: int)
    requires Fits(es) && Describes(es, held) && IsWritten(es, f, rs, ot)
    ensures ListsOk(f, rs, ot, held)
  {
    WrittenFiles(es, held, f, rs, ot);
    FilesThenLists(f, rs, rs, ot, held);
  }

  lemma WrittenFiles(es: seq<Entry>, held: Forward, f: seq<Byte>, rs: seq<Ref>, ot: int)
    requires forall i :: 0 <= i < |es| ==> EntryFits(es[i]) && Lists(es[i].ids, Expected(held, es[i].l))
    requires IsWritten(es, f, rs, ot)
    ensures FilesOk(f, rs, ot, held)
  {
    forall i: nat | i < |rs| ensures Fills(f, rs, i, ot, held) { WrittenList(es, held, f, rs, ot, i); }
  }

  lemma AcceptableParts(f: seq<Byte>, ot: int, refs: seq<Ref>, held: Forward)
    requires TableStart(f) == Some(ot) && TableOf(f, ot) == Some(refs)
    requires DistinctPairs(refs) && KeysOk(refs, held) && ListsOk(f, refs, ot, held)
    ensures Acceptable(f, held)
  {
  }

  /** Every file the writer produces is accepted, for any series with distinct ids and
      non-empty label names, whatever order the pairs are written in. */
  lemma WrittenIsAccepted(es: seq<Entry>, held: Forward)
    requires Fits(es) && Describes(es, held) && Having(held, ALL) == {}
    ensures Acceptable(FileBytes(es), held)
  {
    var f, rs, ot := FileBytes(es), RefsFrom(es, HEADER), HEADER + |BodyBytes(es)|;
    WrittenTable(es, f, rs, ot);
    WrittenKeys(es, held, rs);
    WrittenLists(es, held, f, rs, ot);
    AcceptableParts(f, ot, rs, held);
  }

  /** Why the writer must refuse empty label names: a pair with an empty name and an
      empty value cannot be told from the sentinel, and no file for it is accepted. */
  lemma EmptyPairIsRefused(f: seq<Byte>, held: Forward)
    requires Having(held, ALL) != {}
    ensures !Acceptable(f, held)
  {
  }

  // ---- the order of the lists ----

  /** Every list but the first after the one before it. */
  ghost predicate Rising(es: seq<Entry>) {
    forall i, j :: 0 < i < j < |es| ==> PairLess(es[i].l, es[j].l)
  }

  /** The sentinel, then the pairs by name and value. */
  ghost predicate InOrder(es: seq<Entry>) {
    forall i, j :: 0 <= i < j < |es| ==> PairLess(es[i].l, es[j].l)
  }

  /** Every pair so far has a smaller name. */
  ghost predicate NamesBelow(es: seq<Entry>, name: Text) {
    forall i :: 0 < i < |es| ==> TextLess(es[i].l.name, name)
  }

  /** Every pair so far has a smaller name, or this one and a smaller value. */
  ghost predicate PairsBelow(es: seq<Entry>, l: Pair) {
    forall i :: 0 < i < |es| ==> PairLess(es[i].l, l)
  }

  lemma RisingNext(es: seq<Entry>, e: Entry)
    requires Rising(es) && PairsBelow(es, e.l)
    ensures Rising(es + [e])
  {
  }

  lemma PairsBelowNext(es: seq<Entry>, e: Entry, l: Pair)
    requires PairsBelow(es, e.l) && PairLess(e.l, l)
    ensures PairsBelow(es + [e], l)
  {
    forall i | 0 < i < |es| ensures PairLess(es[i].l, l) { PairTrans(es[i].l, e.l, l); }
  }

  /** The pairs of a name with the first n values. */
  function FirstPairs(name: Text, values: seq<Text>, n: nat): set<Pair>
    requires n <= |values|
  {
    set i | 0 <= i < n :: Pair(name, values[i])
  }

  lemma FirstPairsAll(name: Text, values: seq<Text>, vals: set<Text>)
    requires Sorts(values, vals)
    ensures FirstPairs(name, values, |values|) == Paired(name, vals)
  {
    forall l | l in Paired(name, vals) ensures l in FirstPairs(name, values, |values|) {
      assert l.value in values;
    }
  }

  /** The writer's entries: the sentinel, then every listed pair in order. */
  method CollectEntries(mp: MemPostings) returns (es: seq<Entry>)
    requires mp.Valid()
    ensures Having(mp.held, ALL) == {} ==> Describes(es, mp.held) && InOrder(es)
  {
    var all := mp.PostingsOf(ALL);
    es := [Entry(ALL, all)];
    var names := SortedKeys(mp.m);
    assert Under(mp.m, {}) == {};
    ghost var done: set<Text> := {};
    var k := 0;
    while k < |names|
      invariant 0 <= k <= |names| && Collected(es, mp.m, mp.held, Under(mp.m, done)) && Rising(es)
      invariant forall t :: t in done <==> t in names[..k]
      invariant k < |names| ==> NamesBelow(es, names[k])
    {
      var name := names[k];
      assert name in mp.m.Keys && name !in done by { NotYet(names, k); }
      UnderMore(mp.m, done, name);
      es := CollectName(mp, es, name, Under(mp.m, done));
      assert names[..k + 1] == names[..k] + [name];
      done := done + {name};
      k := k + 1;
      if k < |names| { NextName(es, name, names[k]); }
    }
    assert done == mp.m.Keys by { SliceAll(names); }
    assert Under(mp.m, mp.m.Keys) == PairsOf(mp.m);
    CollectedAll(es, mp.m, mp.held);
    if Having(mp.held, ALL) == {} { RisingIsInOrder(es); }
  }

  lemma NotYet(names: seq<Text>, k: nat)
    requires AscendingTexts(names) && k < |names|
    ensures names[k] in names && names[k] !in names[..k]
  {
    TextOrder(names[k], names[k]);
  }

  lemma NextName(es: seq<Entry>, name: Text, next: Text)
    requires (forall i :: 0 < i < |es| ==> es[i].l.name == name || TextLess(es[i].l.name, name)) && TextLess(name, next)
    ensures NamesBelow(es, next)
  {
    forall i | 0 < i < |es| ensures TextLess(es[i].l.name, next) {
      if es[i].l.name != name { TextTrans(es[i].l.name, name, next); }
    }
  }

  lemma RisingIsInOrder(es: seq<Entry>)
    requires Rising(es) && |es| > 0 && es[0].l == ALL && forall i, j :: 0 <= i < j < |es| ==> es[i].l != es[j].l
    ensures InOrder(es)
  {
    forall j | 0 < j < |es| ensures PairLess(ALL, es[j].l) {
      assert es[j].l != ALL;
      assert es[j].l == Pair(es[j].l.name, es[j].l.value);
    }
  }

  /** The listed pairs of some names. */
  function Under(m: Index, names: set<Text>): set<Pair> {
    set l | l in PairsOf(m) && l.name in names
  }

  lemma UnderMore(m: Index, names: set<Text>, name: Text)
    requires name in m && name !in names
    ensures Under(m, names + {name}) == Under(m, names) + Paired(name, m[name].Keys)
    ensures Under(m, names) !! Paired(name, m[name].Keys)
  {
    forall l ensures l in Under(m, names + {name}) <==> l in Under(m, names) + Paired(name, m[name].Keys) {
      assert l == Pair(l.name, l.value);
    }
  }

  method CollectName(mp: MemPostings, es0: seq<Entry>, name: Text, ghost D: set<Pair>) returns (es: seq<Entry>)
    requires mp.Valid() && name in mp.m && Collected(es0, mp.m, mp.held, D) && D !! Paired(name, mp.m[name].Keys)
    requires Rising(es0) && NamesBelow(es0, name)
    ensures Collected(es, mp.m, mp.held, D + Paired(name, mp.m[name].Keys))
    ensures Rising(es) && forall i :: 0 < i < |es| ==> es[i].l.name == name || TextLess(es[i].l.name, name)
  {
    es := es0;
    var values := SortedKeys(mp.m[name]);
    FirstPairsAll(name, values, mp.m[name].Keys);
    ghost var done := D;
    var k := 0;
    while k < |values|
      invariant 0 <= k <= |values| && done == D + FirstPairs(name, values, k)
      invariant Collected(es, mp.m, mp.held, done) && Rising(es)
      invariant k < |values| ==> PairsBelow(es, Pair(name, values[k]))
      invariant forall i :: 0 < i < |es| ==> es[i].l.name == name || TextLess(es[i].l.name, name)
    {
      var l := Pair(name, values[k]);
      assert values[k] in mp.m[name].Keys by { NotYet(values, k); }
      NewFirstPair(mp.m, name, values, k, D);
      es := CollectPair(mp, es, l, done);
      done := done + {l};
      k := k + 1;
      if k < |values| { PairsBelowNext(es[..|es| - 1], es[|es| - 1], Pair(name, values[k])); }
    }
  }

  lemma NewFirstPair(m: Index, name: Text, values: seq<Text>, k: nat, D: set<Pair>)
    requires name in m && Sorts(values, m[name].Keys) && k < |values| && D !! Paired(name, m[name].Keys)
    ensures var l := Pair(name, values[k]);
      l in PairsOf(m) && l !in D + FirstPairs(name, values, k) && FirstPairs(name, values, k + 1) == FirstPairs(name, values, k) + {l}
  {
    assert values[k] in values;
    assert Pair(name, values[k]) in Paired(name, m[name].Keys);
    forall i | 0 <= i < k ensures values[i] != values[k] { TextOrder(values[i], values[k]); }
  }

  method CollectPair(mp: MemPostings, es0: seq<Entry>, l: Pair, ghost done: set<Pair>) returns (es: seq<Entry>)
    requires mp.Valid() && Collected(es0, mp.m, mp.held, done) && Rising(es0) && PairsBelow(es0, l)
    requires l in PairsOf(mp.m) && l !in done
    ensures |es| == |es0| + 1 && es[|es0|].l == l && es == es0 + [es[|es0|]]
    ensures Collected(es, mp.m, mp.held, done + {l}) && Rising(es)
  {
    var ids := mp.PostingsOf(l);
    NotSentinel(mp, l, ids);
    CollectedNext(es0, mp.m, mp.held, done, l, ids);
    RisingNext(es0, Entry(l, ids));
    es := es0 + [Entry(l, ids)];
  }

  lemma NotSentinel(mp: MemPostings, l: Pair, ids: seq<nat>)
    requires Lists(ids, if l == Pair([], []) then mp.held.Keys else Having(mp.held, l))
    ensures Lists(ids, Expected(mp.held, l))
  {
  }

  /** The sentinel and the pairs of D have been collected. */
  ghost predicate Collected(es: seq<Entry>, m: Index, held: Forward, D: set<Pair>) {
    && D <= PairsOf(m)
    && (forall i :: 0 <= i < |es| ==> Lists(es[i].ids, Expected(held, es[i].l)))
    && |es| > 0 && es[0].l == ALL
    && (forall i :: 0 < i < |es| ==> es[i].l in D)
    && (forall l :: l in D ==> exists i :: 0 < i < |es| && es[i].l == l)
    && (forall i, j :: 0 < i < j < |es| ==> es[i].l != es[j].l)
  }

  lemma CollectedNext(es: seq<Entry>, m: Index, held: Forward, D: set<Pair>, l: Pair, ids: seq<nat>)
    requires Collected(es, m, held, D) && l in PairsOf(m) && l !in D && Lists(ids, Expected(held, l))
    ensures Collected(es + [Entry(l, ids)], m, held, D + {l})
  {
    var after := es + [Entry(l, ids)];
    assert after[|es|].l == l;
    forall k | k in D + {l} ensures exists i :: 0 < i < |after| && after[i].l == k {
      if k in D {
        var i :| 0 < i < |es| && es[i].l == k;
        assert after[i].l == k;
      }
    }
  }

  lemma CollectedAll(es: seq<Entry>, m: Index, held: Forward)
    requires Indexes(m, held) && Collected(es, m, held, PairsOf(m))
    ensures Having(held, ALL) == {} ==> Describes(es, held) && es[0].l == ALL
  {
    forall l ensures l in PairsOf(m) <==> Having(held, l) != {} {
      ListedIff(m, held, l);
      assert l == Pair(l.name, l.value);
    }
    if Having(held, ALL) == {} {
      forall i, j | 0 <= i < j < |es| ensures es[i].l != es[j].l {
        assert es[j].l in PairsOf(m);
      }
      forall l | l != ALL ensures (exists i :: 0 <= i < |es| && es[i].l == l) <==> Having(held, l) != {} {
        if i :| 0 <= i < |es| && es[i].l == l { assert i > 0 && es[i].l in PairsOf(m); }
      }
    }
  }

  // ---- what fits ----

  function AllPairs(held: Forward): set<Pair> {
    set id, l | id in held && l in held[id] :: l
  }

  /** Bounds on the series alone under which the file's fields hold everything. */
  ghost predicate HeldFits(held: Forward) {
    && |held| < 0x1_0000_0000 && |AllPairs(held)| + 1 < 0x1_0000_0000
    && HEADER + (|AllPairs(held)| + 1) * (4 + 8 * |held|) + 4 <= MAX_INT64
    && (forall id :: id in held ==> U64(id))
    && forall l :: l in AllPairs(held) ==> |l.name| < 0x1_0000_0000 && |l.value| < 0x1_0000_0000
  }

  function LabelSet(es: seq<Entry>): set<Pair> {
    set i | 0 <= i < |es| :: es[i].l
  }

  lemma {:induction false} LabelCount(es: seq<Entry>)
    requires forall i, j :: 0 <= i < j < |es| ==> es[i].l != es[j].l
    ensures |LabelSet(es)| == |es|
  {
    if es != [] {
      var p, last := es[..|es| - 1], es[|es| - 1];
      LabelCount(p);
      assert LabelSet(es) == LabelSet(p) + {last.l} by {
        assert forall i :: 0 <= i < |p| ==> p[i] == es[i];
      }
    }
  }

  lemma DescribedCount(es: seq<Entry>, held: Forward)
    requires Describes(es, held)
    ensures |es| <= |AllPairs(held)| + 1
    ensures forall i :: 0 <= i < |es| ==> es[i].l == ALL || es[i].l in AllPairs(held)
  {
    forall i | 0 <= i < |es| ensures es[i].l == ALL || es[i].l in AllPairs(held) {
      if es[i].l != ALL {
        var id :| id in Having(held, es[i].l);
        assert id in held && es[i].l in held[id];
      }
    }
    LabelCount(es);
    SubsetSize(LabelSet(es), AllPairs(held) + {ALL});
  }

  lemma {:induction false} BodyBound(es: seq<Entry>, n: nat)
    requires forall i :: 0 <= i < |es| ==> |es[i].ids| <= n
    ensures |BodyBytes(es)| <= |es| * (4 + 8 * n)
  {
    if es != [] {
      var tail := es[1..];
      BodyBound(tail, n);
      OneMoreTime(|tail|, 4 + 8 * n);
      assert |BodyBytes(es)| == |ListBytes(es[0].ids)| + |BodyBytes(tail)|;
    }
  }

  lemma OneMoreTime(k: nat, c: nat)
    ensures (k + 1) * c == k * c + c
  {
  }

  lemma DescribedFits(es: seq<Entry>, held: Forward)
    requires Describes(es, held) && HeldFits(held)
    ensures Fits(es)
  {
    DescribedCount(es, held);
    forall i | 0 <= i < |es| ensures |es[i].ids| <= |held| && EntryFits(es[i]) {
      var ids := es[i].ids;
      ListSize(ids, Expected(held, es[i].l));
      ExpectedSize(held, es[i].l);
      forall k | 0 <= k < |ids| ensures U64(ids[k]) { assert ids[k] in ids; }
    }
    BodyBound(es, |held|);
    TimesGrows(|es|, |AllPairs(held)| + 1, 4 + 8 * |held|);
  }

  lemma TimesGrows(a: nat, b: nat, n: nat)
    requires a <= b
    ensures a * n <= b * n
  {
  }

  // ---- one file per set of series ----

  predicate HasEntry(es: seq<Entry>, l: Pair) {
    exists i :: 0 <= i < |es| && es[i].l == l
  }

  lemma LastEntry(es: seq<Entry>, l: Pair)
    requires es != [] && InOrder(es)
    ensures HasEntry(es[..|es| - 1], l) <==> HasEntry(es, l) && l != es[|es| - 1].l
    ensures HasEntry(es, l) ==> l == es[|es| - 1].l || PairLess(l, es[|es| - 1].l)
  {
    var p, last := es[..|es| - 1], es[|es| - 1];
    if i :| 0 <= i < |p| && p[i].l == l {
      assert es[i].l == l && PairLess(l, last.l);
      PairOrder(l, last.l);
    }
    if i :| 0 <= i < |es| && es[i].l == l { assert i < |p| ==> p[i].l == l && PairLess(l, last.l); }
  }

  ghost predicate ListsExpected(es: seq<Entry>, held: Forward) {
    forall i :: 0 <= i < |es| ==> Lists(es[i].ids, Expected(held, es[i].l))
  }

  lemma {:induction false} SameEntries(a: seq<Entry>, b: seq<Entry>, held: Forward)
    requires InOrder(a) && InOrder(b) && ListsExpected(a, held) && ListsExpected(b, held)
    requires forall l :: HasEntry(a, l) <==> HasEntry(b, l)
    ensures a == b
  {
    if a == [] {
      if b != [] { assert HasEntry(b, b[0].l); }
    } else {
      var m, n := |a| - 1, |b| - 1;
      assert HasEntry(a, a[m].l) && HasEntry(b, a[m].l);
      assert HasEntry(b, b[n].l) && HasEntry(a, b[n].l);
      LastEntry(a, b[n].l);
      LastEntry(b, a[m].l);
      PairOrder(a[m].l, b[n].l);
      ListsUnique(a[m].ids, b[n].ids, Expected(held, a[m].l));
      forall l ensures HasEntry(a[..m], l) <==> HasEntry(b[..n], l) {
        LastEntry(a, l);
        LastEntry(b, l);
      }
      SameEntries(a[..m], b[..n], held);
      SplitLast(a);
      SplitLast(b);
    }
  }

  /** The file is a function of the series, whatever order they were added in and
      whatever order the maps yield their keys. */
  lemma OneFile(a: seq<Entry>, b: seq<Entry>, held: Forward)
    requires Describes(a, held) && InOrder(a) && Describes(b, held) && InOrder(b)
    ensures FileBytes(a) == FileBytes(b)
  {
    forall l ensures HasEntry(a, l) <==> HasEntry(b, l) {
      if l != ALL { assert HasEntry(a, l) <==> Having(held, l) != {}; }
    }
    SameEntries(a, b, held);
  }

  /** writePostings, buffer by buffer: the lists of the series, the sentinel first and
      the pairs in order. What it writes, when it fits, is accepted exactly when no
      series carries the empty pair, which Writer.AddSeries refuses. */
  method WritePostings(mp: MemPostings) returns (buf: seq<Byte>, ghost es: seq<Entry>)
    requires mp.Valid()
    ensures buf == FileBytes(es)
    ensures Having(mp.held, ALL) == {} ==> Describes(es, mp.held) && InOrder(es)
    ensures Fits(es) || HeldFits(mp.held) ==> (Acceptable(buf, mp.held) <==> Having(mp.held, ALL) == {})
  {
    var entries := CollectEntries(mp);
    es := entries;
    var refs;
    buf, refs := WriteLists(entries);
    buf := WriteTable(buf, refs);
    WrittenWhole(es, buf);
    if Having(mp.held, ALL) == {} && HeldFits(mp.held) { DescribedFits(es, mp.held); }
    if Fits(es) { WrittenAcceptedIff(es, mp.held); }
    if Having(mp.held, ALL) != {} { EmptyPairIsRefused(buf, mp.held); }
  }

  lemma WrittenWhole(es: seq<Entry>, buf: seq<Byte>)
    requires var head := MAGIC + [VERSION] + BodyBytes(es);
      buf == head + (BE(|es|, 4) + TableBytes(RefsFrom(es, HEADER))) + BE(|head|, 8)
    ensures buf == FileBytes(es)
  {
  }

  /** What the writer wrote is accepted exactly when no series carries the empty pair. */
  lemma WrittenAcceptedIff(es: seq<Entry>, held: Forward)
    requires Fits(es) && (Having(held, ALL) == {} ==> Describes(es, held))
    ensures Acceptable(FileBytes(es), held) <==> Having(held, ALL) == {}
  {
    if Having(held, ALL) == {} { WrittenIsAccepted(es, held); } else { EmptyPairIsRefused(FileBytes(es), held); }
  }

  /** Header and lists, remembering where each list starts. */
  method WriteLists(es: seq<Entry>) returns (buf: seq<Byte>, refs: seq<Ref>)
    ensures buf == MAGIC + [VERSION] + BodyBytes(es) && refs == RefsFrom(es, HEADER)
  {
    buf, refs := MAGIC + [VERSION], [];
    var i := 0;
    while i < |es|
      invariant 0 <= i <= |es| && refs == RefsFrom(es[..i], HEADER)
      invariant buf == MAGIC + [VERSION] + BodyBytes(es[..i])
    {
      BodyAppend(es[..i], es[i], HEADER);
      assert es[..i + 1] == es[..i] + [es[i]];
      refs := refs + [Ref(es[i].l, |buf|)];
      buf := buf + ListBytes(es[i].ids);
      i := i + 1;
    }
    assert es[..i] == es;
  }

  /** The offset table and the footer that says where it starts. */
  method WriteTable(head: seq<Byte>, refs: seq<Ref>) returns (buf: seq<Byte>)
    ensures buf == head + (BE(|refs|, 4) + TableBytes(refs)) + BE(|head|, 8)
  {
    var count := BE(|refs|, 4);
    buf := head + count;
    var i := 0;
    while i < |refs|
      invariant 0 <= i <= |refs| && buf == head + (count + TableBytes(refs[..i]))
    {
      var entry := RefBytes(refs[i]);
      ghost var before := TableBytes(refs[..i]);
      TableNext(refs, i, before, entry);
      ConcatAssoc(count, before, entry);
      ConcatAssoc(head, count + before, entry);
      buf := buf + entry;
      i := i + 1;
    }
    assert refs[..i] == refs;
    buf := buf + BE(|head|, 8);
  }

  lemma TableNext(rs: seq<Ref>, i: nat, before: seq<Byte>, entry: seq<Byte>)
    requires i < |rs| && before == TableBytes(rs[..i]) && entry == RefBytes(rs[i])
    ensures TableBytes(rs[..i + 1]) == before + entry
  {
    TableAppend(rs[..i], rs[i]);
    assert rs[..i + 1] == rs[..i] + [rs[i]];
  }

  lemma BodyAppend(es: seq<Entry>, e: Entry, off: nat)
    ensures BodyBytes(es + [e]) == BodyBytes(es) + ListBytes(e.ids)
    ensures RefsFrom(es + [e], off) == RefsFrom(es, off) + [Ref(e.l, off + |BodyBytes(es)|)]
  {
    BodyConcat(es, [e]);
    assert [e][1..] == [] && ListBytes(e.ids) + [] == ListBytes(e.ids);
    RefsAppend(es, e, off);
  }

  lemma {:induction false} RefsAppend(es: seq<Entry>, e: Entry, off: nat)
    ensures RefsFrom(es + [e], off) == RefsFrom(es, off) + [Ref(e.l, off + |BodyBytes(es)|)]
  {
    if es == [] {
      assert es + [e] == [e] && [e][1..] == [];
    } else {
      var n, tail := |ListBytes(es[0].ids)|, es[1..];
      RefsAppend(tail, e, off + n);
      assert (es + [e])[1..] == tail + [e];
      assert |BodyBytes(es)| == n + |BodyBytes(tail)|;
      ConcatAssoc([Ref(es[0].l, off)], RefsFrom(tail, off + n), [Ref(e.l, off + |BodyBytes(es)|)]);
    }
  }

  lemma {:induction false} TableAppend(rs: seq<Ref>, r: Ref)
    ensures TableBytes(rs + [r]) == TableBytes(rs) + RefBytes(r)
  {
    if rs == [] {
      assert rs + [r] == [r] && [r][1..] == [];
      assert TableBytes([r]) == RefBytes(r) + TableBytes([]);
    } else {
      var first, tail := rs[0], rs[1..];
      TableAppend(tail, r);
      assert rs + [r] == [first] + (tail + [r]);
      assert (rs + [r])[1..] == tail + [r];
      ConcatAssoc(RefBytes(first), TableBytes(tail), RefBytes(r));
    }
  }
}
