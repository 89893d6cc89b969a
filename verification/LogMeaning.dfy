/** What the log query's limited merge comes to, entry by entry: which entries it may
    return, in what order, and that it holds the first ones of all. */
module LogMeaning {
  import opened Sets
  import opened LogLimit

  type Item = (nat, Entry)

  /** Every entry of every stream that passes the filters and does not sit on an excluded
      end, with its stream. */
  function Candidates(streams: seq<Stream>, q: Query): seq<Item> {
    if streams == [] then []
    else Candidates(streams[..|streams| - 1], q) + CandidatesOf(streams[|streams| - 1].id, streams[|streams| - 1].entries, q)
  }

  function CandidatesOf(id: nat, es: seq<Entry>, q: Query): seq<Item> {
    if es == [] then []
    else
      var e := es[|es| - 1];
      CandidatesOf(id, es[..|es| - 1], q) + (if e.passes && !(e.ts == q.endNs && !q.endInclusive) then [(id, e)] else [])
  }

  function ItemsOf(s: seq<Tagged>): (r: seq<Item>)
    ensures |r| == |s| && forall i :: 0 <= i < |s| ==> r[i] == (s[i].id, s[i].entry)
  {
    if s == [] then [] else ItemsOf(s[..|s| - 1]) + [(s[|s| - 1].id, s[|s| - 1].entry)]
  }

  function WithId(id: nat, es: seq<Entry>): (r: seq<Item>)
    ensures |r| == |es| && forall i :: 0 <= i < |es| ==> r[i] == (id, es[i])
  {
    if es == [] then [] else WithId(id, es[..|es| - 1]) + [(id, es[|es| - 1])]
  }

  lemma ItemsAppend(s: seq<Tagged>, x: Tagged, r: seq<Tagged>)
    requires r == s + [x]
    ensures ItemsOf(r) == ItemsOf(s) + [(x.id, x.entry)]
  {
    assert r[..|r| - 1] == s;
  }

  lemma {:induction false} InsertItems(s: seq<Tagged>, x: Tagged, dir: Direction, r: seq<Tagged>)
    requires r == Insert(s, x, dir)
    ensures multiset(ItemsOf(r)) == multiset(ItemsOf(s)) + multiset{(x.id, x.entry)}
  {
    if s == [] || !Before(x, s[|s| - 1], dir) {
      ItemsAppend(s, x, r);
    } else {
      var p, last := s[..|s| - 1], s[|s| - 1];
      var q := Insert(p, x, dir);
      InsertItems(p, x, dir, q);
      SplitLast(s);
      ItemsAppend(p, last, s);
      ItemsAppend(q, last, r);
      AddBeforeLast(multiset(ItemsOf(p)), multiset(ItemsOf(q)), multiset(ItemsOf(s)), multiset(ItemsOf(r)), (x.id, x.entry), (last.id, last.entry));
    }
  }

  lemma {:induction false} SortItems(s: seq<Tagged>, dir: Direction, r: seq<Tagged>)
    requires r == Sort(s, dir)
    ensures multiset(ItemsOf(r)) == multiset(ItemsOf(s))
  {
    if s != [] {
      var p, last := s[..|s| - 1], s[|s| - 1];
      SortItems(p, dir, Sort(p, dir));
      InsertItems(Sort(p, dir), last, dir, r);
      SplitLast(s);
      ItemsAppend(p, last, s);
    }
  }

  lemma WithIdAppend(id: nat, es: seq<Entry>, e: Entry, r: seq<Entry>)
    requires r == es + [e]
    ensures WithId(id, r) == WithId(id, es) + [(id, e)]
  {
    assert r[..|r| - 1] == es;
  }

  lemma {:induction false} InsertEntryItems(id: nat, s: seq<Entry>, e: Entry, dir: Direction, r: seq<Entry>)
    requires r == InsertEntry(s, e, dir)
    ensures multiset(WithId(id, r)) == multiset(WithId(id, s)) + multiset{(id, e)}
  {
    if s == [] || !TsBefore(e.ts, s[|s| - 1].ts, dir) {
      WithIdAppend(id, s, e, r);
    } else {
      var p, last := s[..|s| - 1], s[|s| - 1];
      var q := InsertEntry(p, e, dir);
      InsertEntryItems(id, p, e, dir, q);
      SplitLast(s);
      WithIdAppend(id, p, last, s);
      WithIdAppend(id, q, last, r);
      AddBeforeLast(multiset(WithId(id, p)), multiset(WithId(id, q)), multiset(WithId(id, s)), multiset(WithId(id, r)), (id, e), (id, last));
    }
  }

  lemma {:induction false} SortEntriesItems(id: nat, s: seq<Entry>, dir: Direction, r: seq<Entry>)
    requires r == SortEntries(s, dir)
    ensures multiset(WithId(id, r)) == multiset(WithId(id, s))
  {
    if s != [] {
      var p, last := s[..|s| - 1], s[|s| - 1];
      SortEntriesItems(id, p, dir, SortEntries(p, dir));
      InsertEntryItems(id, SortEntries(p, dir), last, dir, r);
      SplitLast(s);
      WithIdAppend(id, p, last, s);
    }
  }

  lemma {:induction false} KeptItems(id: nat, es: seq<Entry>, q: Query)
    ensures WithId(id, Kept(es, q.endNs, q.endInclusive)) == CandidatesOf(id, es, q)
  {
    if es != [] {
      var p, e := es[..|es| - 1], es[|es| - 1];
      var k := Kept(p, q.endNs, q.endInclusive);
      KeptItems(id, p, q);
      WithIdAppend(id, k, e, k + [e]);
      assert k + [] == k;
    }
  }

  lemma StreamItems(st: Stream, q: Query, base: nat, tags: seq<Tagged>)
    requires tags == TagStream(st.id, Cut(Ordered(st, q), 0), base)
    ensures multiset(ItemsOf(tags)) == multiset(CandidatesOf(st.id, st.entries, q))
  {
    var es := Ordered(st, q);
    assert ItemsOf(tags) == WithId(st.id, es);
    SortEntriesItems(st.id, Kept(st.entries, q.endNs, q.endInclusive), q.dir, es);
    KeptItems(st.id, st.entries, q);
  }

  lemma ItemsConcat(a: seq<Tagged>, b: seq<Tagged>, r: seq<Tagged>)
    requires r == a + b
    ensures ItemsOf(r) == ItemsOf(a) + ItemsOf(b)
  {
  }

  lemma {:induction false} AllItems(streams: seq<Stream>, q: Query, all: seq<Tagged>)
    requires all == TagAll(streams, q, 0)
    ensures multiset(ItemsOf(all)) == multiset(Candidates(streams, q))
  {
    if streams != [] {
      var p, st := streams[..|streams| - 1], streams[|streams| - 1];
      var before := TagAll(p, q, 0);
      var tags := TagStream(st.id, Cut(Ordered(st, q), 0), |before|);
      AllItems(p, q, before);
      StreamItems(st, q, |before|, tags);
      ItemsConcat(before, tags, all);
    }
  }

  // ---- the answer ----

  /** The first entry comes no later in the answer's direction. */
  predicate NoLater(a: int, b: int, dir: Direction) {
    match dir
    case Forward => a <= b
    case Backward => a >= b
  }

  /** In the direction asked for, ties by stream. */
  predicate InDirection(s: seq<Item>, dir: Direction) {
    forall i, j :: 0 <= i < j < |s| ==> NoLater(s[i].1.ts, s[j].1.ts, dir) && (s[i].1.ts == s[j].1.ts ==> s[i].0 <= s[j].0)
  }

  /** items are the first limit candidates, or all of them: each as often as it occurs,
      in order, and no later than any candidate left out. */
  ghost predicate FirstOf(items: seq<Item>, candidates: seq<Item>, dir: Direction, limit: nat) {
    && InDirection(items, dir)
    && |items| == (if 0 < limit < |candidates| then limit else |candidates|)
    && multiset(items) <= multiset(candidates)
    && forall x, i :: multiset(items)[x] < multiset(candidates)[x] && 0 <= i < |items| ==> NoLater(items[i].1.ts, x.1.ts, dir)
  }

  lemma SortedIsInDirection(s: seq<Tagged>, dir: Direction)
    requires Sorted(s, dir)
    ensures InDirection(ItemsOf(s), dir)
  {
    forall i, j | 0 <= i < j < |s|
      ensures NoLater(s[i].entry.ts, s[j].entry.ts, dir) && (s[i].entry.ts == s[j].entry.ts ==> s[i].id <= s[j].id)
    {
      assert !Before(s[j], s[i], dir);
    }
  }

  lemma CutIsFirst(s: seq<Item>, candidates: seq<Item>, dir: Direction, limit: nat)
    requires InDirection(s, dir) && multiset(s) == multiset(candidates)
    ensures FirstOf(Cut(s, limit), candidates, dir, limit)
  {
    assert |s| == |multiset(s)| == |multiset(candidates)| == |candidates|;
    var items := Cut(s, limit);
    var n := |items|;
    var rest := s[n..];
    SplitAt(s, n);
    assert items == s[..n];
    assert multiset(s) == multiset(items) + multiset(rest);
    forall i, j | 0 <= i < j < n ensures NoLater(items[i].1.ts, items[j].1.ts, dir) && (items[i].1.ts == items[j].1.ts ==> items[i].0 <= items[j].0) {
      assert items[i] == s[i] && items[j] == s[j];
    }
    forall x, i | multiset(items)[x] < multiset(candidates)[x] && 0 <= i < n ensures NoLater(items[i].1.ts, x.1.ts, dir) {
      LeftOutIsLater(s, items, rest, dir, x, i);
    }
  }

  lemma LeftOutIsLater(s: seq<Item>, items: seq<Item>, rest: seq<Item>, dir: Direction, x: Item, i: nat)
    requires s == items + rest && InDirection(s, dir) && x in multiset(rest) && i < |items|
    ensures NoLater(items[i].1.ts, x.1.ts, dir)
  {
    var k :| 0 <= k < |rest| && rest[k] == x;
    assert s[|items| + k] == x && s[i] == items[i];
  }

  lemma {:induction false} SameStripSameItems(a: seq<Tagged>, b: seq<Tagged>)
    requires StripAll(a) == StripAll(b)
    ensures ItemsOf(a) == ItemsOf(b)
  {
    assert |a| == |StripAll(a)| == |StripAll(b)| == |b|;
    forall i | 0 <= i < |a| ensures ItemsOf(a)[i] == ItemsOf(b)[i] { assert Strip(a[i]) == StripAll(a)[i] == StripAll(b)[i] == Strip(b[i]); }
  }

  /** The limited merge holds the first candidates of all: ascending in time going forward,
      descending going backward, the earliest or the latest ones. */
  lemma MergeIsFirst(streams: seq<Stream>, q: Query, limit: nat, all: seq<Tagged>)
    requires StripAll(all) == StripAll(Merged(streams, q, 0, limit))
    ensures FirstOf(ItemsOf(all), Candidates(streams, q), q.dir, limit)
  {
    var tags := TagAll(streams, q, 0);
    var s := Sort(tags, q.dir);
    SortOk(tags, q.dir);
    SortItems(tags, q.dir, s);
    AllItems(streams, q, tags);
    SortedIsInDirection(s, q.dir);
    CutIsFirst(ItemsOf(s), Candidates(streams, q), q.dir, limit);
    CutItems(s, limit);
    SameStripSameItems(all, Cut(s, limit));
  }

  lemma CutItems(s: seq<Tagged>, limit: nat)
    ensures ItemsOf(Cut(s, limit)) == Cut(ItemsOf(s), limit)
  {
  }

  predicate EntriesInDirection(es: seq<Entry>, dir: Direction) {
    forall i, j :: 0 <= i < j < |es| ==> NoLater(es[i].ts, es[j].ts, dir)
  }

  /** Every group of the whole query is in the direction asked for. */
  lemma GroupsAreInDirection(streams: seq<Stream>, q: Query, limit: nat, keyOf: nat -> nat, results: seq<Group>, g: nat)
    requires IsGrouping(results, Merged(streams, q, 0, limit), keyOf) && g < |results|
    ensures EntriesInDirection(results[g].entries, q.dir)
  {
    var all := Merged(streams, q, 0, limit);
    var key := KeysOf(all, keyOf)[g];
    assert results[g] == Group(key, EntriesOf(all, keyOf, key));
    MergeIsFirst(streams, q, limit, all);
    GroupInDirection(all, keyOf, key, q.dir);
  }

  lemma {:induction false} EntriesComeFrom(all: seq<Tagged>, keyOf: nat -> nat, key: nat, e: Entry)
    requires e in EntriesOf(all, keyOf, key)
    ensures exists x :: x in all && x.entry == e
  {
    var p, last := all[..|all| - 1], all[|all| - 1];
    SplitLast(all);
    if e in EntriesOf(p, keyOf, key) {
      EntriesComeFrom(p, keyOf, key, e);
      var x :| x in p && x.entry == e;
      assert x in all;
    } else {
      assert last in all;
    }
  }

  lemma PrefixInDirection(all: seq<Tagged>, p: seq<Tagged>, last: Tagged, dir: Direction)
    requires all == p + [last] && InDirection(ItemsOf(all), dir)
    ensures InDirection(ItemsOf(p), dir) && forall x :: x in p ==> NoLater(x.entry.ts, last.entry.ts, dir)
  {
    var items := ItemsOf(all);
    ItemsAppend(p, last, all);
    forall i, j | 0 <= i < j < |p| ensures NoLater(ItemsOf(p)[i].1.ts, ItemsOf(p)[j].1.ts, dir) && (ItemsOf(p)[i].1.ts == ItemsOf(p)[j].1.ts ==> ItemsOf(p)[i].0 <= ItemsOf(p)[j].0) {
      assert items[i] == ItemsOf(p)[i] && items[j] == ItemsOf(p)[j];
    }
    forall x | x in p ensures NoLater(x.entry.ts, last.entry.ts, dir) {
      var k :| 0 <= k < |p| && p[k] == x;
      assert items[k] == (x.id, x.entry) && items[|p|] == (last.id, last.entry);
    }
  }

  lemma {:induction false} GroupInDirection(all: seq<Tagged>, keyOf: nat -> nat, key: nat, dir: Direction)
    requires InDirection(ItemsOf(all), dir)
    ensures EntriesInDirection(EntriesOf(all, keyOf, key), dir)
  {
    if all != [] {
      var p, last := all[..|all| - 1], all[|all| - 1];
      SplitLast(all);
      PrefixInDirection(all, p, last, dir);
      GroupInDirection(p, keyOf, key, dir);
      var es := EntriesOf(p, keyOf, key);
      forall e | e in es ensures NoLater(e.ts, last.entry.ts, dir) { EntriesComeFrom(p, keyOf, key, e); }
      AppendInDirection(es, last.entry, dir);
    }
  }

  lemma AppendInDirection(es: seq<Entry>, e: Entry, dir: Direction)
    requires EntriesInDirection(es, dir) && forall x :: x in es ==> NoLater(x.ts, e.ts, dir)
    ensures EntriesInDirection(es + [e], dir) && EntriesInDirection(es + [], dir)
  {
    assert es + [] == es;
  }

  // ---- ties ----

  /** A stream's candidates at one instant, in stored order. */
  function StoredAt(es: seq<Entry>, q: Query, t: int): seq<Entry> {
    if es == [] then []
    else
      var e := es[|es| - 1];
      StoredAt(es[..|es| - 1], q, t) + (if e.ts == t && e.passes && !(e.ts == q.endNs && !q.endInclusive) then [e] else [])
  }

  /** What an answer holds of one stream at one instant, in its order. */
  function AnsweredAt(s: seq<Tagged>, id: nat, t: int): seq<Entry> {
    if s == [] then []
    else
      var x := s[|s| - 1];
      AnsweredAt(s[..|s| - 1], id, t) + (if x.id == id && x.entry.ts == t then [x.entry] else [])
  }

  function AtTime(es: seq<Entry>, t: int): seq<Entry> {
    if es == [] then [] else AtTime(es[..|es| - 1], t) + (if es[|es| - 1].ts == t then [es[|es| - 1]] else [])
  }

  lemma AtTimeAppend(es: seq<Entry>, e: Entry, r: seq<Entry>, t: int)
    requires r == es + [e]
    ensures AtTime(r, t) == AtTime(es, t) + (if e.ts == t then [e] else [])
  {
    assert r[..|r| - 1] == es;
  }

  lemma LastSorted(s: seq<Entry>, p: seq<Entry>, last: Entry, dir: Direction)
    requires s == p + [last] && EntriesSorted(s, dir)
    ensures EntriesSorted(p, dir) && forall i :: 0 <= i < |p| ==> !TsBefore(last.ts, p[i].ts, dir)
  {
    forall i | 0 <= i < |p| ensures !TsBefore(last.ts, p[i].ts, dir) { assert s[i] == p[i] && s[|p|] == last; }
    forall i, j | 0 <= i < j < |p| ensures !TsBefore(p[j].ts, p[i].ts, dir) { assert s[i] == p[i] && s[j] == p[j]; }
  }

  /** An entry is inserted behind those of its own instant. */
  lemma {:induction false} InsertIsStable(s: seq<Entry>, e: Entry, dir: Direction, r: seq<Entry>, t: int)
    requires EntriesSorted(s, dir) && r == InsertEntry(s, e, dir)
    ensures AtTime(r, t) == AtTime(s, t) + (if e.ts == t then [e] else [])
  {
    if s == [] || !TsBefore(e.ts, s[|s| - 1].ts, dir) {
      AtTimeAppend(s, e, r, t);
    } else {
      var p, last := s[..|s| - 1], s[|s| - 1];
      SplitLast(s);
      LastSorted(s, p, last, dir);
      var q := InsertEntry(p, e, dir);
      InsertIsStable(p, e, dir, q, t);
      AtTimeAppend(p, last, s, t);
      AtTimeAppend(q, last, r, t);
      assert last.ts != e.ts;
    }
  }

  lemma {:induction false} SortIsStable(s: seq<Entry>, dir: Direction, t: int)
    ensures AtTime(SortEntries(s, dir), t) == AtTime(s, t)
  {
    if s != [] {
      var p, last := s[..|s| - 1], s[|s| - 1];
      SortIsStable(p, dir, t);
      SortEntriesSorted(p, dir);
      InsertIsStable(SortEntries(p, dir), last, dir, SortEntries(s, dir), t);
      SplitLast(s);
      AtTimeAppend(p, last, s, t);
    }
  }

  lemma {:induction false} KeptAt(es: seq<Entry>, q: Query, t: int)
    ensures AtTime(Kept(es, q.endNs, q.endInclusive), t) == StoredAt(es, q, t)
  {
    if es != [] {
      var p, e := es[..|es| - 1], es[|es| - 1];
      var k := Kept(p, q.endNs, q.endInclusive);
      KeptAt(p, q, t);
      AtTimeAppend(k, e, k + [e], t);
      assert k + [] == k;
    }
  }

  lemma AnsweredAppend(s: seq<Tagged>, x: Tagged, r: seq<Tagged>, id: nat, t: int)
    requires r == s + [x]
    ensures AnsweredAt(r, id, t) == AnsweredAt(s, id, t) + (if x.id == id && x.entry.ts == t then [x.entry] else [])
  {
    assert r[..|r| - 1] == s;
  }

  lemma LastTagged(s: seq<Tagged>, p: seq<Tagged>, last: Tagged, dir: Direction)
    requires s == p + [last] && Sorted(s, dir)
    ensures Sorted(p, dir)
  {
    forall i, j | 0 <= i < j < |p| ensures !Before(p[j], p[i], dir) { assert s[i] == p[i] && s[j] == p[j]; }
  }

  /** A tag numbered above all others goes behind those of its stream and instant. */
  lemma {:induction false} InsertTagged(s: seq<Tagged>, x: Tagged, dir: Direction, r: seq<Tagged>, id: nat, t: int)
    requires Sorted(s, dir) && r == Insert(s, x, dir) && forall y :: y in s ==> y.seqNo < x.seqNo
    ensures AnsweredAt(r, id, t) == AnsweredAt(s, id, t) + (if x.id == id && x.entry.ts == t then [x.entry] else [])
  {
    if s == [] || !Before(x, s[|s| - 1], dir) {
      AnsweredAppend(s, x, r, id, t);
    } else {
      var p, last := s[..|s| - 1], s[|s| - 1];
      SplitLast(s);
      LastTagged(s, p, last, dir);
      var q := Insert(p, x, dir);
      assert last in s;
      InsertTagged(p, x, dir, q, id, t);
      AnsweredAppend(p, last, s, id, t);
      AnsweredAppend(q, last, r, id, t);
      assert last.id != x.id || last.entry.ts != x.entry.ts;
    }
  }

  lemma {:induction false} SortTagged(s: seq<Tagged>, dir: Direction, id: nat, t: int)
    requires forall i :: 0 <= i < |s| ==> s[i].seqNo == i
    ensures AnsweredAt(Sort(s, dir), id, t) == AnsweredAt(s, id, t)
  {
    if s != [] {
      var p, last := s[..|s| - 1], s[|s| - 1];
      SortTagged(p, dir, id, t);
      SortOk(p, dir);
      Numbered(p, Sort(p, dir), last);
      InsertTagged(Sort(p, dir), last, dir, Sort(s, dir), id, t);
      SplitLast(s);
      AnsweredAppend(p, last, s, id, t);
    }
  }

  lemma Numbered(p: seq<Tagged>, s: seq<Tagged>, last: Tagged)
    requires multiset(s) == multiset(p) && last.seqNo == |p| && forall i :: 0 <= i < |p| ==> p[i].seqNo == i
    ensures forall y :: y in s ==> y.seqNo < last.seqNo
  {
    SameElements(s, p);
  }

  lemma {:induction false} AnsweredConcat(a: seq<Tagged>, b: seq<Tagged>, r: seq<Tagged>, id: nat, t: int)
    requires r == a + b
    ensures AnsweredAt(r, id, t) == AnsweredAt(a, id, t) + AnsweredAt(b, id, t)
  {
    if b == [] {
      assert r == a;
    } else {
      var p, last := b[..|b| - 1], b[|b| - 1];
      SplitLast(b);
      AnsweredConcat(a, p, a + p, id, t);
      AnsweredAppend(p, last, b, id, t);
      AnsweredAppend(a + p, last, r, id, t);
    }
  }

  lemma {:induction false} TaggedAt(s: seq<Tagged>, k: nat, es: seq<Entry>, id: nat, t: int)
    requires |s| == |es| && forall i :: 0 <= i < |s| ==> s[i].id == k && s[i].entry == es[i]
    ensures AnsweredAt(s, id, t) == if k == id then AtTime(es, t) else []
  {
    if s != [] { TaggedAt(s[..|s| - 1], k, es[..|es| - 1], id, t); }
  }

  lemma OneMoreStream(p: seq<Stream>, st: Stream, q: Query, id: nat, t: int, streams: seq<Stream>)
    requires streams == p + [st]
    ensures AnsweredAt(TagAll(streams, q, 0), id, t) == AnsweredAt(TagAll(p, q, 0), id, t) + (if st.id == id then StoredAt(st.entries, q, t) else [])
  {
    assert streams[..|streams| - 1] == p;
    var before := TagAll(p, q, 0);
    var tags := TagStream(st.id, Cut(Ordered(st, q), 0), |before|);
    AnsweredConcat(before, tags, before + tags, id, t);
    TaggedAt(tags, st.id, Ordered(st, q), id, t);
    SortIsStable(Kept(st.entries, q.endNs, q.endInclusive), q.dir, t);
    KeptAt(st.entries, q, t);
  }

  lemma {:induction false} NotAmong(streams: seq<Stream>, q: Query, id: nat, t: int)
    requires forall i :: 0 <= i < |streams| ==> streams[i].id != id
    ensures AnsweredAt(TagAll(streams, q, 0), id, t) == []
  {
    if streams != [] {
      var p, st := streams[..|streams| - 1], streams[|streams| - 1];
      NotAmong(p, q, id, t);
      SplitLast(streams);
      OneMoreStream(p, st, q, id, t, streams);
    }
  }

  lemma {:induction false} StreamAt(streams: seq<Stream>, q: Query, i: nat, t: int, st: Stream)
    requires DistinctIds(streams) && i < |streams| && st == streams[i]
    ensures AnsweredAt(TagAll(streams, q, 0), st.id, t) == StoredAt(st.entries, q, t)
  {
    var p, last := streams[..|streams| - 1], streams[|streams| - 1];
    SplitLast(streams);
    OneMoreStream(p, last, q, st.id, t, streams);
    if i < |p| {
      assert p[i] == st && last.id != st.id;
      StreamAt(p, q, i, t, st);
    } else {
      forall k | 0 <= k < |p| ensures p[k].id != st.id { assert p[k] == streams[k]; }
      NotAmong(p, q, st.id, t);
    }
  }

  lemma {:induction false} AnsweredPrefix(s: seq<Tagged>, n: nat, id: nat, t: int)
    requires n <= |s|
    ensures |AnsweredAt(s[..n], id, t)| <= |AnsweredAt(s, id, t)|
    ensures AnsweredAt(s[..n], id, t) == AnsweredAt(s, id, t)[..|AnsweredAt(s[..n], id, t)|]
  {
    SplitAt(s, n);
    AnsweredConcat(s[..n], s[n..], s, id, t);
  }

  lemma {:induction false} SameStripSameAt(a: seq<Tagged>, b: seq<Tagged>, id: nat, t: int)
    requires StripAll(a) == StripAll(b)
    ensures AnsweredAt(a, id, t) == AnsweredAt(b, id, t)
  {
    assert |a| == |StripAll(a)| == |StripAll(b)| == |b|;
    if a != [] {
      var n := |a| - 1;
      assert Strip(a[n]) == StripAll(a)[n] == StripAll(b)[n] == Strip(b[n]);
      assert StripAll(a[..n]) == StripAll(a)[..n] == StripAll(b)[..n] == StripAll(b[..n]);
      SameStripSameAt(a[..n], b[..n], id, t);
    }
  }

  /** Of the entries of one stream at one instant the answer holds the first stored ones,
      in stored order, whichever direction it goes. */
  lemma TiesAreStored(streams: seq<Stream>, q: Query, limit: nat, all: seq<Tagged>, i: nat, t: int)
    requires DistinctIds(streams) && i < |streams| && StripAll(all) == StripAll(Merged(streams, q, 0, limit))
    ensures var got, stored := AnsweredAt(all, streams[i].id, t), StoredAt(streams[i].entries, q, t);
      |got| <= |stored| && got == stored[..|got|] && (limit == 0 ==> got == stored)
  {
    var tags := TagAll(streams, q, 0);
    var s := Sort(tags, q.dir);
    TagAllHolds(streams, q, 0);
    SortTagged(tags, q.dir, streams[i].id, t);
    StreamAt(streams, q, i, t, streams[i]);
    SameStripSameAt(all, Cut(s, limit), streams[i].id, t);
    if 0 < limit < |s| { AnsweredPrefix(s, limit, streams[i].id, t); }
  }
}
