/** The log query's limit. Cutting every stream to the limit before the global merge
    changes nothing: the merged, cut and regrouped answer is the one from sorting all
    kept entries and cutting once. */
module LogLimit {
  import opened Sets

  datatype Direction = Backward | Forward

  /** A stored entry; passes says whether the line filters keep it. */
  datatype Entry = Entry(ts: int, line: nat, passes: bool)

  datatype Stream = Stream(id: nat, entries: seq<Entry>)

  /** An entry in the global merge: its stream, its insertion order, and its place in
      its stream's own order. */
  datatype Tagged = Tagged(id: nat, entry: Entry, seqNo: nat, pos: nat)

  predicate TsBefore(a: int, b: int, dir: Direction) {
    if dir.Forward? then a < b else a > b
  }

  // ---- one stream ----

  predicate Keeps(e: Entry, endNs: int, endInclusive: bool) {
    (endInclusive || e.ts != endNs) && e.passes
  }

  function Kept(es: seq<Entry>, endNs: int, endInclusive: bool): seq<Entry> {
    if es == [] then []
    else Kept(es[..|es| - 1], endNs, endInclusive) + (if Keeps(es[|es| - 1], endNs, endInclusive) then [es[|es| - 1]] else [])
  }

  function InsertEntry(s: seq<Entry>, e: Entry, dir: Direction): (r: seq<Entry>)
    ensures |r| == |s| + 1
  {
    if s == [] || !TsBefore(e.ts, s[|s| - 1].ts, dir) then s + [e]
    else InsertEntry(s[..|s| - 1], e, dir) + [s[|s| - 1]]
  }

  /** sortEntries: stable, by timestamp. */
  function SortEntries(s: seq<Entry>, dir: Direction): (r: seq<Entry>)
    ensures |r| == |s|
  {
    if s == [] then [] else InsertEntry(SortEntries(s[..|s| - 1], dir), s[|s| - 1], dir)
  }

  predicate EntriesSorted(s: seq<Entry>, dir: Direction) {
    forall i, j :: 0 <= i < j < |s| ==> !TsBefore(s[j].ts, s[i].ts, dir)
  }

  lemma {:induction false} InsertEntrySorted(s: seq<Entry>, e: Entry, dir: Direction)
    requires EntriesSorted(s, dir)
    ensures EntriesSorted(InsertEntry(s, e, dir), dir)
    ensures forall x :: x in InsertEntry(s, e, dir) ==> x in s || x == e
  {
    if s != [] && TsBefore(e.ts, s[|s| - 1].ts, dir) {
      var p, last := s[..|s| - 1], s[|s| - 1];
      InsertEntrySorted(p, e, dir);
      var r := InsertEntry(p, e, dir);
      forall i | 0 <= i < |r| ensures !TsBefore(last.ts, r[i].ts, dir) {
        assert r[i] in r;
        if r[i] in p {
          var k :| 0 <= k < |p| && p[k] == r[i];
          assert s[k] == r[i];
        }
      }
    } else {
      forall i | 0 <= i < |s| ensures !TsBefore(e.ts, s[i].ts, dir) {
        assert !TsBefore(s[|s| - 1].ts, s[i].ts, dir);
      }
    }
  }

  lemma {:induction false} SortEntriesSorted(s: seq<Entry>, dir: Direction)
    ensures EntriesSorted(SortEntries(s, dir), dir)
  {
    if s != [] {
      SortEntriesSorted(s[..|s| - 1], dir);
      InsertEntrySorted(SortEntries(s[..|s| - 1], dir), s[|s| - 1], dir);
    }
  }

  /** Cut to the limit; 0 means no limit. */
  function Cut<T>(s: seq<T>, limit: nat): seq<T> {
    if limit > 0 && |s| > limit then s[..limit] else s
  }

  /** A stream's kept entries, in order. */
  function Ordered(st: Stream, q: Query): seq<Entry> {
    SortEntries(Kept(st.entries, q.endNs, q.endInclusive), q.dir)
  }

  datatype Query = Query(endNs: int, endInclusive: bool, dir: Direction)

  // ---- all streams, tagged ----

  function TagStream(id: nat, es: seq<Entry>, base: nat): (r: seq<Tagged>)
    ensures |r| == |es|
  {
    seq(|es|, i requires 0 <= i < |es| => Tagged(id, es[i], base + i, i))
  }

  /** The merge's input, each stream cut to the cap first. */
  function TagAll(streams: seq<Stream>, q: Query, limit: nat): seq<Tagged> {
    if streams == [] then []
    else
      var n := |streams| - 1;
      var before := TagAll(streams[..n], q, limit);
      before + TagStream(streams[n].id, Cut(Ordered(streams[n], q), limit), |before|)
  }

  predicate DistinctIds(streams: seq<Stream>) {
    forall i, j :: 0 <= i < j < |streams| ==> streams[i].id != streams[j].id
  }

  /** x is the entry at its place in its stream. */
  predicate IsItem(streams: seq<Stream>, q: Query, x: Tagged) {
    exists i :: 0 <= i < |streams| && streams[i].id == x.id && x.pos < |Ordered(streams[i], q)| && Ordered(streams[i], q)[x.pos] == x.entry
  }

  function Strip(x: Tagged): Tagged { x.(seqNo := 0) }

  function StripAll(s: seq<Tagged>): (r: seq<Tagged>)
    ensures |r| == |s| && forall i :: 0 <= i < |s| ==> r[i] == Strip(s[i])
  {
    if s == [] then [] else StripAll(s[..|s| - 1]) + [Strip(s[|s| - 1])]
  }

  predicate WithinCap(pos: nat, limit: nat) { limit == 0 || pos < limit }

  /** The merge's input: items within the cap, numbered in order; in one stream,
      insertion order is the stream's own order. */
  ghost predicate TagsOk(s: seq<Tagged>, streams: seq<Stream>, q: Query, limit: nat) {
    && (forall i :: 0 <= i < |s| ==> s[i].seqNo == i && IsItem(streams, q, s[i]) && WithinCap(s[i].pos, limit))
    && (forall i, j :: 0 <= i < j < |s| && s[i].id == s[j].id ==> s[i].pos < s[j].pos)
  }

  lemma {:induction false} TagAllHolds(streams: seq<Stream>, q: Query, limit: nat)
    requires DistinctIds(streams)
    ensures TagsOk(TagAll(streams, q, limit), streams, q, limit)
  {
    if streams != [] {
      var n := |streams| - 1;
      var p := streams[..n];
      TagAllHolds(p, q, limit);
      var before := TagAll(p, q, limit);
      var tags := TagStream(streams[n].id, Cut(Ordered(streams[n], q), limit), |before|);
      forall i | 0 <= i < |before| ensures IsItem(streams, q, before[i]) && before[i].id != streams[n].id {
        ItemOfPrefix(streams, q, before[i]);
      }
      forall i | 0 <= i < |tags| ensures IsItem(streams, q, tags[i]) {
        assert streams[n].id == tags[i].id;
      }
      TagsConcat(before, tags, streams, q, limit);
    }
  }

  lemma TagsConcat(before: seq<Tagged>, tags: seq<Tagged>, streams: seq<Stream>, q: Query, limit: nat)
    requires forall i :: 0 <= i < |before| ==> before[i].seqNo == i && IsItem(streams, q, before[i]) && WithinCap(before[i].pos, limit)
    requires forall i, j :: 0 <= i < j < |before| && before[i].id == before[j].id ==> before[i].pos < before[j].pos
    requires forall i :: 0 <= i < |tags| ==> tags[i].seqNo == |before| + i && tags[i].pos == i && IsItem(streams, q, tags[i]) && WithinCap(i, limit)
    requires forall i, j :: 0 <= i < |before| && 0 <= j < |tags| ==> before[i].id != tags[j].id
    ensures TagsOk(before + tags, streams, q, limit)
  {
  }

  lemma ItemOfPrefix(streams: seq<Stream>, q: Query, x: Tagged)
    requires streams != [] && DistinctIds(streams) && IsItem(streams[..|streams| - 1], q, x)
    ensures IsItem(streams, q, x) && x.id != streams[|streams| - 1].id
  {
    var i :| 0 <= i < |streams| - 1 && streams[..|streams| - 1][i].id == x.id && x.pos < |Ordered(streams[i], q)| && Ordered(streams[i], q)[x.pos] == x.entry;
    assert streams[i].id == x.id;
  }

  lemma TagLater(before: seq<Tagged>, tags: seq<Tagged>, i: nat)
    requires i < |tags|
    ensures Strip(tags[i]) in StripAll(before + tags)
  {
    assert StripAll(before + tags)[|before| + i] == Strip(tags[i]);
  }

  lemma {:induction false} TagAllComplete(streams: seq<Stream>, q: Query, limit: nat, x: Tagged)
    requires IsItem(streams, q, x) && WithinCap(x.pos, limit)
    ensures Strip(x) in StripAll(TagAll(streams, q, limit))
  {
    var n := |streams| - 1;
    var i :| 0 <= i < |streams| && streams[i].id == x.id && x.pos < |Ordered(streams[i], q)| && Ordered(streams[i], q)[x.pos] == x.entry;
    var before := TagAll(streams[..n], q, limit);
    var tags := TagStream(streams[n].id, Cut(Ordered(streams[n], q), limit), |before|);
    assert TagAll(streams, q, limit) == before + tags;
    if i == n {
      var y := tags[x.pos];
      assert y.id == x.id && y.entry == x.entry && y.pos == x.pos;
      TagLater(before, tags, x.pos);
    } else {
      assert streams[..n][i] == streams[i];
      TagAllComplete(streams[..n], q, limit, x);
      TagEarlier(before, tags, Strip(x));
    }
  }

  lemma TagEarlier(before: seq<Tagged>, tags: seq<Tagged>, y: Tagged)
    requires y in StripAll(before)
    ensures y in StripAll(before + tags)
  {
    var k :| 0 <= k < |before| && StripAll(before)[k] == y;
    assert StripAll(before + tags)[k] == Strip(before[k]);
  }

  // ---- the global order ----

  /** The sort's comparison: timestamp by direction, then stream, then insertion. */
  predicate Before(a: Tagged, b: Tagged, dir: Direction) {
    if a.entry.ts != b.entry.ts then TsBefore(a.entry.ts, b.entry.ts, dir)
    else if a.id != b.id then a.id < b.id
    else a.seqNo < b.seqNo
  }

  /** The same with the place in the stream instead of the insertion number. */
  predicate PlaceBefore(a: Tagged, b: Tagged, dir: Direction) {
    if a.entry.ts != b.entry.ts then TsBefore(a.entry.ts, b.entry.ts, dir)
    else if a.id != b.id then a.id < b.id
    else a.pos < b.pos
  }

  function Insert(s: seq<Tagged>, x: Tagged, dir: Direction): seq<Tagged> {
    if s == [] || !Before(x, s[|s| - 1], dir) then s + [x] else Insert(s[..|s| - 1], x, dir) + [s[|s| - 1]]
  }

  /** sort.SliceStable of everything. */
  function Sort(s: seq<Tagged>, dir: Direction): seq<Tagged> {
    if s == [] then [] else Insert(Sort(s[..|s| - 1], dir), s[|s| - 1], dir)
  }

  predicate Sorted(s: seq<Tagged>, dir: Direction) {
    forall i, j :: 0 <= i < j < |s| ==> !Before(s[j], s[i], dir)
  }

  lemma {:induction false} InsertOk(s: seq<Tagged>, x: Tagged, dir: Direction)
    requires Sorted(s, dir)
    ensures Sorted(Insert(s, x, dir), dir) && multiset(Insert(s, x, dir)) == multiset(s) + multiset{x}
  {
    if s != [] {
      var p, last := s[..|s| - 1], s[|s| - 1];
      SplitLast(s);
      if Before(x, last, dir) {
        InsertOk(p, x, dir);
        LastAfter(p, x, Insert(p, x, dir), last, dir);
      }
    }
  }

  lemma LastAfter(p: seq<Tagged>, x: Tagged, r: seq<Tagged>, last: Tagged, dir: Direction)
    requires Sorted(r, dir) && multiset(r) == multiset(p) + multiset{x}
    requires !Before(last, x, dir) && forall i :: 0 <= i < |p| ==> !Before(last, p[i], dir)
    ensures Sorted(r + [last], dir)
  {
    forall i | 0 <= i < |r| ensures !Before(last, r[i], dir) {
      assert r[i] in multiset(r);
      if r[i] != x { assert r[i] in multiset(p); }
    }
  }

  lemma {:induction false} SortOk(s: seq<Tagged>, dir: Direction)
    ensures Sorted(Sort(s, dir), dir) && multiset(Sort(s, dir)) == multiset(s)
  {
    if s != [] {
      SortOk(s[..|s| - 1], dir);
      InsertOk(Sort(s[..|s| - 1], dir), s[|s| - 1], dir);
      assert s == s[..|s| - 1] + [s[|s| - 1]];
    }
  }

  predicate StrictlyPlaced(s: seq<Tagged>, dir: Direction) {
    forall i, j :: 0 <= i < j < |s| ==> PlaceBefore(s[i], s[j], dir)
  }

  lemma SameElements(s: seq<Tagged>, t: seq<Tagged>)
    requires multiset(s) == multiset(t)
    ensures |s| == |t| && forall x :: x in s <==> x in t
  {
    assert |s| == |multiset(s)| == |multiset(t)| == |t|;
    forall x ensures x in s <==> x in t { assert x in multiset(s) <==> x in multiset(t); }
  }

  /** Sorting the merge's input by insertion numbers sorts it by places. */
  lemma SortedByPlace(streams: seq<Stream>, q: Query, limit: nat, sorted: seq<Tagged>)
    requires DistinctIds(streams) && sorted == StripAll(Sort(TagAll(streams, q, limit), q.dir))
    ensures ListsItems(sorted, streams, q, limit)
  {
    var all := TagAll(streams, q, limit);
    var s := Sort(all, q.dir);
    TagAllHolds(streams, q, limit);
    SortOk(all, q.dir);
    SameElements(s, all);
    NoRepeats(all, s);
    NumbersArePlaces(all, s, q.dir);
    forall x | x in StripAll(s) ensures IsItem(streams, q, x) && WithinCap(x.pos, limit) && x.seqNo == 0 {
      StrippedItem(all, s, streams, q, limit, x);
    }
    forall x | IsItem(streams, q, x) && WithinCap(x.pos, limit) && x.seqNo == 0 ensures x in StripAll(s) {
      assert Strip(x) == x;
      TagAllComplete(streams, q, limit, x);
      SameStripped(all, s, x);
    }
  }

  lemma StrippedItem(all: seq<Tagged>, s: seq<Tagged>, streams: seq<Stream>, q: Query, limit: nat, x: Tagged)
    requires TagsOk(all, streams, q, limit) && (forall y :: y in s ==> y in all) && x in StripAll(s)
    ensures IsItem(streams, q, x) && WithinCap(x.pos, limit) && x.seqNo == 0
  {
    var i :| 0 <= i < |s| && StripAll(s)[i] == x;
    assert s[i] in s;
    var a :| 0 <= a < |all| && all[a] == s[i];
    StripItem(streams, q, s[i]);
  }

  lemma SameStripped(all: seq<Tagged>, s: seq<Tagged>, y: Tagged)
    requires (forall x :: x in s <==> x in all) && y in StripAll(all)
    ensures y in StripAll(s)
  {
    var a :| 0 <= a < |all| && StripAll(all)[a] == y;
    assert all[a] in all && all[a] in s;
    var i :| 0 <= i < |s| && s[i] == all[a];
    assert StripAll(s)[i] == y;
  }

  lemma NumbersArePlaces(all: seq<Tagged>, s: seq<Tagged>, dir: Direction)
    requires Sorted(s, dir) && (forall x :: x in s ==> x in all) && forall i, j :: 0 <= i < j < |s| ==> s[i] != s[j]
    requires forall i :: 0 <= i < |all| ==> all[i].seqNo == i
    requires forall i, j :: 0 <= i < j < |all| && all[i].id == all[j].id ==> all[i].pos < all[j].pos
    ensures StrictlyPlaced(StripAll(s), dir)
  {
    forall i, j | 0 <= i < j < |s| ensures PlaceBefore(Strip(s[i]), Strip(s[j]), dir) {
      assert s[i] in s && s[j] in s && s[i] != s[j];
      var a :| 0 <= a < |all| && all[a] == s[i];
      var b :| 0 <= b < |all| && all[b] == s[j];
      assert !Before(s[j], s[i], dir);
    }
  }

  lemma StripItem(streams: seq<Stream>, q: Query, x: Tagged)
    requires IsItem(streams, q, x)
    ensures IsItem(streams, q, Strip(x))
  {
    var i :| 0 <= i < |streams| && streams[i].id == x.id && x.pos < |Ordered(streams[i], q)| && Ordered(streams[i], q)[x.pos] == x.entry;
    assert streams[i].id == Strip(x).id;
  }

  lemma NoRepeats(all: seq<Tagged>, s: seq<Tagged>)
    requires multiset(s) == multiset(all) && forall i :: 0 <= i < |all| ==> all[i].seqNo == i
    ensures forall i, j :: 0 <= i < j < |s| ==> s[i] != s[j]
  {
    NumberedOnce(all);
    forall i, j | 0 <= i < j < |s| ensures s[i] != s[j] {
      if s[i] == s[j] { RepeatCounts(s, i, j); }
    }
  }

  lemma RepeatCounts(s: seq<Tagged>, i: nat, j: nat)
    requires i < j < |s| && s[i] == s[j]
    ensures multiset(s)[s[i]] >= 2
  {
    assert s == s[..i] + [s[i]] + s[i + 1..j] + [s[j]] + s[j + 1..];
  }

  lemma {:induction false} NumberedOnce(all: seq<Tagged>)
    requires forall i :: 0 <= i < |all| ==> all[i].seqNo == i
    ensures forall x :: multiset(all)[x] <= 1
  {
    if all != [] {
      var p, last := all[..|all| - 1], all[|all| - 1];
      NumberedOnce(p);
      assert all == p + [last];
      assert last !in p;
      assert last !in multiset(p);
    }
  }

  /** A strict order lists a set one way. */
  lemma {:induction false} PlacedUnique(s: seq<Tagged>, t: seq<Tagged>, dir: Direction)
    requires StrictlyPlaced(s, dir) && StrictlyPlaced(t, dir) && forall x :: x in s <==> x in t
    ensures s == t
  {
    if s == [] {
      assert forall k :: 0 <= k < |t| ==> t[k] in t;
    } else {
      var x := s[|s| - 1];
      assert x in t;
      var y := t[|t| - 1];
      assert y in t && y in s;
      assert x == y;
      var p, q := s[..|s| - 1], t[..|t| - 1];
      SplitLast(s);
      SplitLast(t);
      LastOnce(p, x, dir);
      LastOnce(q, x, dir);
      forall z ensures z in p <==> z in q {
        assert z in s <==> z in p || z == x;
        assert z in t <==> z in q || z == x;
      }
      PlacedUnique(p, q, dir);
    }
  }

  lemma LastOnce(p: seq<Tagged>, x: Tagged, dir: Direction)
    requires StrictlyPlaced(p + [x], dir)
    ensures x !in p
  {
    var s := p + [x];
    forall k | 0 <= k < |p| ensures p[k] != x { assert PlaceBefore(s[k], s[|p|], dir); }
  }

  // ---- capping is lossless ----

  function WithinLimit(s: seq<Tagged>, limit: nat): seq<Tagged> {
    if s == [] then [] else WithinLimit(s[..|s| - 1], limit) + (if s[|s| - 1].pos < limit then [s[|s| - 1]] else [])
  }

  lemma {:induction false} WithinLimitHolds(s: seq<Tagged>, limit: nat, dir: Direction)
    requires StrictlyPlaced(s, dir)
    ensures StrictlyPlaced(WithinLimit(s, limit), dir)
    ensures forall x :: x in WithinLimit(s, limit) <==> x in s && x.pos < limit
  {
    if s != [] {
      var p, last := s[..|s| - 1], s[|s| - 1];
      assert s == p + [last];
      WithinLimitHolds(p, limit, dir);
      var w := WithinLimit(p, limit);
      forall i | 0 <= i < |w| ensures PlaceBefore(w[i], last, dir) {
        assert w[i] in p;
        var k :| 0 <= k < |p| && p[k] == w[i];
        assert s[k] == w[i];
      }
    }
  }

  /** s lists, in order, the items within the cap. */
  ghost predicate ListsItems(s: seq<Tagged>, streams: seq<Stream>, q: Query, cap: nat) {
    && StrictlyPlaced(s, q.dir)
    && (forall x :: x in s ==> IsItem(streams, q, x) && WithinCap(x.pos, cap) && x.seqNo == 0)
    && (forall x :: IsItem(streams, q, x) && WithinCap(x.pos, cap) && x.seqNo == 0 ==> x in s)
  }

  /** An item with p predecessors in its stream is at index p or later. */
  lemma {:induction false} PlaceAtMostIndex(streams: seq<Stream>, q: Query, s: seq<Tagged>, j: nat)
    requires DistinctIds(streams) && ListsItems(s, streams, q, 0) && j < |s|
    ensures s[j].pos <= j
    decreases s[j].pos
  {
    var x := s[j];
    assert x in s;
    if x.pos > 0 {
      var i :| 0 <= i < |streams| && streams[i].id == x.id && x.pos < |Ordered(streams[i], q)| && Ordered(streams[i], q)[x.pos] == x.entry;
      var y := Tagged(x.id, Ordered(streams[i], q)[x.pos - 1], 0, x.pos - 1);
      assert IsItem(streams, q, y);
      var k :| 0 <= k < |s| && s[k] == y;
      SortEntriesSorted(Kept(streams[i].entries, q.endNs, q.endInclusive), q.dir);
      assert PlaceBefore(y, x, q.dir);
      assert !PlaceBefore(x, y, q.dir);
      PlaceAtMostIndex(streams, q, s, k);
    }
  }

  lemma {:induction false} WithinLimitConcat(a: seq<Tagged>, b: seq<Tagged>, limit: nat)
    ensures WithinLimit(a + b, limit) == WithinLimit(a, limit) + WithinLimit(b, limit)
  {
    if b == [] {
      assert a + b == a;
    } else {
      WithinLimitConcat(a, b[..|b| - 1], limit);
      assert (a + b)[..|a + b| - 1] == a + b[..|b| - 1];
    }
  }

  lemma {:induction false} WithinLimitAll(a: seq<Tagged>, limit: nat)
    requires forall j :: 0 <= j < |a| ==> a[j].pos < limit
    ensures WithinLimit(a, limit) == a
  {
    if a != [] {
      WithinLimitAll(a[..|a| - 1], limit);
      assert a == a[..|a| - 1] + [a[|a| - 1]];
    }
  }

  lemma WithinLimitPrefix(s: seq<Tagged>, limit: nat, n: nat)
    requires n <= |s| && forall j :: 0 <= j < n ==> s[j].pos < limit
    ensures |WithinLimit(s, limit)| >= n && WithinLimit(s, limit)[..n] == s[..n]
    ensures n == |s| ==> WithinLimit(s, limit) == s
  {
    assert s == s[..n] + s[n..];
    WithinLimitConcat(s[..n], s[n..], limit);
    WithinLimitAll(s[..n], limit);
  }

  lemma CutsAgree(C: seq<Tagged>, U: seq<Tagged>, streams: seq<Stream>, q: Query, limit: nat)
    requires DistinctIds(streams) && limit > 0 && ListsItems(C, streams, q, limit) && ListsItems(U, streams, q, 0)
    ensures Cut(C, limit) == Cut(U, limit)
  {
    var W := WithinLimit(U, limit);
    WithinLimitHolds(U, limit, q.dir);
    assert forall x :: x in C <==> x in W;
    PlacedUnique(C, W, q.dir);
    FirstWithin(U, W, streams, q, limit);
  }

  /** The first limit of all are within the cap, so they are the first of those. */
  lemma FirstWithin(U: seq<Tagged>, W: seq<Tagged>, streams: seq<Stream>, q: Query, limit: nat)
    requires DistinctIds(streams) && limit > 0 && ListsItems(U, streams, q, 0) && W == WithinLimit(U, limit)
    ensures Cut(W, limit) == Cut(U, limit)
  {
    var n := if |U| < limit then |U| else limit;
    AllWithin(U, streams, q, limit, n);
    WithinLimitPrefix(U, limit, n);
    SameFirst(U, W, limit, n);
  }

  lemma AllWithin(U: seq<Tagged>, streams: seq<Stream>, q: Query, limit: nat, n: nat)
    requires DistinctIds(streams) && ListsItems(U, streams, q, 0) && n <= |U| && n <= limit
    ensures forall j :: 0 <= j < n ==> U[j].pos < limit
  {
    forall j | 0 <= j < n ensures U[j].pos < limit { PlaceAtMostIndex(streams, q, U, j); }
  }

  lemma SameFirst(U: seq<Tagged>, W: seq<Tagged>, limit: nat, n: nat)
    requires limit > 0 && n == (if |U| < limit then |U| else limit)
    requires |W| >= n && W[..n] == U[..n] && (n == |U| ==> W == U)
    ensures Cut(W, limit) == Cut(U, limit)
  {
    assert |W| == limit ==> W[..limit] == W;
    assert |U| == limit ==> U[..limit] == U;
  }

  /** Each stream cut to cap, all of it sorted, and that cut to limit. */
  function Merged(streams: seq<Stream>, q: Query, cap: nat, limit: nat): seq<Tagged> {
    Cut(Sort(TagAll(streams, q, cap), q.dir), limit)
  }

  /** For every set of streams, direction and limit: the limited merge of the capped
      streams is the limited merge of all of them. */
  lemma CapIsLossless(streams: seq<Stream>, q: Query, limit: nat)
    requires DistinctIds(streams)
    ensures StripAll(Merged(streams, q, limit, limit)) == StripAll(Merged(streams, q, 0, limit))
  {
    if limit > 0 {
      SameCuts(streams, q, limit, Merged(streams, q, limit, limit), Merged(streams, q, 0, limit));
    }
  }

  lemma SameCuts(streams: seq<Stream>, q: Query, limit: nat, cutC: seq<Tagged>, cutU: seq<Tagged>)
    requires DistinctIds(streams) && limit > 0
    requires cutC == Merged(streams, q, limit, limit) && cutU == Merged(streams, q, 0, limit)
    ensures StripAll(cutC) == StripAll(cutU)
  {
    var c, u := Sort(TagAll(streams, q, limit), q.dir), Sort(TagAll(streams, q, 0), q.dir);
    var C, U := StripAll(c), StripAll(u);
    SortedByPlace(streams, q, limit, C);
    SortedByPlace(streams, q, 0, U);
    CutsAgree(C, U, streams, q, limit);
    CutOfStripped(c, cutC, limit);
    CutOfStripped(u, cutU, limit);
  }

  lemma CutOfStripped(s: seq<Tagged>, cut: seq<Tagged>, limit: nat)
    requires cut == Cut(s, limit)
    ensures StripAll(cut) == Cut(StripAll(s), limit)
  {
  }

  // ---- query ----

  method KeepEntries(es: seq<Entry>, q: Query) returns (kept: seq<Entry>)
    ensures kept == Kept(es, q.endNs, q.endInclusive)
  {
    kept := [];
    var i := 0;
    while i < |es|
      invariant 0 <= i <= |es| && kept == Kept(es[..i], q.endNs, q.endInclusive)
    {
      assert es[..i + 1][..i] == es[..i];
      if (q.endInclusive || es[i].ts != q.endNs) && es[i].passes { kept := kept + [es[i]]; }
      i := i + 1;
    }
    assert es[..i] == es;
  }

  method TagEntries(id: nat, kept: seq<Entry>, seqNo: nat) returns (tags: seq<Tagged>)
    ensures tags == TagStream(id, kept, seqNo)
  {
    tags := [];
    var i := 0;
    while i < |kept|
      invariant 0 <= i <= |kept| && tags == TagStream(id, kept, seqNo)[..i]
    {
      tags := tags + [Tagged(id, kept[i], seqNo + i, i)];
      i := i + 1;
    }
  }

  /** The merge: filter, order and cut each stream, number what is left, order it all,
      cut. What it returns is what sorting everything and cutting once returns. */
  method Merge(streams: seq<Stream>, q: Query, limit: nat) returns (all: seq<Tagged>)
    requires DistinctIds(streams)
    ensures StripAll(all) == StripAll(Merged(streams, q, 0, limit))
  {
    all := [];
    var i := 0;
    while i < |streams|
      invariant 0 <= i <= |streams| && all == TagAll(streams[..i], q, limit)
    {
      assert streams[..i + 1][..i] == streams[..i];
      var kept := KeepEntries(streams[i].entries, q);
      kept := SortEntries(kept, q.dir);
      if limit > 0 && |kept| > limit { kept := kept[..limit]; }
      var tags := TagEntries(streams[i].id, kept, |all|);
      all := all + tags;
      i := i + 1;
    }
    assert streams[..i] == streams;
    all := Sort(all, q.dir);
    if limit > 0 && |all| > limit { all := all[..limit]; }
    CapIsLossless(streams, q, limit);
  }

  // ---- regrouping ----

  datatype Group = Group(key: nat, entries: seq<Entry>)

  /** The entries of the streams with this key, in merge order. */
  function EntriesOf(all: seq<Tagged>, keyOf: nat -> nat, key: nat): seq<Entry>
  {
    if all == [] then []
    else EntriesOf(all[..|all| - 1], keyOf, key) + (if keyOf(all[|all| - 1].id) == key then [all[|all| - 1].entry] else [])
  }

  /** The keys in order of first appearance. */
  function KeysOf(all: seq<Tagged>, keyOf: nat -> nat): seq<nat>
  {
    if all == [] then []
    else
      var r := KeysOf(all[..|all| - 1], keyOf);
      if keyOf(all[|all| - 1].id) in r then r else r + [keyOf(all[|all| - 1].id)]
  }

  /** Regrouping depends on streams and entries only, not on insertion numbers, so a
      lossless merge gives a lossless answer. */
  lemma {:induction false} GroupsIgnoreNumbers(a: seq<Tagged>, b: seq<Tagged>, keyOf: nat -> nat, key: nat)
    requires StripAll(a) == StripAll(b)
    ensures EntriesOf(a, keyOf, key) == EntriesOf(b, keyOf, key) && KeysOf(a, keyOf) == KeysOf(b, keyOf)
  {
    assert |a| == |StripAll(a)| == |StripAll(b)| == |b|;
    if a != [] {
      var n := |a| - 1;
      assert Strip(a[n]) == StripAll(a)[n] == StripAll(b)[n] == Strip(b[n]);
      assert StripAll(a[..n]) == StripAll(a)[..n] == StripAll(b)[..n] == StripAll(b[..n]);
      GroupsIgnoreNumbers(a[..n], b[..n], keyOf, key);
    }
  }

  lemma {:induction false} KeysAreUsed(all: seq<Tagged>, keyOf: nat -> nat)
    ensures forall k :: k !in KeysOf(all, keyOf) ==> EntriesOf(all, keyOf, k) == []
  {
    if all != [] { KeysAreUsed(all[..|all| - 1], keyOf); }
  }

  /** One group per key, in order of first appearance, each with its entries in merge
      order. */
  predicate IsGrouping(results: seq<Group>, all: seq<Tagged>, keyOf: nat -> nat)
  {
    |results| == |KeysOf(all, keyOf)| && forall i :: 0 <= i < |results| ==>
      results[i] == Group(KeysOf(all, keyOf)[i], EntriesOf(all, keyOf, KeysOf(all, keyOf)[i]))
  }

  /** Groups by key, leading with the stream of the first entry. */
  method Regroup(all: seq<Tagged>, keyOf: nat -> nat) returns (results: seq<Group>)
    ensures IsGrouping(results, all, keyOf)
  {
    var order: seq<nat>, grouped: map<nat, seq<Entry>> := [], map[];
    var i := 0;
    while i < |all|
      invariant 0 <= i <= |all| && Grouping(all[..i], keyOf, order, grouped)
    {
      var key := keyOf(all[i].id);
      ghost var order0, grouped0 := order, grouped;
      if key !in grouped { order := order + [key]; }
      grouped := grouped[key := (if key in grouped then grouped[key] else []) + [all[i].entry]];
      GroupingNext(all, i, keyOf, order0, grouped0, key, order, grouped);
      i := i + 1;
    }
    assert all[..i] == all;
    results := ListGroups(order, grouped);
  }

  method ListGroups(order: seq<nat>, grouped: map<nat, seq<Entry>>) returns (results: seq<Group>)
    requires forall k :: k in order ==> k in grouped
    ensures |results| == |order| && forall i :: 0 <= i < |order| ==> results[i] == Group(order[i], grouped[order[i]])
  {
    results := [];
    var i := 0;
    while i < |order|
      invariant 0 <= i <= |order| && |results| == i
      invariant forall j :: 0 <= j < i ==> results[j] == Group(order[j], grouped[order[j]])
    {
      results := results + [Group(order[i], grouped[order[i]])];
      i := i + 1;
    }
  }

  /** order and grouped hold the groups of s. */
  ghost predicate Grouping(s: seq<Tagged>, keyOf: nat -> nat, order: seq<nat>, grouped: map<nat, seq<Entry>>)
  {
    && order == KeysOf(s, keyOf) && (forall k :: k in grouped <==> k in order)
    && forall k :: k in grouped ==> grouped[k] == EntriesOf(s, keyOf, k)
  }

  lemma GroupingNext(all: seq<Tagged>, i: nat, keyOf: nat -> nat, order: seq<nat>, grouped: map<nat, seq<Entry>>,
                     key: nat, order': seq<nat>, grouped': map<nat, seq<Entry>>)
    requires i < |all| && Grouping(all[..i], keyOf, order, grouped)
    requires key == keyOf(all[i].id) && order' == (if key in grouped then order else order + [key])
    requires grouped' == grouped[key := (if key in grouped then grouped[key] else []) + [all[i].entry]]
    ensures Grouping(all[..i + 1], keyOf, order', grouped')
  {
    var s, s' := all[..i], all[..i + 1];
    assert s'[..i] == s && s'[i] == all[i];
    KeysAreUsed(s, keyOf);
    assert order' == KeysOf(s', keyOf);
    forall k | k in grouped' ensures grouped'[k] == EntriesOf(s', keyOf, k) {
      if k != key { assert EntriesOf(s', keyOf, k) == EntriesOf(s, keyOf, k) + []; }
    }
  }

  lemma SameGrouping(results: seq<Group>, a: seq<Tagged>, b: seq<Tagged>, keyOf: nat -> nat)
    requires StripAll(a) == StripAll(b)
    requires IsGrouping(results, a, keyOf)
    ensures IsGrouping(results, b, keyOf)
  {
    GroupsIgnoreNumbers(a, b, keyOf, 0);
    forall i | 0 <= i < |results|
      ensures results[i] == Group(KeysOf(b, keyOf)[i], EntriesOf(b, keyOf, KeysOf(b, keyOf)[i]))
    {
      GroupsIgnoreNumbers(a, b, keyOf, KeysOf(a, keyOf)[i]);
    }
  }

  /** The whole query: whatever the cap dropped, the groups are those of sorting every
      kept entry and cutting once. */
  method QueryStreams(streams: seq<Stream>, q: Query, limit: nat, keyOf: nat -> nat) returns (results: seq<Group>)
    requires DistinctIds(streams)
    ensures IsGrouping(results, Merged(streams, q, 0, limit), keyOf)
  {
    var all := Merge(streams, q, limit);
    results := Regroup(all, keyOf);
    SameGrouping(results, all, Merged(streams, q, 0, limit), keyOf);
  }
}
