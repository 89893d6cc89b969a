/** Samples and the one merge rule of the system: at one series and timestamp the
    sample with the higher (generation, value bits) wins. Every read path, the
    compactor and start-up reclamation decide with it, so all of them are related
    to one set-level notion here: the view of a set of samples. */
module Samples {

  /** One stored sample. A value enters only through its 64-bit pattern. */
  datatype Sample = Sample(series: nat, ts: int, bits: nat, gen: int)

  predicate SameKey(a: Sample, b: Sample) {
    a.series == b.series && a.ts == b.ts
  }

  /** The higher generation wins; an exact tie goes to the larger bit pattern. */
  predicate Outranks(a: Sample, b: Sample) {
    if a.gen != b.gen then a.gen > b.gen else a.bits > b.bits
  }

  /** a is b, or a replaces b. */
  predicate AtLeast(a: Sample, b: Sample) {
    SameKey(a, b) && (a == b || Outranks(a, b))
  }

  predicate Covers(S: set<Sample>, x: Sample) {
    exists y :: y in S && AtLeast(y, x)
  }

  predicate CoversAll(S: set<Sample>, T: set<Sample>) {
    forall x {:trigger Covers(S, x)} :: x in T ==> Covers(S, x)
  }

  /** No member of S replaces x. */
  predicate Unbeaten(S: set<Sample>, x: Sample) {
    forall y :: y in S && SameKey(y, x) ==> !Outranks(y, x)
  }

  /** The last-write-wins view: what a query over S can see. */
  function View(S: set<Sample>): set<Sample> {
    set x | x in S && Unbeaten(S, x)
  }

  lemma OutranksIsStrictTotal(a: Sample, b: Sample, c: Sample)
    requires SameKey(a, b) && SameKey(b, c)
    ensures !Outranks(a, a)
    ensures a == b || Outranks(a, b) || Outranks(b, a)
    ensures !(Outranks(a, b) && Outranks(b, a))
    ensures Outranks(a, b) && Outranks(b, c) ==> Outranks(a, c)
  {
  }

  /** Every key of S has a winner: x is replaced by some member of the view. */
  lemma {:induction false} ViewCovers(S: set<Sample>, x: Sample)
    requires x in S
    ensures exists w :: w in View(S) && AtLeast(w, x)
    decreases S
  {
    if z :| z in S && SameKey(z, x) && Outranks(z, x) {
      ViewCovers(S - {x}, z);
      var w :| w in View(S - {x}) && AtLeast(w, z);
      assert w in View(S) && AtLeast(w, x);
    } else {
      assert x in View(S) && AtLeast(x, x);
    }
  }

  /** The view in plain terms: at each series and timestamp the sample with the highest
      generation, and among those the largest bits. */
  lemma WinnerIff(S: set<Sample>, w: Sample)
    ensures w in View(S) <==> w in S && forall y :: y in S && y.series == w.series && y.ts == w.ts ==>
      y.gen < w.gen || (y.gen == w.gen && y.bits <= w.bits)
  {
    if w in S && forall y :: y in S && y.series == w.series && y.ts == w.ts ==> y.gen < w.gen || (y.gen == w.gen && y.bits <= w.bits) {
      assert Unbeaten(S, w);
    }
    if w in View(S) {
      forall y | y in S && y.series == w.series && y.ts == w.ts ensures y.gen < w.gen || (y.gen == w.gen && y.bits <= w.bits) {
        assert SameKey(y, w) && !Outranks(y, w);
      }
    }
  }

  /** A set covers x when it holds, at x's series and timestamp, a later generation, or the
      same one with bits at least as large. */
  lemma CoversIff(S: set<Sample>, x: Sample)
    ensures Covers(S, x) <==> exists y :: y in S && y.series == x.series && y.ts == x.ts && (y.gen > x.gen || (y.gen == x.gen && y.bits >= x.bits))
  {
    if y :| y in S && y.series == x.series && y.ts == x.ts && (y.gen > x.gen || (y.gen == x.gen && y.bits >= x.bits)) {
      assert AtLeast(y, x);
    }
    if Covers(S, x) {
      var y :| y in S && AtLeast(y, x);
      assert y.gen > x.gen || (y.gen == x.gen && y.bits >= x.bits);
    }
  }

  lemma ViewUnique(S: set<Sample>, x: Sample, y: Sample)
    requires x in View(S) && y in View(S) && SameKey(x, y)
    ensures x == y
  {
    OutranksIsStrictTotal(x, y, x);
  }

  lemma CoversTrans(S: set<Sample>, T: set<Sample>, U: set<Sample>)
    requires CoversAll(S, T) && CoversAll(T, U)
    ensures CoversAll(S, U)
  {
    forall x | x in U ensures Covers(S, x) {
      assert Covers(T, x);
      var y :| y in T && AtLeast(y, x);
      assert Covers(S, y);
      var z :| z in S && AtLeast(z, y);
      assert AtLeast(z, x);
    }
  }

  lemma CoversOne(S: set<Sample>, T: set<Sample>, x: Sample)
    requires CoversAll(S, T) && Covers(T, x)
    ensures Covers(S, x)
  {
    var y :| y in T && AtLeast(y, x);
    assert Covers(S, y);
    var z :| z in S && AtLeast(z, y);
    assert AtLeast(z, x);
  }

  lemma CoversGrow(S: set<Sample>, S': set<Sample>, T: set<Sample>)
    requires S <= S' && CoversAll(S, T)
    ensures CoversAll(S', T)
  {
    forall x | x in T ensures Covers(S', x) {
      assert Covers(S, x);
      var y :| y in S && AtLeast(y, x);
      assert y in S';
    }
  }

  lemma CoversSelf(S: set<Sample>, T: set<Sample>)
    requires T <= S
    ensures CoversAll(S, T)
  {
    forall x | x in T ensures Covers(S, x) { assert x in S && AtLeast(x, x); }
  }

  lemma ViewSubset(S: set<Sample>, T: set<Sample>)
    requires CoversAll(S, T) && CoversAll(T, S)
    ensures View(S) <= View(T)
  {
    forall x | x in View(S) ensures x in View(T) {
      assert Covers(T, x);
      var t :| t in T && AtLeast(t, x);
      assert Covers(S, t);
      var s :| s in S && AtLeast(s, t);
      assert Unbeaten(S, x) && s == x && t == x;
      forall y | y in T && SameKey(y, x) ensures !Outranks(y, x) {
        assert Covers(S, y);
        var s' :| s' in S && AtLeast(s', y);
        assert !Outranks(s', x);
      }
      assert Unbeaten(T, x);
    }
  }

  /** Two sets have the same view exactly when each covers the other. */
  lemma SameViewIff(S: set<Sample>, T: set<Sample>)
    ensures View(S) == View(T) <==> CoversAll(S, T) && CoversAll(T, S)
  {
    if CoversAll(S, T) && CoversAll(T, S) {
      ViewSubset(S, T);
      ViewSubset(T, S);
    }
    if View(S) == View(T) {
      forall x | x in T ensures Covers(S, x) { ViewCovers(T, x); }
      forall x | x in S ensures Covers(T, x) { ViewCovers(S, x); }
    }
  }

  /** The view of a set that lost only covered samples is unchanged. */
  lemma DroppingCoveredKeepsView(S: set<Sample>, T: set<Sample>)
    requires T <= S && CoversAll(T, S)
    ensures View(T) == View(S)
  {
    CoversSelf(S, T);
    SameViewIff(S, T);
  }

  lemma ViewOfView(S: set<Sample>)
    ensures View(View(S)) == View(S)
  {
    forall x | x in S ensures Covers(View(S), x) { ViewCovers(S, x); }
    DroppingCoveredKeepsView(S, View(S));
  }

  /** Merging is a semilattice: viewing one side first changes nothing, so folding
      any number of sources in any order and any nesting gives one view. */
  lemma MergeAlgebra(A: set<Sample>, B: set<Sample>, C: set<Sample>)
    ensures View(View(A) + B) == View(A + B)
    ensures View(View(A + B) + C) == View(A + View(B + C))
    ensures View(A + B) == View(B + A)
    ensures View(A + A) == View(A)
  {
    ViewFirst(A, B);
    ViewFirst(A + B, C);
    ViewFirst(B + C, A);
    assert A + View(B + C) == View(B + C) + A;
    assert A + B + C == B + C + A;
    assert A + B == B + A;
    assert A + A == A;
  }

  lemma ViewFirst(A: set<Sample>, B: set<Sample>)
    ensures View(View(A) + B) == View(A + B)
  {
    forall x | x in A + B ensures Covers(View(A) + B, x) {
      if x in A {
        ViewCovers(A, x);
      } else {
        assert AtLeast(x, x);
      }
    }
    DroppingCoveredKeepsView(A + B, View(A) + B);
  }

  // ---- sequences: sort and dedup ----

  function SetOf(s: seq<Sample>): set<Sample> {
    set x | x in s
  }

  predicate SortedByTs(s: seq<Sample>) {
    forall i, j :: 0 <= i < j < |s| ==> s[i].ts <= s[j].ts
  }

  predicate Ascending(s: seq<Sample>) {
    forall i, j :: 0 <= i < j < |s| ==> s[i].ts < s[j].ts
  }

  predicate OneSeries(S: set<Sample>, id: nat) {
    forall x :: x in S ==> x.series == id
  }

  /** Insertion after the last element that is not later. */
  function InsertByTs(s: seq<Sample>, x: Sample): (r: seq<Sample>)
    ensures |r| == |s| + 1
  {
    if s == [] || s[|s| - 1].ts <= x.ts then s + [x]
    else InsertByTs(s[..|s| - 1], x) + [s[|s| - 1]]
  }

  /** sort.SliceStable by timestamp. */
  function SortByTs(s: seq<Sample>): (r: seq<Sample>)
    ensures |r| == |s|
  {
    if s == [] then [] else InsertByTs(SortByTs(s[..|s| - 1]), s[|s| - 1])
  }

  lemma {:induction false} InsertIsSorted(s: seq<Sample>, x: Sample)
    requires SortedByTs(s)
    ensures var r := InsertByTs(s, x);
      SortedByTs(r) && r[|s|].ts == if s == [] || s[|s| - 1].ts <= x.ts then x.ts else s[|s| - 1].ts
  {
    if s != [] && s[|s| - 1].ts > x.ts {
      InsertIsSorted(s[..|s| - 1], x);
      var q := InsertByTs(s[..|s| - 1], x);
      assert forall i :: 0 <= i < |q| ==> q[i].ts <= q[|q| - 1].ts;
    }
  }

  lemma {:induction false} InsertPermutes(s: seq<Sample>, x: Sample)
    ensures multiset(InsertByTs(s, x)) == multiset(s) + multiset{x}
  {
    if s != [] && s[|s| - 1].ts > x.ts {
      InsertPermutes(s[..|s| - 1], x);
      assert s == s[..|s| - 1] + [s[|s| - 1]];
    }
  }

  lemma {:induction false} SortIsSorted(s: seq<Sample>)
    ensures SortedByTs(SortByTs(s))
  {
    if s != [] {
      SortIsSorted(s[..|s| - 1]);
      InsertIsSorted(SortByTs(s[..|s| - 1]), s[|s| - 1]);
    }
  }

  lemma {:induction false} SortPermutes(s: seq<Sample>)
    ensures multiset(SortByTs(s)) == multiset(s)
  {
    if s != [] {
      SortPermutes(s[..|s| - 1]);
      InsertPermutes(SortByTs(s[..|s| - 1]), s[|s| - 1]);
      assert s == s[..|s| - 1] + [s[|s| - 1]];
    }
  }

  /** What the dedup loop leaves of a sorted slice. */
  function Dedup(s: seq<Sample>): (d: seq<Sample>)
    ensures |d| <= |s|
    ensures |s| > 0 ==> |d| > 0 && d[|d| - 1].ts == s[|s| - 1].ts
  {
    if |s| <= 1 then s
    else
      var d := Dedup(s[..|s| - 1]);
      var x := s[|s| - 1];
      var last := d[|d| - 1];
      if x.ts == last.ts then
        if Outranks(x, last) then d[..|d| - 1] + [x] else d
      else d + [x]
  }

  function SortAndDedup(s: seq<Sample>): seq<Sample> {
    Dedup(SortByTs(s))
  }

  /** The in-place dedup of a sorted slice: the write index never passes the read
      index, so the result shares the input's backing array. */
  method DedupByGeneration(a: array<Sample>) returns (w: nat)
    modifies a
    ensures w <= a.Length
    ensures a[..w] == Dedup(old(a[..]))
  {
    if a.Length <= 1 {
      assert a[..a.Length] == a[..];
      return a.Length;
    }
    w := 1;
    var i := 1;
    assert a[..1] == old(a[..])[..1];
    while i < a.Length
      invariant 1 <= w <= i <= a.Length
      invariant a[..w] == Dedup(old(a[..])[..i])
      invariant forall k :: i <= k < a.Length ==> a[k] == old(a[k])
    {
      ghost var before := a[..w];
      ghost var all := old(a[..]);
      assert all[..i + 1][..i] == all[..i];
      assert before[|before| - 1] == a[w - 1];
      if a[i].ts == a[w - 1].ts {
        if Outranks(a[i], a[w - 1]) {
          a[w - 1] := a[i];
          assert a[..w] == before[..w - 1] + [all[i]];
        }
      } else {
        a[w] := a[i];
        w := w + 1;
        assert a[..w] == before + [all[i]];
      }
      i := i + 1;
    }
    assert old(a[..])[..a.Length] == old(a[..]);
  }

  method SortAndDedupInPlace(a: array<Sample>) returns (w: nat)
    modifies a
    ensures w <= a.Length
    ensures a[..w] == SortAndDedup(old(a[..]))
  {
    var s := SortByTs(a[..]);
    forall i | 0 <= i < a.Length { a[i] := s[i]; }
    assert a[..] == s;
    w := DedupByGeneration(a);
  }

  lemma SetOfAppend(s: seq<Sample>, x: Sample)
    ensures SetOf(s + [x]) == SetOf(s) + {x}
  {
    forall y ensures y in SetOf(s + [x]) <==> y in SetOf(s) + {x} {
      assert y in s + [x] <==> y in s || y == x;
    }
  }

  lemma SetOfConcat(s: seq<Sample>, t: seq<Sample>)
    ensures SetOf(s + t) == SetOf(s) + SetOf(t)
  {
    forall y ensures y in SetOf(s + t) <==> y in SetOf(s) + SetOf(t) {
      assert y in s + t <==> y in s || y in t;
    }
  }

  /** A sample at a key no member of S has joins the view. */
  lemma ViewOfNewKey(S: set<Sample>, x: Sample)
    requires forall y :: y in S ==> !SameKey(x, y)
    ensures View(S + {x}) == View(S) + {x}
  {
    forall y ensures y in View(S + {x}) <==> y in View(S) + {x} {
      if y in S { assert Unbeaten(S, y) <==> Unbeaten(S + {x}, y); }
      if y == x { assert Unbeaten(S + {x}, x); }
    }
  }

  /** A sample at a key won by w replaces w, or nothing changes. */
  lemma ViewOfSeenKey(S: set<Sample>, w: Sample, x: Sample)
    requires w in View(S) && SameKey(x, w)
    ensures View(S + {x}) == if Outranks(x, w) then View(S) - {w} + {x} else View(S)
  {
    if Outranks(x, w) {
      forall y | y in S && SameKey(y, x) ensures AtLeast(w, y) {
        assert Unbeaten(S, w);
      }
      assert Unbeaten(S + {x}, x);
      forall y | y in S && y != x ensures y in View(S + {x}) <==> y in View(S) && y != w {
        if SameKey(y, x) {
          assert Outranks(x, y);
          if y in View(S) { ViewUnique(S, y, w); }
        } else {
          assert Unbeaten(S, y) <==> Unbeaten(S + {x}, y);
        }
      }
      assert x !in View(S) by { if x in View(S) { ViewUnique(S, x, w); } }
    } else {
      forall y | y in S + {x} ensures Covers(S, y) {
        assert if y in S then AtLeast(y, y) else AtLeast(w, y);
      }
      DroppingCoveredKeepsView(S + {x}, S);
    }
  }

  /** Dedup of a sorted slice lists exactly the view, one sample per timestamp. */
  lemma {:induction false} DedupIsView(s: seq<Sample>, id: nat)
    requires SortedByTs(s) && OneSeries(SetOf(s), id)
    ensures Ascending(Dedup(s))
    ensures SetOf(Dedup(s)) == View(SetOf(s))
  {
    if |s| == 1 {
      assert s == [s[0]];
      assert SetOf(s) == {s[0]};
      assert Unbeaten({s[0]}, s[0]);
    } else if |s| > 1 {
      var p, x := s[..|s| - 1], s[|s| - 1];
      assert s == p + [x];
      SetOfAppend(p, x);
      DedupIsView(p, id);
      DedupStep(p, x, id);
    }
  }

  lemma DedupStep(p: seq<Sample>, x: Sample, id: nat)
    requires |p| > 0 && SortedByTs(p + [x]) && OneSeries(SetOf(p + [x]), id)
    requires Ascending(Dedup(p)) && SetOf(Dedup(p)) == View(SetOf(p))
    ensures Ascending(Dedup(p + [x]))
    ensures SetOf(Dedup(p + [x])) == View(SetOf(p) + {x})
  {
    var d := Dedup(p);
    DedupNext(p, x, d);
    SetOfAppend(p, x);
    assert OneSeries(SetOf(p), id) && x.series == id;
    if x.ts == d[|d| - 1].ts {
      DedupTie(p, d, x, id);
    } else {
      DedupNew(p, d, x);
    }
  }

  lemma DedupNext(p: seq<Sample>, x: Sample, d: seq<Sample>)
    requires |p| > 0 && d == Dedup(p)
    ensures |d| > 0 && d[|d| - 1].ts == p[|p| - 1].ts
    ensures var last := d[|d| - 1];
      Dedup(p + [x]) == if x.ts != last.ts then d + [x] else if Outranks(x, last) then d[..|d| - 1] + [x] else d
  {
    assert (p + [x])[..|p|] == p;
  }

  lemma DedupTie(p: seq<Sample>, d: seq<Sample>, x: Sample, id: nat)
    requires |d| > 0 && Ascending(d) && SetOf(d) == View(SetOf(p))
    requires OneSeries(SetOf(p), id) && x.series == id
    requires x.ts == d[|d| - 1].ts
    ensures var r := if Outranks(x, d[|d| - 1]) then d[..|d| - 1] + [x] else d;
      Ascending(r) && SetOf(r) == View(SetOf(p) + {x})
  {
    var rest, last := d[..|d| - 1], d[|d| - 1];
    assert d == rest + [last];
    SetOfAppend(rest, last);
    SetOfAppend(rest, x);
    assert last in SetOf(d);
    assert last in SetOf(p);
    ViewOfSeenKey(SetOf(p), last, x);
    assert last !in SetOf(rest) by { assert forall i :: 0 <= i < |rest| ==> rest[i] == d[i]; }
  }

  lemma DedupNew(p: seq<Sample>, d: seq<Sample>, x: Sample)
    requires |p| > 0 && SortedByTs(p + [x]) && SetOf(d) == View(SetOf(p))
    requires |d| > 0 && Ascending(d) && d[|d| - 1].ts == p[|p| - 1].ts != x.ts
    ensures Ascending(d + [x]) && SetOf(d + [x]) == View(SetOf(p) + {x})
  {
    assert (p + [x])[|p| - 1] == p[|p| - 1] && (p + [x])[|p|] == x;
    SetOfAppend(d, x);
    forall y | y in SetOf(p) ensures !SameKey(x, y) {
      var k :| 0 <= k < |p| && p[k] == y;
      assert (p + [x])[k] == y && (p + [x])[k].ts <= (p + [x])[|p| - 1].ts;
    }
    ViewOfNewKey(SetOf(p), x);
  }

  lemma {:induction false} AscendingUnique(s: seq<Sample>, t: seq<Sample>)
    requires Ascending(s) && Ascending(t) && SetOf(s) == SetOf(t)
    ensures s == t
  {
    if s == [] {
      assert forall k :: 0 <= k < |t| ==> t[k] in SetOf(t);
    } else {
      var x := s[|s| - 1];
      assert x in SetOf(s) && x in SetOf(t) && x in t;
      var y := t[|t| - 1];
      assert y in SetOf(t) && y in SetOf(s) && y in s;
      assert x == y;
      var p, q := s[..|s| - 1], t[..|t| - 1];
      assert s == p + [x] && t == q + [x];
      AscendingFront(p, x);
      AscendingFront(q, x);
      AscendingUnique(p, q);
    }
  }

  lemma AscendingFront(p: seq<Sample>, x: Sample)
    requires Ascending(p + [x])
    ensures Ascending(p) && SetOf(p) == SetOf(p + [x]) - {x}
  {
    var s := p + [x];
    assert s[|p|] == x && forall k :: 0 <= k < |p| ==> s[k] == p[k];
    SetOfAppend(p, x);
  }

  /** sortAndDedup lists the view in timestamp order. */
  lemma SortAndDedupIsView(s: seq<Sample>, id: nat)
    requires OneSeries(SetOf(s), id)
    ensures Ascending(SortAndDedup(s))
    ensures SetOf(SortAndDedup(s)) == View(SetOf(s))
  {
    SortKeepsSet(s);
    SortIsSorted(s);
    DedupIsView(SortByTs(s), id);
  }

  lemma SortKeepsSet(s: seq<Sample>)
    ensures SetOf(SortByTs(s)) == SetOf(s)
  {
    SortPermutes(s);
    forall x ensures x in SortByTs(s) <==> x in s {
      assert x in SortByTs(s) <==> x in multiset(SortByTs(s));
      assert x in s <==> x in multiset(s);
    }
  }

  /** The outcome depends only on which samples are present, not on their order or
      how often each was read. */
  lemma SortAndDedupCanonical(s: seq<Sample>, t: seq<Sample>, id: nat)
    requires OneSeries(SetOf(s), id) && OneSeries(SetOf(t), id)
    ensures SortAndDedup(s) == SortAndDedup(t) <==> View(SetOf(s)) == View(SetOf(t))
  {
    SortAndDedupIsView(s, id);
    SortAndDedupIsView(t, id);
    if View(SetOf(s)) == View(SetOf(t)) {
      AscendingUnique(SortAndDedup(s), SortAndDedup(t));
    }
  }
}
