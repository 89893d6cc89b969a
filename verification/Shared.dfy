/** Small definitions every module shares. */
module Options {
  datatype Option<+T> = None | Some(value: T)

  // ---- sequences read piece by piece, where reading may fail ----

  /** One element, then the rest if it could be read. */
  function Prefixed<T>(x: T, more: Option<seq<T>>): Option<seq<T>> {
    if more.None? then None else Some([x] + more.value)
  }

  /** What has been read, then the rest if it could be. */
  function Extended<T>(xs: seq<T>, more: Option<seq<T>>): Option<seq<T>> {
    if more.None? then None else Some(xs + more.value)
  }

  lemma ExtendedNone<T>(more: Option<seq<T>>)
    ensures Extended([], more) == more
  {
    if more.Some? { assert [] + more.value == more.value; }
  }

  lemma ExtendedOne<T>(xs: seq<T>, x: T, more: Option<seq<T>>)
    ensures Extended(xs, Prefixed(x, more)) == Extended(xs + [x], more)
  {
    if more.Some? { assert xs + ([x] + more.value) == xs + [x] + more.value; }
  }
}

module Sets {
  lemma SplitFirst<T>(s: seq<T>, i: nat)
    requires i < |s|
    ensures s[i..] == [s[i]] + s[i + 1..]
  {
  }

  lemma SplitAt<T>(s: seq<T>, i: nat)
    requires i <= |s|
    ensures s == s[..i] + s[i..]
  {
  }

  lemma SliceAll<T>(s: seq<T>)
    ensures s[..|s|] == s && s[0..] == s && s[..0] == [] && s[|s|..] == []
  {
  }

  lemma SubSlice<T>(s: seq<T>, a: nat, b: nat, i: nat, j: nat)
    requires a <= b <= |s| && i <= j <= b - a
    ensures s[a..b][i..j] == s[a + i..a + j]
  {
    var t, u := s[a..b][i..j], s[a + i..a + j];
    assert |t| == |u|;
    forall k | 0 <= k < |t| ensures t[k] == u[k] { assert t[k] == s[a..b][i + k] == s[a + i + k]; }
  }

  lemma DropTwice<T>(s: seq<T>, i: nat, n: nat)
    requires i + n <= |s|
    ensures s[i..][n..] == s[i + n..]
  {
  }

  lemma SameMap<K, V>(x: map<K, V>, y: map<K, V>)
    requires x.Keys == y.Keys && forall k :: k in x ==> x[k] == y[k]
    ensures x == y
  {
  }

  /** Concatenation is associative. */
  lemma ConcatAssoc<T>(a: seq<T>, b: seq<T>, c: seq<T>)
    ensures a + b + c == a + (b + c)
  {
  }

  /** Elements are distinct exactly when none is counted twice. */
  lemma {:induction false} DistinctCounts<T(!new)>(s: seq<T>)
    ensures (forall i, j :: 0 <= i < j < |s| ==> s[i] != s[j]) <==> forall x :: multiset(s)[x] <= 1
  {
    if s != [] {
      var p, x := s[..|s| - 1], s[|s| - 1];
      SplitLast(s);
      DistinctCounts(p);
      if forall y :: multiset(s)[y] <= 1 {
        assert forall y :: multiset(p)[y] <= multiset(s)[y];
        assert multiset(s)[x] == multiset(p)[x] + 1;
        assert x !in multiset(p);
        assert forall i :: 0 <= i < |p| ==> p[i] in multiset(p);
      }
      if forall i, j :: 0 <= i < j < |s| ==> s[i] != s[j] {
        assert x !in p;
        assert x !in multiset(p);
        forall y: T ensures multiset(s)[y] <= 1 { assert multiset(p)[y] <= 1; }
      }
    }
  }

  /** A map's number at k, or nothing. */
  function Or0<K>(m: map<K, real>, k: K): real { if k in m then m[k] else 0.0 }

  lemma SplitLast<T>(s: seq<T>)
    requires s != []
    ensures s == s[..|s| - 1] + [s[|s| - 1]]
    ensures multiset(s) == multiset(s[..|s| - 1]) + multiset{s[|s| - 1]}
  {
    assert s == s[..|s| - 1] + [s[|s| - 1]];
  }

  /** Adding x before the last element or after it comes to the same. */
  lemma AddBeforeLast<T>(p: multiset<T>, q: multiset<T>, s: multiset<T>, r: multiset<T>, x: T, last: T)
    requires q == p + multiset{x} && s == p + multiset{last} && r == q + multiset{last}
    ensures r == s + multiset{x}
  {
  }

  lemma LessToDo<T>(U: set<T>, todo: set<T>, x: T)
    requires x in todo
    ensures |U - (todo - {x})| == |U - todo| + (if x in U then 1 else 0)
  {
    assert U - (todo - {x}) == (U - todo) + (if x in U then {x} else {});
  }

  lemma {:induction false} SubsetSize<T>(A: set<T>, B: set<T>)
    requires A <= B
    ensures |A| <= |B| && (|A| == |B| ==> A == B)
  {
    if A != {} {
      var a :| a in A;
      SubsetSize(A - {a}, B - {a});
    }
  }
}

module Clock {
  /** start, start + step, ... up to end, in exact arithmetic. */
  function Ticks(start: int, end: int, step: int): set<int>
    requires step > 0
    decreases end - start
  {
    if start > end then {} else {start} + Ticks(start + step, end, step)
  }

  lemma {:induction false} TicksFrom(start: int, end: int, step: int)
    requires step > 0
    ensures forall t :: t in Ticks(start, end, step) ==> start <= t <= end
    decreases end - start
  {
    if start <= end { TicksFrom(start + step, end, step); }
  }

  /** The first multiple of step from start that lies past end. */
  function PastLast(start: int, end: int, step: int): int
    requires step > 0
    decreases end - start
  {
    if start > end then start else PastLast(start + step, end, step)
  }

  lemma {:induction false} PastLastIsPast(start: int, end: int, step: int)
    requires step > 0
    ensures PastLast(start, end, step) > end && PastLast(start, end, step) >= start
    decreases end - start
  {
    if start <= end { PastLastIsPast(start + step, end, step); }
  }

  lemma {:induction false} LastTickIs(start: int, end: int, step: int)
    requires step > 0 && start <= end
    ensures start <= PastLast(start, end, step) - step <= end
    decreases end - start
  {
    if start + step <= end { LastTickIs(start + step, end, step); }
  }

  lemma {:induction false} PastLastAfter(start: int, end: int, step: int, n: nat)
    requires step > 0 && n * step <= end - start < n * step + step
    ensures PastLast(start, end, step) == start + n * step + step
    decreases n
  {
    if n > 0 {
      assert n * step == (n - 1) * step + step;
      assert (n - 1) * step >= 0;
      PastLastAfter(start + step, end, step, n - 1);
    }
  }

  /** In closed form. */
  lemma PastLastIs(start: int, end: int, step: int)
    requires step > 0 && start <= end
    ensures PastLast(start, end, step) == start + ((end - start) / step) * step + step
  {
    var x := end - start;
    assert x == (x / step) * step + x % step;
    PastLastAfter(start, end, step, x / step);
  }

  /** A tick is a whole number of steps after the start, and not past the end. */
  lemma {:induction false} TickIs(start: int, end: int, step: int, t: int) returns (k: nat)
    requires step > 0 && t in Ticks(start, end, step)
    ensures t == start + k * step && start <= t <= end
    decreases end - start
  {
    if t == start { return 0; }
    var j := TickIs(start + step, end, step, t);
    assert (j + 1) * step == j * step + step;
    k := j + 1;
  }

  lemma {:induction false} TicksAre(start: int, end: int, step: int, k: nat)
    requires step > 0
    ensures start + k * step in Ticks(start, end, step) <==> start + k * step <= end
    decreases k
  {
    TicksFrom(start, end, step);
    if k > 0 {
      assert k * step == (k - 1) * step + step;
      assert (k - 1) * step >= 0;
      TicksAre(start + step, end, step, k - 1);
    }
  }
}
