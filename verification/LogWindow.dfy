/** The log-metric sliding window: one pass with two pointers over sorted entries,
    against the definition that looks at every entry for every tick. */
module LogWindow {
  import opened Clock
  import opened Chunks
  import opened Sets

  /** A kept entry: its timestamp, and its weight under the operation (1, or its
      line's bytes). */
  datatype Entry = Entry(ts: int, weight: nat)

  predicate Sorted(es: seq<Entry>) {
    forall i, j :: 0 <= i < j < |es| ==> es[i].ts <= es[j].ts
  }

  predicate EntriesOk(es: seq<Entry>) {
    Sorted(es) && forall i :: 0 <= i < |es| ==> Int64(es[i].ts)
  }

  // ---- the definition ----

  /** The summed weight of every entry in (lo, hi]. */
  function WindowSum(es: seq<Entry>, lo: int, hi: int): int {
    if es == [] then 0
    else WindowSum(es[..|es| - 1], lo, hi) + (if lo < es[|es| - 1].ts <= hi then es[|es| - 1].weight else 0)
  }

  function WindowCount(es: seq<Entry>, lo: int, hi: int): nat {
    if es == [] then 0
    else WindowCount(es[..|es| - 1], lo, hi) + (if lo < es[|es| - 1].ts <= hi then 1 else 0)
  }

  // ---- windowStart ----

  function WindowStart(t: int, range: int): (lo: int)
    requires Int64(t) && 0 < range <= MAX_INT64
    ensures Int64(lo) && lo == Max(t - range, MIN_INT64)
  {
    if t < MIN_INT64 + range then MIN_INT64 else t - range
  }

  /** The clamped start selects the same entries exactly when no entry sits at the
      first representable instant of a clamped window. */
  lemma ClampExactIff(e: Entry, t: int, range: int)
    requires Int64(t) && 0 < range <= MAX_INT64 && Int64(e.ts)
    ensures (WindowStart(t, range) < e.ts <= t <==> t - range < e.ts <= t) <==> !(e.ts == MIN_INT64 && t - range < MIN_INT64)
  {
  }

  /** Why entries must be validated: one at the first instant is missed by a window
      that reaches past it. */
  lemma FirstInstantIsMissed()
    ensures WindowSum([Entry(MIN_INT64, 1)], MIN_INT64 - 1, MIN_INT64) == 1
    ensures WindowSum([Entry(MIN_INT64, 1)], WindowStart(MIN_INT64, 1), MIN_INT64) == 0
  {
    assert [Entry(MIN_INT64, 1)][..0] == [];
  }

  /** How many entries sit at the first instant. */
  function AtFirst(es: seq<Entry>): nat {
    if es == [] then 0 else AtFirst(es[..|es| - 1]) + (if es[|es| - 1].ts == MIN_INT64 then 1 else 0)
  }

  lemma {:induction false} AtFirstIff(es: seq<Entry>)
    ensures AtFirst(es) > 0 <==> exists i :: 0 <= i < |es| && es[i].ts == MIN_INT64
  {
    if es != [] {
      AtFirstIff(es[..|es| - 1]);
      assert forall i :: 0 <= i < |es| - 1 ==> es[..|es| - 1][i] == es[i];
    }
  }

  /** A clamped window loses the entries at the first instant, and nothing else does. */
  lemma {:induction false} ClampLoses(es: seq<Entry>, t: int, range: int)
    requires Int64(t) && 0 < range <= MAX_INT64 && forall i :: 0 <= i < |es| ==> Int64(es[i].ts)
    ensures WindowCount(es, t - range, t) == WindowCount(es, WindowStart(t, range), t) + (if t - range < MIN_INT64 then AtFirst(es) else 0)
  {
    if es != [] { ClampLoses(es[..|es| - 1], t, range); }
  }

  /** The clamp changes no count exactly when it is not used or nothing sits there. */
  predicate ClampHarmless(es: seq<Entry>, t: int, range: int) {
    t - range >= MIN_INT64 || forall i :: 0 <= i < |es| ==> es[i].ts != MIN_INT64
  }

  lemma ClampCountIff(es: seq<Entry>, t: int, range: int)
    requires Int64(t) && 0 < range <= MAX_INT64 && forall i :: 0 <= i < |es| ==> Int64(es[i].ts)
    ensures WindowCount(es, WindowStart(t, range), t) == WindowCount(es, t - range, t) <==> ClampHarmless(es, t, range)
  {
    ClampLoses(es, t, range);
    AtFirstIff(es);
  }

  lemma {:induction false} ClampKeepsWindow(es: seq<Entry>, t: int, range: int)
    requires Int64(t) && 0 < range <= MAX_INT64 && forall i :: 0 <= i < |es| ==> Int64(es[i].ts)
    requires ClampHarmless(es, t, range)
    ensures WindowSum(es, WindowStart(t, range), t) == WindowSum(es, t - range, t)
    ensures WindowCount(es, WindowStart(t, range), t) == WindowCount(es, t - range, t)
  {
    if es != [] { ClampKeepsWindow(es[..|es| - 1], t, range); }
  }

  // ---- what a store lets in ----

  const MAX_LINE := 256 * 1024

  datatype Verdict = Accepted | BadTimestamp | LineTooLong

  /** ValidateEntry, which both write paths run before an entry is stored: the
      timestamp first, then the line's size in bytes. */
  function ValidateEntry(ts: int, line: nat): (v: Verdict)
    ensures v.Accepted? <==> ts > 0 && line <= MAX_LINE
    ensures v.BadTimestamp? <==> ts <= 0
  {
    if ts <= 0 then BadTimestamp else if line > MAX_LINE then LineTooLong else Accepted
  }

  /** Every entry has passed ValidateEntry. */
  ghost predicate Stored(es: seq<Entry>) {
    forall i :: 0 <= i < |es| ==> exists line: nat {:trigger ValidateEntry(es[i].ts, line)} :: ValidateEntry(es[i].ts, line).Accepted?
  }

  // ---- what a stream adds ----

  predicate AllInt64(ticks: set<int>) { forall t :: t in ticks ==> Int64(t) }

  /** What tick t adds when its window is not empty. */
  function TickWeight(es: seq<Entry>, range: int, scale: real, t: int): real
    requires Int64(t) && 0 < range <= MAX_INT64
  {
    scale * (WindowSum(es, WindowStart(t, range), t) as real)
  }

  function NonEmpty(es: seq<Entry>, range: int, ticks: set<int>): set<int>
    requires AllInt64(ticks) && 0 < range <= MAX_INT64
  {
    set t | t in ticks && WindowCount(es, WindowStart(t, range), t) > 0
  }

  /** What one stream adds to its group: at each tick with a non-empty window, scale
      times the window's weight. A zero sum still makes a point. */
  function WithWindows(values: map<int, real>, es: seq<Entry>, range: int, scale: real, ticks: set<int>): map<int, real>
    requires AllInt64(ticks) && 0 < range <= MAX_INT64
  {
    map t | t in values.Keys + NonEmpty(es, range, ticks) ::
      Or0(values, t) + (if t in NonEmpty(es, range, ticks) then TickWeight(es, range, scale, t) else 0.0)
  }

  /** The same over the unclamped window (t - range, t]. */
  function WithExactWindows(values: map<int, real>, es: seq<Entry>, range: int, scale: real, ticks: set<int>): map<int, real> {
    map t | t in values.Keys + (set u | u in ticks && WindowCount(es, u - range, u) > 0) ::
      Or0(values, t) + (if t in ticks && WindowCount(es, t - range, t) > 0 then scale * (WindowSum(es, t - range, t) as real) else 0.0)
  }

  /** Where the clamp is harmless at every tick it never shows. */
  lemma WindowsAreExact(values: map<int, real>, es: seq<Entry>, range: int, scale: real, ticks: set<int>)
    requires AllInt64(ticks) && 0 < range <= MAX_INT64 && forall i :: 0 <= i < |es| ==> Int64(es[i].ts)
    requires forall t :: t in ticks ==> ClampHarmless(es, t, range)
    ensures WithWindows(values, es, range, scale, ticks) == WithExactWindows(values, es, range, scale, ticks)
  {
    forall t | t in ticks
      ensures WindowSum(es, WindowStart(t, range), t) == WindowSum(es, t - range, t)
      ensures WindowCount(es, WindowStart(t, range), t) == WindowCount(es, t - range, t)
      ensures TickWeight(es, range, scale, t) == scale * (WindowSum(es, t - range, t) as real)
    {
      ClampKeepsWindow(es, t, range);
    }
    assert NonEmpty(es, range, ticks) == set u | u in ticks && WindowCount(es, u - range, u) > 0;
  }

  /** Stored entries are later than the epoch, so no window of theirs is clamped into. */
  lemma StoredAreExact(values: map<int, real>, es: seq<Entry>, range: int, scale: real, ticks: set<int>)
    requires AllInt64(ticks) && 0 < range <= MAX_INT64 && (forall i :: 0 <= i < |es| ==> Int64(es[i].ts)) && Stored(es)
    ensures WithWindows(values, es, range, scale, ticks) == WithExactWindows(values, es, range, scale, ticks)
  {
    forall i | 0 <= i < |es| ensures es[i].ts > 0 {
      var line: nat :| ValidateEntry(es[i].ts, line).Accepted?;
    }
    WindowsAreExact(values, es, range, scale, ticks);
  }

  // ---- the two pointers ----

  /** The weight of entries i to j - 1. */
  function Between(es: seq<Entry>, i: nat, j: nat): int
    requires i <= j <= |es|
  {
    if i == j then 0 else Between(es, i, j - 1) + es[j - 1].weight
  }

  lemma {:induction false} BetweenDropsFirst(es: seq<Entry>, i: nat, j: nat)
    requires i < j <= |es|
    ensures Between(es, i, j) == es[i].weight + Between(es, i + 1, j)
  {
    if i + 1 < j { BetweenDropsFirst(es, i, j - 1); }
  }

  lemma {:induction false} BetweenPrefix(es: seq<Entry>, i: nat, j: nat, n: nat)
    requires i <= j <= n <= |es|
    ensures Between(es[..n], i, j) == Between(es, i, j)
  {
    if i < j { BetweenPrefix(es, i, j - 1, n); }
  }

  lemma {:induction false} WindowIsBetween(es: seq<Entry>, lo: int, hi: int, i: nat, j: nat)
    requires i <= j <= |es|
    requires forall k :: 0 <= k < i ==> es[k].ts <= lo
    requires forall k :: i <= k < j ==> lo < es[k].ts <= hi
    requires forall k :: j <= k < |es| ==> es[k].ts > hi
    ensures WindowSum(es, lo, hi) == Between(es, i, j) && WindowCount(es, lo, hi) == j - i
  {
    if es != [] {
      var n := |es| - 1;
      if j == |es| {
        if i == j {
          WindowIsBetween(es[..n], lo, hi, n, n);
        } else {
          WindowIsBetween(es[..n], lo, hi, i, n);
          BetweenPrefix(es, i, n, n);
        }
      } else {
        WindowIsBetween(es[..n], lo, hi, i, j);
        BetweenPrefix(es, i, j, n);
      }
    }
  }

  /** [tail, head) holds nothing after t or still to come into the window. */
  predicate Behind(es: seq<Entry>, range: int, t: int, tail: int, head: int)
    requires Int64(t) && 0 < range <= MAX_INT64
  {
    && 0 <= tail <= head <= |es|
    && (forall k :: 0 <= k < head ==> es[k].ts <= t) && (forall k :: 0 <= k < tail ==> es[k].ts <= WindowStart(t, range))
  }

  /** Moves both edges to tick t, adding what enters and subtracting what leaves. */
  method Slide(es: seq<Entry>, range: int, t: int, tail0: int, head0: int, acc0: int) returns (tail: int, head: int, acc: int)
    requires EntriesOk(es) && Int64(t) && 0 < range <= MAX_INT64
    requires Behind(es, range, t, tail0, head0) && acc0 == Between(es, tail0, head0)
    ensures Behind(es, range, t, tail, head) && acc == Between(es, tail, head)
    ensures acc == WindowSum(es, WindowStart(t, range), t) && head - tail == WindowCount(es, WindowStart(t, range), t)
  {
    tail, head, acc := tail0, head0, acc0;
    while head < |es| && es[head].ts <= t
      invariant Behind(es, range, t, tail, head) && acc == Between(es, tail, head)
    {
      acc := acc + es[head].weight;
      head := head + 1;
    }
    var lo := WindowStart(t, range);
    while tail < head && es[tail].ts <= lo
      invariant Behind(es, range, t, tail, head) && acc == Between(es, tail, head)
    {
      BetweenDropsFirst(es, tail, head);
      acc := acc - es[tail].weight;
      tail := tail + 1;
    }
    WindowIsBetween(es, lo, t, tail, head);
  }

  /** uint64(end) - uint64(t), which wraps, is the exact span while t <= end. */
  function UnsignedSpan(end: int, t: int): (d: int)
    requires Int64(end) && Int64(t)
    ensures t <= end ==> d == end - t
  {
    var e, u := end % 0x1_0000_0000_0000_0000, t % 0x1_0000_0000_0000_0000;
    assert e == end || e == end + 0x1_0000_0000_0000_0000;
    assert u == t || u == t + 0x1_0000_0000_0000_0000;
    (e - u) % 0x1_0000_0000_0000_0000
  }

  /** The ticks before t have been added. */
  ghost predicate AtNext(all: set<int>, done: set<int>, t: int, end: int, step: int) {
    step > 0 && t <= end && all == done + Ticks(t, end, step) && forall u :: u in done ==> u < t
  }

  lemma WithNoWindows(values: map<int, real>, es: seq<Entry>, range: int, scale: real)
    requires 0 < range <= MAX_INT64
    ensures WithWindows(values, es, range, scale, {}) == values
  {
    var none: set<int> := {};
    assert NonEmpty(es, range, none) == {};
    var same := WithWindows(values, es, range, scale, none);
    assert same.Keys == values.Keys;
    forall k | k in same ensures same[k] == values[k] {
      assert k !in NonEmpty(es, range, none);
      assert same[k] == Or0(values, k) + 0.0;
    }
    SameMap(same, values);
  }

  lemma WithWindowsNext(values: map<int, real>, es: seq<Entry>, range: int, scale: real, done: set<int>, t: int,
                        before: map<int, real>, after: map<int, real>)
    requires AllInt64(done) && Int64(t) && 0 < range <= MAX_INT64
    requires t !in done && before == WithWindows(values, es, range, scale, done)
    requires after ==
      if WindowCount(es, WindowStart(t, range), t) > 0 then before[t := Or0(before, t) + TickWeight(es, range, scale, t)] else before
    ensures after == WithWindows(values, es, range, scale, done + {t})
  {
    var N, N' := NonEmpty(es, range, done), NonEmpty(es, range, done + {t});
    var all := WithWindows(values, es, range, scale, done + {t});
    assert N' == N + if WindowCount(es, WindowStart(t, range), t) > 0 then {t} else {};
    assert t !in N && Or0(before, t) == Or0(values, t);
    assert after.Keys == values.Keys + N' == all.Keys;
    forall k | k in after ensures after[k] == all[k] {
      if k == t { assert t in N' ==> Or0(before, t) == Or0(values, t); } else { assert k in before && (k in N' <==> k in N); }
    }
    SameMap(after, all);
  }

  /** The point a tick emits: when its window is non-empty, even if the sum is zero. */
  method Emit(values: map<int, real>, ghost values0: map<int, real>, es: seq<Entry>, range: int, scale: real, ghost done: set<int>, t: int, size: int, acc: int)
    returns (values': map<int, real>)
    requires AllInt64(done) && Int64(t) && 0 < range <= MAX_INT64 && t !in done
    requires values == WithWindows(values0, es, range, scale, done)
    requires acc == WindowSum(es, WindowStart(t, range), t) && size == WindowCount(es, WindowStart(t, range), t)
    ensures values' == WithWindows(values0, es, range, scale, done + {t})
  {
    values' := values;
    if size > 0 {
      var weight := scale * (acc as real);
      assert weight == TickWeight(es, range, scale, t);
      values' := values[t := Or0(values, t) + weight];
    }
    WithWindowsNext(values0, es, range, scale, done, t, values, values');
  }

  /** accumulate: it visits every tick up to end, however wide the span, never
      overflows, and adds at each exactly what the definition says. */
  method Accumulate(values0: map<int, real>, es: seq<Entry>, range: int, scale: real, start: int, end: int, step: int) returns (values: map<int, real>)
    requires EntriesOk(es) && Int64(start) && Int64(end) && start <= end && 0 < step <= MAX_INT64 && 0 < range <= MAX_INT64
    ensures AllInt64(Ticks(start, end, step))
    ensures values == WithWindows(values0, es, range, scale, Ticks(start, end, step))
    ensures Stored(es) ==> values == WithExactWindows(values0, es, range, scale, Ticks(start, end, step))
  {
    TicksFrom(start, end, step);
    values := values0;
    var head, tail, acc := 0, 0, 0;
    var t := start;
    ghost var done: set<int> := {};
    WithNoWindows(values0, es, range, scale);
    while true
      invariant Int64(t) && Behind(es, range, t, tail, head) && acc == Between(es, tail, head)
      invariant AllInt64(done) && AtNext(Ticks(start, end, step), done, t, end, step)
      invariant values == WithWindows(values0, es, range, scale, done)
      decreases end - t
    {
      tail, head, acc := Slide(es, range, t, tail, head, acc);
      values := Emit(values, values0, es, range, scale, done, t, head - tail, acc);
      if step > UnsignedSpan(end, t) {
        LastTick(Ticks(start, end, step), done, t, end, step);
        if Stored(es) { StoredAreExact(values0, es, range, scale, Ticks(start, end, step)); }
        return;
      }
      done := done + {t};
      t := t + step;
    }
  }

  lemma LastTick(all: set<int>, before: set<int>, t: int, end: int, step: int)
    requires AtNext(all, before, t, end, step) && t + step > end
    ensures all == before + {t}
  {
    assert Ticks(t + step, end, step) == {};
  }
}
