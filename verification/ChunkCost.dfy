/** What the chunk codec writes, bit by bit, and what that costs: the layout of each code,
    when a window is used again, and the price of a regular series. */
module ChunkCost {
  import opened BitStreams
  import opened Chunks
  import opened ChunkCodec
  import opened Sets

  // ---- numbers as bits ----

  /** A number's first bit is its most significant one. */
  lemma {:induction false} FirstBitCounts(s: seq<bool>)
    requires s != []
    ensures NatVal(s) == (if s[0] then Pow2(|s| - 1) else 0) + NatVal(s[1..])
  {
    var p, last := s[..|s| - 1], s[|s| - 1];
    if |s| == 1 {
      assert s[1..] == [] && p == [];
    } else {
      FirstBitCounts(p);
      assert s[1..] == p[1..] + [last];
      NatValAppend(p[1..], last);
      SplitLast(s);
    }
  }

  /** The exclusive or's bits are where the two differ. */
  lemma XorDiffers(a: nat, b: nat, i: nat)
    requires U64(a) && U64(b) && i < 64
    ensures NatBits(Xor(a, b), 64)[i] <==> NatBits(a, 64)[i] != NatBits(b, 64)[i]
  {
    XorTwice(a, b);
  }

  // ---- timestamps ----

  /** control, then the zigzag number of dod in n bits. */
  predicate Coded(s: seq<bool>, control: seq<bool>, n: nat, dod: int) {
    |s| == |control| + n && s[..|control|] == control && NatVal(s[|control|..]) == if dod >= 0 then 2 * dod else -2 * dod - 1
  }

  /** The five widths of a delta of deltas. */
  lemma DodLayout(dod: int)
    requires Int64(dod)
    ensures dod == 0 ==> DodBits(dod) == [false]
    ensures dod != 0 && -64 <= dod <= 63 ==> Coded(DodBits(dod), [true, false], 7, dod)
    ensures !(-64 <= dod <= 63) && -256 <= dod <= 255 ==> Coded(DodBits(dod), [true, true, false], 9, dod)
    ensures !(-256 <= dod <= 255) && -2048 <= dod <= 2047 ==> Coded(DodBits(dod), [true, true, true, false], 12, dod)
    ensures !(-2048 <= dod <= 2047) ==> Coded(DodBits(dod), [true, true, true, true], 64, dod)
  {
    PowersOfTwo();
    if dod == 0 {
    } else if -64 <= dod <= 63 {
      ValOfBits(ZigZag(dod), 7);
      CodedParts([true, false], 7, dod);
    } else if -256 <= dod <= 255 {
      ValOfBits(ZigZag(dod), 9);
      CodedParts([true, true, false], 9, dod);
    } else if -2048 <= dod <= 2047 {
      ValOfBits(ZigZag(dod), 12);
      CodedParts([true, true, true, false], 12, dod);
    } else {
      ValOfBits(ZigZag(dod), 64);
      CodedParts([true, true, true, true], 64, dod);
    }
  }

  lemma CodedParts(control: seq<bool>, n: nat, dod: int)
    requires Int64(dod) && NatVal(NatBits(ZigZag(dod), n)) == ZigZag(dod)
    ensures Coded(control + NatBits(ZigZag(dod), n), control, n, dod)
  {
    var s := control + NatBits(ZigZag(dod), n);
    assert s[..|control|] == control && s[|control|..] == NatBits(ZigZag(dod), n);
  }

  // ---- values ----

  /** A window is used again exactly when one was written before and holds every bit that
      changed. */
  lemma ReusesIff(st: Coder, x: nat)
    requires CoderOk(st) && 0 < x && U64(x)
    ensures Reuses(st, x) <==> st.leading != 255 && InWindow(NatBits(x, 64), st.leading, st.trailing)
  {
    var s := NatBits(x, 64);
    WindowHolds(x);
    if st.leading != 255 && InWindow(s, st.leading, st.trailing) {
      var lz, tz := LeadingZeros(s), TrailingZeros(s);
      assert lz < 64 && tz < 64;
      assert s[lz] && s[63 - tz];
      assert lz >= st.leading && tz >= st.trailing;
    }
  }

  /** A new window is the smallest one, its leading zeros capped at 31. */
  lemma NewWindowIsLeast(x: nat, l: nat, t: nat)
    requires 0 < x && U64(x) && l <= 31 && InWindow(NatBits(x, 64), l, t)
    ensures l <= Leading(x) <= 31 && t <= Trailing(x) && InWindow(NatBits(x, 64), Leading(x), Trailing(x))
  {
    var s := NatBits(x, 64);
    WindowHolds(x);
    var lz, tz := LeadingZeros(s), TrailingZeros(s);
    assert lz < 64 && tz < 64;
    assert s[lz] && s[63 - tz];
  }

  /** The three codes of a value: one bit when it did not change; the old window's bits; or
      a new window, its leading zeros in five bits, its length less one in six, its bits. */
  lemma ValueLayout(st: Coder, v: nat)
    requires CoderOk(st) && U64(v)
    ensures v == st.lastVal ==> ValueBits(st, v) == [false]
    ensures v != st.lastVal && Reuses(st, Xor(st.lastVal, v)) ==>
      ValueBits(st, v) == [true, false] + NatBits(Xor(st.lastVal, v), 64)[st.leading..64 - st.trailing]
    ensures v != st.lastVal && !Reuses(st, Xor(st.lastVal, v)) ==> var x := Xor(st.lastVal, v); var s := ValueBits(st, v);
      && |s| == 13 + 64 - Leading(x) - Trailing(x) && s[..2] == [true, true] && NatVal(s[2..7]) == Leading(x)
      && NatVal(s[7..13]) == 63 - Leading(x) - Trailing(x) && s[13..] == NatBits(x, 64)[Leading(x)..64 - Trailing(x)]
  {
    var x := Xor(st.lastVal, v);
    XorTwice(st.lastVal, v);
    if x != 0 && !Reuses(st, x) {
      WindowHolds(x);
      BlockLayout(x, Leading(x), Trailing(x), ValueBits(st, v));
    }
  }

  lemma BlockLayout(x: nat, l: nat, t: nat, s: seq<bool>)
    requires l <= 31 && l + t < 64 && s == BlockCode(x, l, t)
    ensures |s| == 13 + 64 - l - t && s[..2] == [true, true] && NatVal(s[2..7]) == l
    ensures NatVal(s[7..13]) == 63 - l - t && s[13..] == NatBits(x, 64)[l..64 - t]
  {
    PowersOfTwo();
    ValOfBits(l, 5);
    ValOfBits(63 - l - t, 6);
    assert s[2..7] == NatBits(l, 5) && s[7..13] == NatBits(63 - l - t, 6);
  }

  // ---- the price of a regular series ----

  /** Samples a fixed step apart with one value, from some time on. */
  predicate Steady(xs: seq<Point>, step: int) {
    forall i :: 0 < i < |xs| ==> xs[i].ts - xs[i - 1].ts == step && xs[i].val == xs[0].val
  }

  lemma {:induction false} SteadyCoder(xs: seq<Point>, step: int)
    requires Steady(xs, step) && Int64(step) && |xs| >= 2
    ensures CoderAfter(xs).lastDelta == step && CoderAfter(xs).lastVal == xs[0].val && CoderAfter(xs).leading == 255
  {
    var p, x := xs[..|xs| - 1], xs[|xs| - 1];
    assert xs[1].ts - xs[0].ts == step;
    WrapCases(step);
    XorTwice(x.val, x.val);
    if |xs| > 2 {
      SteadyPrefix(xs, step);
      SteadyCoder(p, step);
    } else {
      assert p == [xs[0]];
      assert CoderAfter([]) == START && CoderAfter(p) == AfterSample(START, xs[0]) by { assert p[..0] == []; }
    }
    assert x.ts - p[|p| - 1].ts == step;
  }

  lemma SteadyPrefix(xs: seq<Point>, step: int)
    requires Steady(xs, step) && |xs| > 0
    ensures Steady(xs[..|xs| - 1], step)
  {
    var p := xs[..|xs| - 1];
    forall i | 0 < i < |p| ensures p[i].ts - p[i - 1].ts == step && p[i].val == p[0].val {
      assert p[i] == xs[i] && p[i - 1] == xs[i - 1] && p[0] == xs[0];
    }
  }

  /** A regular series with one value costs two bits a sample once it has started. */
  lemma {:induction false} SteadySeriesCost(xs: seq<Point>, step: int)
    requires Steady(xs, step) && Int64(step) && |xs| >= 2
    ensures |Stream(xs)| == 128 + |DodBits(step)| + 1 + 2 * (|xs| - 2)
  {
    var p, x := xs[..|xs| - 1], xs[|xs| - 1];
    var st := CoderAfter(p);
    assert Stream(xs) == Stream(p) + SampleBits(st, x);
    assert xs[1].ts - xs[0].ts == step && x.ts - p[|p| - 1].ts == step;
    WrapCases(step);
    if |xs| > 2 {
      SteadyPrefix(xs, step);
      SteadySeriesCost(p, step);
      SteadyCoder(p, step);
      NextSteady(st, x, step);
    } else {
      assert p == [xs[0]];
      FirstSteady(xs[0], p);
      SecondSteady(st, x, step);
    }
  }

  lemma FirstSteady(x: Point, p: seq<Point>)
    requires p == [x]
    ensures |Stream(p)| == 128 && CoderAfter(p) == AfterSample(START, x)
  {
    assert p[..0] == [];
    assert Stream(p) == Stream([]) + SampleBits(START, x);
  }

  lemma SecondSteady(st: Coder, x: Point, step: int)
    requires CoderOk(st) && st.n > 0 && st.lastDelta == 0 && st.lastVal == x.val && x.ts - st.lastTs == step && Int64(step)
    ensures |SampleBits(st, x)| == |DodBits(step)| + 1
  {
    WrapCases(step);
    XorTwice(x.val, x.val);
  }

  lemma NextSteady(st: Coder, x: Point, step: int)
    requires CoderOk(st) && st.n > 0 && st.lastDelta == step && st.lastVal == x.val && x.ts - st.lastTs == step && Int64(step)
    ensures |SampleBits(st, x)| == 2
  {
    WrapCases(step);
    WrapCases(0);
    XorTwice(x.val, x.val);
  }
}
