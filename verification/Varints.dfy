/** Fixed-width big-endian numbers and variable-length ones, as encoding/binary
    defines them. */
module Varints {
  import opened Options
  import opened Sets
  import opened BitStreams
  import opened Chunks
  import opened ChunkCodec

  /** v in k bytes, big-endian. */
  function BE(v: nat, k: nat): (s: seq<Byte>)
    ensures |s| == k
  {
    if k == 0 then [] else BE(v / 256, k - 1) + [v % 256]
  }

  function BEVal(s: seq<Byte>): nat {
    if s == [] then 0 else 256 * BEVal(s[..|s| - 1]) + s[|s| - 1]
  }

  function Pow256(k: nat): nat {
    if k == 0 then 1 else 256 * Pow256(k - 1)
  }

  lemma {:induction false} BERoundTrip(v: nat, k: nat)
    requires v < Pow256(k)
    ensures BEVal(BE(v, k)) == v
  {
    if k > 0 {
      BERoundTrip(v / 256, k - 1);
      assert BE(v, k)[..k - 1] == BE(v / 256, k - 1);
    }
  }

  lemma {:induction false} BEValBound(s: seq<Byte>)
    ensures BEVal(s) < Pow256(|s|)
  {
    if s != [] { BEValBound(s[..|s| - 1]); }
  }

  lemma Pow256Values()
    ensures Pow256(2) == 0x1_0000 && Pow256(4) == 0x1_0000_0000 && Pow256(8) == TWO64
  {
    assert Pow256(2) == 256 * Pow256(1) && Pow256(4) == 256 * Pow256(3) && Pow256(3) == 256 * Pow256(2);
    assert Pow256(6) == 256 * Pow256(5) && Pow256(5) == 256 * Pow256(4);
    assert Pow256(8) == 256 * Pow256(7) && Pow256(7) == 256 * Pow256(6);
  }

  /** PutUvarint: seven bits a byte, low first. */
  function PutUvarint(x: nat): (s: seq<Byte>)
    ensures |s| > 0
  {
    if x < 128 then [x] else [x % 128 + 128] + PutUvarint(x / 128)
  }

  /** The value and the bytes read, or why there is none. */
  datatype Uvarint = Short | Overflow | Value(v: nat, n: nat)

  /** Uvarint, i bytes into the number: a tenth byte above 1, or an eleventh, would
      overflow 64 bits. */
  function GetUvarint(s: seq<Byte>, i: nat): (r: Uvarint)
    requires i <= 10
    ensures r.Value? ==> 0 < r.n <= |s| && r.n + i <= 10
    decreases |s|
  {
    if s == [] then Short
    else if i == 10 then Overflow
    else if s[0] < 128 then (if i == 9 && s[0] > 1 then Overflow else Value(s[0], 1))
    else
      match GetUvarint(s[1..], i + 1)
      case Value(v, n) => Value(s[0] - 128 + 128 * v, n + 1)
      case bad => bad
  }

  /** What still fits after i bytes. */
  function Limit(i: nat): nat
    requires i <= 9
    decreases 9 - i
  {
    if i == 9 then 2 else 128 * Limit(i + 1)
  }

  lemma LimitIsU64()
    ensures Limit(0) == TWO64
  {
    assert Limit(9) == 2 && Limit(8) == 256 && Limit(7) == 128 * 256;
    assert Limit(6) == 128 * Limit(7) && Limit(5) == 128 * Limit(6) && Limit(4) == 128 * Limit(5);
    assert Limit(3) == 128 * Limit(4) && Limit(2) == 128 * Limit(3) && Limit(1) == 128 * Limit(2);
  }

  lemma {:induction false} UvarintFits(s: seq<Byte>, i: nat)
    requires i <= 9 && GetUvarint(s, i).Value?
    ensures GetUvarint(s, i).v < Limit(i)
    decreases 9 - i
  {
    LimitGrows(i);
    if s[0] >= 128 && i < 9 { UvarintFits(s[1..], i + 1); }
  }

  lemma {:induction false} LimitGrows(i: nat)
    requires i <= 9
    ensures i < 9 ==> Limit(i) >= 256
    decreases 9 - i
  {
    if i < 9 { LimitGrows(i + 1); }
  }

  lemma {:induction false} UvarintRoundTrip(x: nat, i: nat, more: seq<Byte>)
    requires i <= 9 && x < Limit(i)
    ensures GetUvarint(PutUvarint(x) + more, i) == Value(x, |PutUvarint(x)|)
    decreases 9 - i
  {
    var s := PutUvarint(x) + more;
    if x >= 128 {
      assert i < 9;
      assert s[1..] == PutUvarint(x / 128) + more;
      UvarintRoundTrip(x / 128, i + 1, more);
    }
  }

  /** Varint: an unsigned varint of the zigzag value. */
  function PutVarint(x: int): seq<Byte>
    requires Int64(x)
  {
    PutUvarint(ZigZag(x))
  }

  // ---- generations ----

  predicate GenOk(g: int) { 0 <= g <= MAX_GENERATION }

  type Gen = g: int | 0 <= g <= MAX_GENERATION

  /** The first generation, then signed deltas. */
  function GenBytes(gens: seq<Gen>): seq<Byte> {
    if gens == [] then []
    else if |gens| == 1 then PutUvarint(gens[0])
    else GenBytes(gens[..|gens| - 1]) + PutVarint(gens[|gens| - 1] as int - gens[|gens| - 2])
  }

  /** The generations after prev, in order: count of them, using up the data. */
  function DecodeDeltas(s: seq<Byte>, prev: Gen, count: nat): (r: Option<seq<Gen>>)
    ensures r.Some? ==> |r.value| == count
    decreases count
  {
    if count == 0 then (if s == [] then Some([]) else None)
    else
      match GetUvarint(s, 0)
      case Value(z, n) =>
        UvarintFits(s, 0);
        LimitIsU64();
        var g := prev + UnZigZag(z);
        if !GenOk(g) then None
        else
          var rest := DecodeDeltas(s[n..], g, count - 1);
          if rest.None? then None else Some([g] + rest.value)
      case _ => None
  }

  function DecodeGens(s: seq<Byte>, count: nat): (r: Option<seq<Gen>>)
    ensures r.Some? ==> |r.value| == count
  {
    if count == 0 then (if s == [] then Some([]) else None)
    else
      match GetUvarint(s, 0)
      case Value(v, n) =>
        if v > MAX_GENERATION then None
        else
          var rest := DecodeDeltas(s[n..], v, count - 1);
          if rest.None? then None else Some([v] + rest.value)
      case _ => None
  }

  /** The deltas of a tail of the sequence. */
  function DeltaBytes(prev: Gen, gens: seq<Gen>): seq<Byte>
    decreases |gens|
  {
    if gens == [] then [] else PutVarint(gens[0] - prev) + DeltaBytes(gens[0], gens[1..])
  }

  lemma {:induction false} DeltasRoundTrip(prev: Gen, gens: seq<Gen>)
    ensures DecodeDeltas(DeltaBytes(prev, gens), prev, |gens|) == Some(gens)
    decreases |gens|
  {
    if gens != [] {
      var g, tail := gens[0], gens[1..];
      DeltasRoundTrip(g, tail);
      DeltaRoundTrips(prev, g, DeltaBytes(g, tail), |tail|);
      assert gens == [g] + tail;
    }
  }

  lemma DeltaRoundTrips(prev: Gen, g: Gen, more: seq<Byte>, count: nat)
    ensures DecodeDeltas(PutVarint(g - prev) + more, prev, count + 1) ==
      if DecodeDeltas(more, g, count).None? then None else Some([g] + DecodeDeltas(more, g, count).value)
  {
    var d := g - prev;
    var bytes := PutVarint(d);
    LimitIsU64();
    ZigZagInverse(d);
    UvarintRoundTrip(ZigZag(d), 0, more);
    assert (bytes + more)[|bytes|..] == more;
  }

  lemma ZigZagInverse(v: int)
    requires Int64(v)
    ensures UnZigZag(ZigZag(v)) == v
  {
  }

  lemma {:induction false} DeltaBytesAppend(prev: Gen, gens: seq<Gen>, g: Gen)
    ensures DeltaBytes(prev, gens + [g]) == DeltaBytes(prev, gens) + PutVarint(g - LastOf(prev, gens))
    decreases |gens|
  {
    if gens == [] {
      assert gens + [g] == [g];
      OneDelta(prev, g);
    } else {
      var first, tail := gens[0], gens[1..];
      var last := LastOf(prev, gens);
      DeltaBytesAppend(first, tail, g);
      assert LastOf(first, tail) == last;
      FirstDelta(prev, first, tail, gens);
      FirstDelta(prev, first, tail + [g], gens + [g]);
      ConcatAssoc(PutVarint(first - prev), DeltaBytes(first, tail), PutVarint(g - last));
    }
  }

  lemma FirstDelta(prev: Gen, first: Gen, tail: seq<Gen>, gens: seq<Gen>)
    requires gens == [first] + tail
    ensures DeltaBytes(prev, gens) == PutVarint(first - prev) + DeltaBytes(first, tail)
  {
    assert gens[1..] == tail;
  }

  function LastOf(prev: Gen, gens: seq<Gen>): Gen {
    if gens == [] then prev else gens[|gens| - 1]
  }

  lemma OneDelta(prev: Gen, g: Gen)
    ensures DeltaBytes(prev, [g]) == PutVarint(g as int - prev) && DeltaBytes(prev, []) == []
  {
    assert [g][1..] == [];
    assert PutVarint(g as int - prev) + [] == PutVarint(g as int - prev);
  }

  lemma {:induction false} GenBytesAreDeltas(gens: seq<Gen>)
    requires gens != []
    ensures GenBytes(gens) == PutUvarint(gens[0]) + DeltaBytes(gens[0], gens[1..])
  {
    if |gens| == 1 {
      assert gens[1..] == [];
      assert PutUvarint(gens[0]) + [] == PutUvarint(gens[0]);
    } else {
      var n := |gens| - 1;
      var p, first := gens[..n], gens[0];
      var a, b, c := PutUvarint(first), DeltaBytes(first, p[1..]), PutVarint(gens[n] as int - gens[n - 1]);
      assert GenBytes(gens) == (a + b) + c by { GenBytesAreDeltas(p); }
      assert DeltaBytes(first, gens[1..]) == b + c by { LastDelta(gens); }
      assert (a + b) + c == a + (b + c);
    }
  }

  lemma LastDelta(gens: seq<Gen>)
    requires |gens| > 1
    ensures var n := |gens| - 1;
      DeltaBytes(gens[0], gens[1..]) == DeltaBytes(gens[0], gens[..n][1..]) + PutVarint(gens[n] as int - gens[n - 1])
  {
    var n := |gens| - 1;
    var tail := gens[..n][1..];
    assert gens[1..] == tail + [gens[n]];
    DeltaBytesAppend(gens[0], tail, gens[n]);
    assert LastOf(gens[0], tail) == gens[n - 1];
  }

  /** Every sequence of generations the chunk accepts is decoded back exactly. */
  lemma GensRoundTrip(gens: seq<Gen>)
    ensures DecodeGens(GenBytes(gens), |gens|) == Some(gens)
  {
    if gens != [] {
      GenBytesAreDeltas(gens);
      ChainRoundTrips(gens[0], gens[1..]);
      assert gens == [gens[0]] + gens[1..];
    }
  }

  lemma ChainRoundTrips(g: Gen, tail: seq<Gen>)
    ensures DecodeGens(PutUvarint(g) + DeltaBytes(g, tail), |tail| + 1) == Some([g] + tail)
  {
    FirstRoundTrips(g, DeltaBytes(g, tail), |tail| + 1);
    DeltasRoundTrip(g, tail);
  }

  lemma FirstRoundTrips(g: Gen, more: seq<Byte>, count: nat)
    requires count > 0
    ensures DecodeGens(PutUvarint(g) + more, count) ==
      if DecodeDeltas(more, g, count - 1).None? then None else Some([g] + DecodeDeltas(more, g, count - 1).value)
  {
    LimitIsU64();
    UvarintRoundTrip(g, 0, more);
    assert (PutUvarint(g) + more)[|PutUvarint(g)|..] == more;
  }

  /** The int64 sum with its overflow test accepts exactly the sums that are
      generations. */
  lemma OverflowTestIsExact(prev: Gen, d: int)
    requires Int64(d)
    ensures var sum := Wrap64(prev + d);
      !((d > 0 && sum < prev) || (d < 0 && sum > prev)) && GenOk(sum) <==> GenOk(prev + d)
    ensures GenOk(prev + d) ==> Wrap64(prev + d) == prev + d
  {
    WrapCases(prev + d);
  }

  /** gens decoded so far, followed by what the deltas in s give. */
  function Extend(gens: seq<Gen>, s: seq<Byte>, count: nat): Option<seq<Gen>>
    requires gens != []
  {
    var rest := DecodeDeltas(s, gens[|gens| - 1], count);
    if rest.None? then None else Some(gens + rest.value)
  }

  lemma ExtendStep(gens: seq<Gen>, s: seq<Byte>, count: nat)
    requires gens != [] && count > 0
    ensures var u := GetUvarint(s, 0);
      if !u.Value? then Extend(gens, s, count).None?
      else
        U64(u.v) && var g := gens[|gens| - 1] + UnZigZag(u.v);
        Extend(gens, s, count) == if GenOk(g) then Extend(gens + [g], s[u.n..], count - 1) else None
  {
    var u := GetUvarint(s, 0);
    if u.Value? {
      UvarintFits(s, 0);
      LimitIsU64();
      var g := gens[|gens| - 1] + UnZigZag(u.v);
      if GenOk(g) {
        var rest := DecodeDeltas(s[u.n..], g, count - 1);
        if rest.Some? { assert gens + ([g] + rest.value) == gens + [g] + rest.value; }
      }
    }
  }

  /** decodeGens as the loop it is. */
  method DecodeGensInto(data: seq<Byte>, count: nat) returns (r: Option<seq<Gen>>)
    ensures r == DecodeGens(data, count)
  {
    if count == 0 {
      return if data == [] then Some([]) else None;
    }
    var first := GetUvarint(data, 0);
    if !first.Value? { return None; }
    if first.v > MAX_GENERATION { return None; }
    var gens: seq<Gen> := [first.v];
    var pos := first.n;
    var i := 1;
    ghost var all := DecodeGens(data, count);
    while i < count
      invariant 1 <= i <= count && |gens| == i && 0 <= pos <= |data|
      invariant all == Extend(gens, data[pos..], count - i)
    {
      ExtendStep(gens, data[pos..], count - i);
      var u := GetUvarint(data[pos..], 0);
      if !u.Value? { return None; }
      var d := UnZigZag(u.v);
      var prev := gens[i - 1];
      var sum := Wrap64(prev + d);
      OverflowTestIsExact(prev, d);
      if (d > 0 && sum < prev) || (d < 0 && sum > prev) { return None; }
      if sum < 0 || sum > MAX_GENERATION { return None; }
      DropTwice(data, pos, u.n);
      gens := gens + [sum];
      pos := pos + u.n;
      i := i + 1;
    }
    if pos != |data| { return None; }
    assert data[pos..] == [];
    assert gens + [] == gens;
    r := Some(gens);
  }
}
