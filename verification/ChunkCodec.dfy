/** The Gorilla coding of a chunk's samples: delta-of-delta timestamps in wrapping
    64-bit arithmetic and XOR-compressed values. Functions say what the encoder
    writes and what the decoder reads; the main lemma is that they agree, bit for
    bit, on every sequence of samples. */
module ChunkCodec {
  import opened BitStreams
  import opened Chunks
  import opened Sets

  const TWO64 := 0x1_0000_0000_0000_0000

  predicate U64(v: nat) { v < TWO64 }

  type I64 = x: int | -0x8000_0000_0000_0000 <= x <= 0x7FFF_FFFF_FFFF_FFFF

  type W64 = v: int | 0 <= v < 0x1_0000_0000_0000_0000

  /** uint64(x) and back. */
  function ToU64(x: int): (v: nat)
    requires Int64(x)
    ensures U64(v)
  {
    if x >= 0 then x else x + TWO64
  }

  function ToI64(v: nat): (x: int)
    requires U64(v)
    ensures Int64(x) && ToU64(x) == v
  {
    if v <= MAX_INT64 then v else v - TWO64
  }

  function ZigZag(v: int): (z: nat)
    requires Int64(v)
    ensures U64(z)
  {
    if v >= 0 then 2 * v else -2 * v - 1
  }

  function UnZigZag(z: nat): (v: int)
    requires U64(z)
    ensures Int64(v) && ZigZag(v) == z
  {
    if z % 2 == 0 then z / 2 else -(z / 2) - 1
  }

  lemma PowersOfTwo()
    ensures Pow2(1) == 2 && Pow2(4) == 16 && Pow2(5) == 32 && Pow2(6) == 64 && Pow2(7) == 128
    ensures Pow2(9) == 512 && Pow2(12) == 4096 && Pow2(64) == TWO64
  {
    PowPlus8(0);
    PowPlus8(8);
    PowPlus8(16);
    PowPlus8(24);
    PowPlus8(32);
    PowPlus8(40);
    PowPlus8(48);
    PowPlus8(56);
  }

  lemma PowPlus8(n: nat)
    ensures Pow2(n + 8) == 256 * Pow2(n)
  {
    assert Pow2(n + 2) == 2 * Pow2(n + 1) == 4 * Pow2(n);
    assert Pow2(n + 4) == 2 * Pow2(n + 3) == 4 * Pow2(n + 2);
    assert Pow2(n + 6) == 2 * Pow2(n + 5) == 4 * Pow2(n + 4);
    assert Pow2(n + 8) == 2 * Pow2(n + 7) == 4 * Pow2(n + 6);
  }

  lemma WrapIsInverse(x: int, y: int)
    requires Int64(x) && Int64(y)
    ensures Wrap64(x + Wrap64(y - x)) == y
  {
    WrapCases(y - x);
    WrapCases(x + Wrap64(y - x));
  }

  lemma WrapCases(d: int)
    requires -TWO64 <= d <= TWO64
    ensures Wrap64(d) == if d > MAX_INT64 then d - TWO64 else if d < MIN_INT64 then d + TWO64 else d
  {
    var k := if d > MAX_INT64 then d - TWO64 else if d < MIN_INT64 then d + TWO64 else d;
    assert 0 <= k - MIN_INT64 < TWO64;
  }

  // ---- the coder's state ----

  /** What Chunk and Iterator both carry between samples. leading 255 says that no
      XOR block came before. */
  datatype Coder = Coder(n: nat, lastTs: I64, lastDelta: I64, lastVal: W64, leading: nat, trailing: nat)

  const START := Coder(0, 0, 0, 0, 255, 0)

  /** A timestamp and the 64 bits of a value. */
  datatype Point = Point(ts: I64, val: W64)

  predicate CoderOk(st: Coder) {
    st.leading == 255 || (st.leading <= 31 && st.leading + st.trailing < 64)
  }

  // ---- timestamps ----

  function DodBits(dod: int): seq<bool>
    requires Int64(dod)
  {
    if dod == 0 then [false]
    else if -64 <= dod <= 63 then [true, false] + NatBits(ZigZag(dod), 7)
    else if -256 <= dod <= 255 then [true, true, false] + NatBits(ZigZag(dod), 9)
    else if -2048 <= dod <= 2047 then [true, true, true, false] + NatBits(ZigZag(dod), 12)
    else [true, true, true, true] + NatBits(ZigZag(dod), 64)
  }

  function ReadZigZag(s: seq<bool>, n: nat): Read<int>
    requires n <= 64
  {
    match ReadNat(s, n)
    case Eof => Eof
    case Got(z, rest) =>
      NatValFits(s[..n]);
      Got(UnZigZag(z), rest)
  }

  lemma NatValFits(s: seq<bool>)
    requires |s| <= 64
    ensures U64(NatVal(s))
  {
    BitsOfVal(s);
    PowersOfTwo();
    PowGrows(|s|, 64);
  }

  lemma {:induction false} PowGrows(a: nat, b: nat)
    requires a <= b
    ensures Pow2(a) <= Pow2(b)
  {
    if a < b { PowGrows(a, b - 1); }
  }

  function ReadDod(s: seq<bool>): Read<int> {
    if s == [] then Eof
    else if !s[0] then Got(0, s[1..])
    else if |s| < 2 then Eof
    else if !s[1] then ReadZigZag(s[2..], 7)
    else ReadWideDod(s[2..])
  }

  /** After two one bits. */
  function ReadWideDod(s: seq<bool>): Read<int> {
    if s == [] then Eof
    else if !s[0] then ReadZigZag(s[1..], 9)
    else if |s| < 2 then Eof
    else if !s[1] then ReadZigZag(s[2..], 12)
    else ReadZigZag(s[2..], 64)
  }

  lemma ZigZagRoundTrip(dod: int, n: nat, more: seq<bool>)
    requires Int64(dod) && n <= 64 && ZigZag(dod) < Pow2(n)
    ensures ReadZigZag(NatBits(ZigZag(dod), n) + more, n) == Got(dod, more)
  {
    ReadWritten(ZigZag(dod), n, more);
  }

  /** One width class: its control bits, then the zigzag bits. */
  lemma ClassRoundTrip(control: seq<bool>, dod: int, n: nat, more: seq<bool>)
    requires Int64(dod) && n <= 64 && ZigZag(dod) < Pow2(n)
    ensures var s := control + NatBits(ZigZag(dod), n) + more;
      |s| >= |control| && s[..|control|] == control && ReadZigZag(s[|control|..], n) == Got(dod, more)
  {
    var s := control + NatBits(ZigZag(dod), n) + more;
    assert s[|control|..] == NatBits(ZigZag(dod), n) + more;
    ZigZagRoundTrip(dod, n, more);
  }

  lemma DodRoundTrip(dod: int, more: seq<bool>)
    requires Int64(dod)
    ensures ReadDod(DodBits(dod) + more) == Got(dod, more)
  {
    PowersOfTwo();
    var s := DodBits(dod) + more;
    if dod == 0 {
      assert s[1..] == more;
    } else if -64 <= dod <= 63 {
      SmallDod(dod, [true, false], 7, more);
    } else if -256 <= dod <= 255 {
      SmallDod(dod, [true, true, false], 9, more);
    } else if -2048 <= dod <= 2047 {
      SmallDod(dod, [true, true, true, false], 12, more);
    } else {
      SmallDod(dod, [true, true, true, true], 64, more);
    }
  }

  lemma SmallDod(dod: int, control: seq<bool>, n: nat, more: seq<bool>)
    requires Int64(dod) && n <= 64 && ZigZag(dod) < Pow2(n)
    requires (n == 7 && control == [true, false]) || (n == 9 && control == [true, true, false])
          || (n == 12 && control == [true, true, true, false]) || (n == 64 && control == [true, true, true, true])
    ensures ReadDod(control + NatBits(ZigZag(dod), n) + more) == Got(dod, more)
  {
    var s := control + NatBits(ZigZag(dod), n) + more;
    ClassRoundTrip(control, dod, n, more);
    ClassRead(s, control, n, s[|control|..]);
  }

  /** The control bits name the width. */
  lemma ClassRead(s: seq<bool>, control: seq<bool>, n: nat, tail: seq<bool>)
    requires |s| >= |control| && s[..|control|] == control && tail == s[|control|..]
    requires (n == 7 && control == [true, false]) || (n == 9 && control == [true, true, false])
          || (n == 12 && control == [true, true, true, false]) || (n == 64 && control == [true, true, true, true])
    ensures ReadDod(s) == ReadZigZag(tail, n)
  {
    forall i | 0 <= i < |control| ensures s[i] == control[i] { assert s[..|control|][i] == control[i]; }
    if n != 7 { assert s[2..][|control| - 2..] == s[|control|..]; }
  }

  // ---- values ----

  /** Bitwise exclusive or. */
  function XorBits(a: seq<bool>, b: seq<bool>): (c: seq<bool>)
    requires |a| == |b|
    ensures |c| == |a|
  {
    seq(|a|, i requires 0 <= i < |a| => a[i] != b[i])
  }

  function Xor(a: nat, b: nat): (c: nat)
    requires U64(a) && U64(b)
    ensures U64(c)
  {
    NatValFits(XorBits(NatBits(a, 64), NatBits(b, 64)));
    NatVal(XorBits(NatBits(a, 64), NatBits(b, 64)))
  }

  lemma XorTwice(a: nat, b: nat)
    requires U64(a) && U64(b)
    ensures Xor(a, Xor(a, b)) == b
    ensures NatBits(Xor(a, b), 64) == XorBits(NatBits(a, 64), NatBits(b, 64))
    ensures Xor(a, b) == 0 <==> a == b
  {
    var A, B := NatBits(a, 64), NatBits(b, 64);
    PowersOfTwo();
    BitsOfVal(XorBits(A, B));
    assert XorBits(A, XorBits(A, B)) == B;
    ValOfBits(b, 64);
    XorIsZero(a, b);
  }

  lemma XorIsZero(a: nat, b: nat)
    requires U64(a) && U64(b)
    ensures Xor(a, b) == 0 <==> a == b
  {
    var A, B := NatBits(a, 64), NatBits(b, 64);
    var C := XorBits(A, B);
    BitsOfVal(C);
    ZeroBits(64);
    ZerosVal(64);
    if A == B { SameBits(a, b); }
    assert A == B ==> C == Zeros(64);
    if C == Zeros(64) {
      forall i | 0 <= i < 64 ensures A[i] == B[i] { assert !C[i]; }
    }
  }

  lemma SameBits(a: nat, b: nat)
    requires U64(a) && U64(b) && NatBits(a, 64) == NatBits(b, 64)
    ensures a == b
  {
    PowersOfTwo();
    ValOfBits(a, 64);
    ValOfBits(b, 64);
  }

  function LeadingZeros(s: seq<bool>): (n: nat)
    ensures n <= |s| && (forall i :: 0 <= i < n ==> !s[i]) && (n < |s| ==> s[n])
  {
    if s == [] || s[0] then 0 else 1 + LeadingZeros(s[1..])
  }

  function TrailingZeros(s: seq<bool>): (n: nat)
    ensures n <= |s| && (forall i :: |s| - n <= i < |s| ==> !s[i]) && (n < |s| ==> s[|s| - 1 - n])
  {
    if s == [] || s[|s| - 1] then 0 else 1 + TrailingZeros(s[..|s| - 1])
  }

  /** The window a new XOR block is written in: leading zeros are capped at 31. */
  function Leading(x: nat): nat {
    var lz := LeadingZeros(NatBits(x, 64));
    if lz > 31 then 31 else lz
  }

  function Trailing(x: nat): nat { TrailingZeros(NatBits(x, 64)) }

  predicate Reuses(st: Coder, x: nat) {
    st.leading != 255 && Leading(x) >= st.leading && Trailing(x) >= st.trailing
  }

  lemma WindowHolds(x: nat)
    requires 0 < x && U64(x)
    ensures Leading(x) <= 31 && Leading(x) + Trailing(x) < 64
    ensures InWindow(NatBits(x, 64), Leading(x), Trailing(x))
  {
    var s := NatBits(x, 64);
    if LeadingZeros(s) == 64 {
      assert s == Zeros(64);
      PowersOfTwo();
      ValOfBits(x, 64);
      ZerosVal(64);
    }
    assert s[LeadingZeros(s)];
  }

  /** Every set bit of s lies outside its first l and last t. */
  predicate InWindow(s: seq<bool>, l: nat, t: nat) {
    l + t <= |s| && (forall i :: 0 <= i < l ==> !s[i]) && (forall i :: |s| - t <= i < |s| ==> !s[i])
  }

  function ValueBits(st: Coder, v: nat): seq<bool>
    requires CoderOk(st) && U64(v)
  {
    XorCode(st, Xor(st.lastVal, v))
  }

  /** The code of a value by its exclusive or with the last one. */
  function XorCode(st: Coder, x: nat): seq<bool>
    requires CoderOk(st) && U64(x)
  {
    if x == 0 then [false]
    else
      var s := NatBits(x, 64);
      if Reuses(st, x) then [true, false] + s[st.leading..64 - st.trailing]
      else
        WindowHolds(x);
        BlockCode(x, Leading(x), Trailing(x))
  }

  /** A new block: its window, then the bits inside it. */
  function BlockCode(x: nat, lz: nat, tz: nat): seq<bool>
    requires lz + tz < 64
  {
    [true, true] + NatBits(lz, 5) + NatBits(64 - lz - tz - 1, 6) + NatBits(x, 64)[lz..64 - tz]
  }

  function AfterValue(st: Coder, v: nat): Coder
    requires CoderOk(st) && U64(v)
  {
    AfterXor(st, Xor(st.lastVal, v)).(lastVal := v)
  }

  function AfterXor(st: Coder, x: nat): Coder
    requires CoderOk(st) && U64(x)
  {
    if x == 0 || Reuses(st, x) then st else st.(leading := Leading(x), trailing := Trailing(x))
  }

  /** A uint8 difference. */
  function Sub8(a: int, b: int): (d: nat)
    ensures d < 256
  {
    (a - b) % 256
  }

  /** v << t in 64 bits: what is shifted out is lost. */
  function Shl64(s: seq<bool>, t: nat): (r: seq<bool>)
    requires |s| <= 64
    ensures |r| == 64
  {
    var w := Zeros(64 - |s|) + s + Zeros(t);
    w[t..]
  }

  /** An exclusive or as read, with the window it leaves for the next one. */
  datatype Window = Window(x: nat, leading: nat, trailing: nat)

  function ReadXor(leading: nat, trailing: nat, s: seq<bool>): (r: Read<Window>)
    ensures r.Got? ==> U64(r.value.x)
  {
    if s == [] then Eof
    else if !s[0] then Got(Window(0, leading, trailing), s[1..])
    else if |s| < 2 then Eof
    else if !s[1] then ReadBlock(leading, trailing, s[2..], Sub8(Sub8(64, leading), trailing))
    else
      var lz := ReadNat(s[2..], 5);
      if lz.Eof? then Eof
      else
        var sb := ReadNat(lz.rest, 6);
        if sb.Eof? then Eof
        else ReadBlock(lz.value, Sub8(Sub8(64, lz.value), sb.value + 1), sb.rest, sb.value + 1)
  }

  /** n significant bits, shifted left by the trailing zeros. */
  function ReadBlock(leading: nat, trailing: nat, s: seq<bool>, n: nat): (r: Read<Window>)
    ensures r.Got? ==> U64(r.value.x)
  {
    var m := if n > 64 then 64 else n;
    if |s| < m then Eof
    else
      NatValFits(Shl64(s[..m], trailing));
      Got(Window(NatVal(Shl64(s[..m], trailing)), leading, trailing), s[m..])
  }

  function ReadValue(st: Coder, s: seq<bool>): Read<Coder>
  {
    var r := ReadXor(st.leading, st.trailing, s);
    if r.Eof? then Eof else Got(ApplyXor(st, r.value), r.rest)
  }

  function ApplyXor(st: Coder, w: Window): Coder
    requires U64(w.x)
  {
    st.(lastVal := Xor(st.lastVal, w.x), leading := w.leading, trailing := w.trailing)
  }

  /** A window's bits shifted back into place. */
  lemma WindowShift(s: seq<bool>, l: nat, t: nat)
    requires |s| == 64 && InWindow(s, l, t)
    ensures Shl64(s[l..64 - t], t) == s
  {
    var b := s[l..64 - t];
    assert |Zeros(l + t) + b + Zeros(t)| == 64 + t;
    assert (Zeros(l + t) + b + Zeros(t))[t..] == Zeros(l) + b + Zeros(t);
    assert s == s[..l] + b + s[64 - t..];
    assert s[..l] == Zeros(l) && s[64 - t..] == Zeros(t);
  }

  lemma BlockRoundTrip(x: nat, l: nat, t: nat, more: seq<bool>)
    requires U64(x) && l + t <= 64 && InWindow(NatBits(x, 64), l, t)
    ensures ReadBlock(l, t, NatBits(x, 64)[l..64 - t] + more, 64 - l - t) == Got(Window(x, l, t), more)
  {
    var s := NatBits(x, 64);
    var b := s[l..64 - t];
    WindowShift(s, l, t);
    assert (b + more)[..|b|] == b && (b + more)[|b|..] == more;
    PowersOfTwo();
    ValOfBits(x, 64);
  }

  lemma ReuseFits(st: Coder, x: nat)
    requires CoderOk(st) && U64(x) && x > 0 && Reuses(st, x)
    ensures InWindow(NatBits(x, 64), st.leading, st.trailing)
    ensures Sub8(Sub8(64, st.leading), st.trailing) == 64 - st.leading - st.trailing
  {
    WindowHolds(x);
  }

  lemma ReadNewBlock(l: nat, t: nat, s: seq<bool>, lz: nat, s1: seq<bool>, sb: nat, s2: seq<bool>)
    requires |s| >= 2 && s[0] && s[1]
    requires ReadNat(s[2..], 5) == Got(lz, s1) && ReadNat(s1, 6) == Got(sb, s2)
    ensures ReadXor(l, t, s) == ReadBlock(lz, Sub8(Sub8(64, lz), sb + 1), s2, sb + 1)
  {
  }

  lemma AfterControl(a: seq<bool>, b: seq<bool>, tail: seq<bool>, s: seq<bool>)
    requires s == [true, true] + a + b + tail
    ensures |s| >= 2 && s[0] && s[1] && s[2..] == a + (b + tail)
  {
    assert s == [true, true] + (a + (b + tail));
  }

  /** Reading a new block's header, whatever bits follow it. */
  lemma ReadHeader(l: nat, t: nat, lz: nat, sig: nat, tail: seq<bool>)
    requires lz < 32 && 1 <= sig <= 64
    ensures ReadXor(l, t, [true, true] + NatBits(lz, 5) + NatBits(sig - 1, 6) + tail) == ReadBlock(lz, Sub8(Sub8(64, lz), sig), tail, sig)
  {
    PowersOfTwo();
    var a, b := NatBits(lz, 5), NatBits(sig - 1, 6);
    assert ReadNat(a + (b + tail), 5) == Got(lz, b + tail) by { ReadWritten(lz, 5, b + tail); }
    assert ReadNat(b + tail, 6) == Got(sig - 1, tail) by { ReadWritten(sig - 1, 6, tail); }
    var s := [true, true] + a + b + tail;
    AfterControl(a, b, tail, s);
    ReadNewBlock(l, t, s, lz, b + tail, sig - 1, tail);
  }

  lemma NewBlockRoundTrip(l: nat, t: nat, x: nat, lz: nat, tz: nat, more: seq<bool>)
    requires U64(x) && lz <= 31 && lz + tz < 64 && InWindow(NatBits(x, 64), lz, tz)
    ensures ReadXor(l, t, BlockCode(x, lz, tz) + more) == Got(Window(x, lz, tz), more)
  {
    var b := NatBits(x, 64)[lz..64 - tz];
    SubWindow(lz, tz);
    assert ReadBlock(lz, tz, b + more, 64 - lz - tz) == Got(Window(x, lz, tz), more) by { BlockRoundTrip(x, lz, tz, more); }
    ReadHeader(l, t, lz, 64 - lz - tz, b + more);
    ConcatAssoc([true, true] + NatBits(lz, 5) + NatBits(64 - lz - tz - 1, 6), b, more);
  }

  lemma SubWindow(lz: nat, tz: nat)
    requires lz + tz < 64
    ensures Sub8(Sub8(64, lz), 64 - lz - tz) == tz
  {
  }

  lemma ReuseRoundTrip(st: Coder, x: nat, more: seq<bool>)
    requires CoderOk(st) && U64(x) && x > 0 && Reuses(st, x)
    ensures ReadXor(st.leading, st.trailing, [true, false] + NatBits(x, 64)[st.leading..64 - st.trailing] + more)
      == Got(Window(x, st.leading, st.trailing), more)
  {
    ReuseFits(st, x);
    var b := NatBits(x, 64)[st.leading..64 - st.trailing];
    assert ([true, false] + b + more)[2..] == b + more;
    BlockRoundTrip(x, st.leading, st.trailing, more);
  }

  lemma NewXorRoundTrip(st: Coder, x: nat, more: seq<bool>)
    requires CoderOk(st) && U64(x) && x > 0 && !Reuses(st, x)
    ensures ReadXor(st.leading, st.trailing, XorCode(st, x) + more) == Got(Window(x, Leading(x), Trailing(x)), more)
  {
    WindowHolds(x);
    NewBlockRoundTrip(st.leading, st.trailing, x, Leading(x), Trailing(x), more);
  }

  /** What one coder writes for an exclusive or, another in the same state reads. */
  lemma XorRoundTrip(st: Coder, x: nat, more: seq<bool>)
    requires CoderOk(st) && U64(x)
    ensures ReadXor(st.leading, st.trailing, XorCode(st, x) + more) == Got(Window(x, AfterXor(st, x).leading, AfterXor(st, x).trailing), more)
  {
    if x == 0 {
      assert ([false] + more)[1..] == more;
    } else if Reuses(st, x) {
      ReuseRoundTrip(st, x, more);
      assert XorCode(st, x) == [true, false] + NatBits(x, 64)[st.leading..64 - st.trailing];
    } else {
      NewXorRoundTrip(st, x, more);
    }
  }

  lemma ValueRoundTrip(st: Coder, v: nat, more: seq<bool>)
    requires CoderOk(st) && U64(v)
    ensures ReadValue(st, ValueBits(st, v) + more) == Got(AfterValue(st, v), more)
  {
    XorRoundTrip(st, Xor(st.lastVal, v), more);
    XorTwice(st.lastVal, v);
  }

  lemma AfterValueOk(st: Coder, v: nat)
    requires CoderOk(st) && U64(v)
    ensures CoderOk(AfterValue(st, v))
  {
    if Xor(st.lastVal, v) != 0 { WindowHolds(Xor(st.lastVal, v)); }
  }

  // ---- samples ----

  function SampleBits(st: Coder, x: Point): seq<bool>
    requires CoderOk(st)
  {
    if st.n == 0 then NatBits(ToU64(x.ts), 64) + NatBits(x.val, 64)
    else DodBits(Wrap64(Wrap64(x.ts - st.lastTs) - st.lastDelta)) + ValueBits(st, x.val)
  }

  function AfterSample(st: Coder, x: Point): (st': Coder)
    requires CoderOk(st)
  {
    if st.n == 0 then st.(n := 1, lastTs := x.ts, lastVal := x.val)
    else AfterValue(st, x.val).(n := st.n + 1, lastTs := x.ts, lastDelta := Wrap64(x.ts - st.lastTs))
  }

  /** Iterator.Next: the state after the next sample, whose fields are that sample. */
  function ReadSample(st: Coder, s: seq<bool>): (r: Read<Coder>)
    ensures r.Got? ==> r.value.n == st.n + 1
  {
    if st.n == 0 then
      match ReadNat(s, 64)
      case Eof => Eof
      case Got(ts, s1) =>
        match ReadNat(s1, 64)
        case Eof => Eof
        case Got(val, rest) =>
          NatValFits(s[..64]);
          NatValFits(s1[..64]);
          Got(st.(n := 1, lastTs := ToI64(ts), lastVal := val), rest)
    else
      var d := ReadDod(s);
      if d.Eof? then Eof
      else
        var v := ReadValue(StepTime(st, d.value), d.rest);
        if v.Eof? then Eof else Got(v.value.(n := st.n + 1), v.rest)
  }

  /** The deltas applied, wrapping. */
  function StepTime(st: Coder, dod: int): (st': Coder)
  {
    var delta := Wrap64(st.lastDelta + dod);
    st.(lastTs := Wrap64(st.lastTs + delta), lastDelta := delta)
  }

  /** One sample written is that sample read, from any coder state, whatever follows. */
  lemma SampleRoundTrip(st: Coder, x: Point, more: seq<bool>)
    requires CoderOk(st)
    ensures ReadSample(st, SampleBits(st, x) + more) == Got(AfterSample(st, x), more)
  {
    if st.n == 0 {
      FirstRoundTrip(st, x, more);
    } else {
      LaterRoundTrip(st, x, more);
    }
  }

  lemma FirstRoundTrip(st: Coder, x: Point, more: seq<bool>)
    requires CoderOk(st) && st.n == 0
    ensures ReadSample(st, SampleBits(st, x) + more) == Got(AfterSample(st, x), more)
  {
    PowersOfTwo();
    var tail := NatBits(x.val, 64) + more;
    assert SampleBits(st, x) + more == NatBits(ToU64(x.ts), 64) + tail;
    ReadWritten(ToU64(x.ts), 64, tail);
    ReadWritten(x.val, 64, more);
  }

  /** Both deltas come back, wrapped or not. */
  lemma DeltasRoundTrip(st: Coder, ts: int)
    requires CoderOk(st) && Int64(ts)
    ensures var delta := Wrap64(ts - st.lastTs); var dod := Wrap64(delta - st.lastDelta);
      Wrap64(st.lastDelta + dod) == delta && Wrap64(st.lastTs + delta) == ts
  {
    WrapIsInverse(st.lastDelta, Wrap64(ts - st.lastTs));
    WrapIsInverse(st.lastTs, ts);
  }

  lemma LaterRoundTrip(st: Coder, x: Point, more: seq<bool>)
    requires CoderOk(st) && st.n > 0
    ensures ReadSample(st, SampleBits(st, x) + more) == Got(AfterSample(st, x), more)
  {
    var delta := Wrap64(x.ts - st.lastTs);
    var dod, v := Wrap64(delta - st.lastDelta), ValueBits(st, x.val);
    var st1 := st.(lastTs := x.ts, lastDelta := delta);
    LaterDecodes(st, x, dod, st1, more);
    LaterParts(st, x, dod, v, more);
    SameValueCoding(st, st1, x.val);
  }

  lemma LaterDecodes(st: Coder, x: Point, dod: int, st1: Coder, more: seq<bool>)
    requires CoderOk(st) && st.n > 0
    requires dod == Wrap64(Wrap64(x.ts - st.lastTs) - st.lastDelta)
    requires st1 == st.(lastTs := x.ts, lastDelta := Wrap64(x.ts - st.lastTs))
    ensures ReadSample(st, DodBits(dod) + (ValueBits(st1, x.val) + more)) == Got(AfterValue(st1, x.val).(n := st.n + 1), more)
  {
    assert st1 == StepTime(st, dod) by { DeltasRoundTrip(st, x.ts); }
    ValueRoundTrip(st1, x.val, more);
    LaterReads(st, dod, ValueBits(st1, x.val) + more, st1, AfterValue(st1, x.val), more);
  }

  lemma LaterParts(st: Coder, x: Point, dod: int, v: seq<bool>, more: seq<bool>)
    requires CoderOk(st) && st.n > 0
    requires dod == Wrap64(Wrap64(x.ts - st.lastTs) - st.lastDelta) && v == ValueBits(st, x.val)
    ensures SampleBits(st, x) + more == DodBits(dod) + (v + more)
  {
    ConcatAssoc(DodBits(dod), v, more);
  }

  lemma LaterReads(st: Coder, dod: int, tail: seq<bool>, st1: Coder, st2: Coder, more: seq<bool>)
    requires CoderOk(st) && st.n > 0 && Int64(dod)
    requires st1 == StepTime(st, dod)
    requires ReadValue(st1, tail) == Got(st2, more)
    ensures ReadSample(st, DodBits(dod) + tail) == Got(st2.(n := st.n + 1), more)
  {
    DodRoundTrip(dod, tail);
  }

  lemma AfterSampleOk(st: Coder, x: Point)
    requires CoderOk(st)
    ensures CoderOk(AfterSample(st, x))
  {
    if st.n > 0 { AfterValueOk(st, x.val); }
  }

  lemma SameValueCoding(st: Coder, st1: Coder, v: nat)
    requires CoderOk(st) && CoderOk(st1) && U64(v)
    requires st1.lastVal == st.lastVal && st1.leading == st.leading && st1.trailing == st.trailing
    ensures ValueBits(st1, v) == ValueBits(st, v)
    ensures AfterValue(st1, v) == AfterValue(st, v).(n := st1.n, lastTs := st1.lastTs, lastDelta := st1.lastDelta)
  {
  }

  // ---- whole streams ----

  function CoderAfter(xs: seq<Point>): (st: Coder)
    ensures CoderOk(st) && st.n == |xs|
    ensures xs != [] ==> st.lastTs == xs[|xs| - 1].ts && st.lastVal == xs[|xs| - 1].val
  {
    if xs == [] then START
    else
      AfterSampleOk(CoderAfter(xs[..|xs| - 1]), xs[|xs| - 1]);
      AfterSample(CoderAfter(xs[..|xs| - 1]), xs[|xs| - 1])
  }

  /** The bit stream of a chunk that holds xs. */
  function Stream(xs: seq<Point>): seq<bool>
  {
    if xs == [] then [] else Stream(xs[..|xs| - 1]) + SampleBits(CoderAfter(xs[..|xs| - 1]), xs[|xs| - 1])
  }

  lemma AppendSample(xs: seq<Point>, x: Point)
    ensures Stream(xs + [x]) == Stream(xs) + SampleBits(CoderAfter(xs), x)
    ensures CoderAfter(xs + [x]) == AfterSample(CoderAfter(xs), x)
  {
    assert (xs + [x])[..|xs|] == xs;
  }

  /** The bits a coder in state st writes for xs, first sample first. */
  function CodeFrom(st: Coder, xs: seq<Point>): seq<bool>
    requires CoderOk(st)
    decreases |xs|
  {
    if xs == [] then []
    else
      AfterSampleOk(st, xs[0]);
      SampleBits(st, xs[0]) + CodeFrom(AfterSample(st, xs[0]), xs[1..])
  }

  lemma CodeFromFirst(st: Coder, x: Point, ys: seq<Point>)
    requires CoderOk(st)
    ensures CoderOk(AfterSample(st, x))
    ensures CodeFrom(st, [x] + ys) == SampleBits(st, x) + CodeFrom(AfterSample(st, x), ys)
  {
    AfterSampleOk(st, x);
    assert ([x] + ys)[1..] == ys;
  }

  /** The chunk's stream so far, and then ys. */
  lemma {:induction false} StreamThen(xs: seq<Point>, ys: seq<Point>)
    ensures Stream(xs) + CodeFrom(CoderAfter(xs), ys) == CodeFrom(START, xs + ys)
  {
    if xs == [] {
      assert xs + ys == ys;
    } else {
      SplitLast(xs);
      var p, x := xs[..|xs| - 1], xs[|xs| - 1];
      StreamThen(p, [x] + ys);
      ConcatAssoc(p, [x], ys);
      OneSampleOver(p, x, ys);
    }
  }

  lemma OneSampleOver(p: seq<Point>, x: Point, ys: seq<Point>)
    ensures Stream(p + [x]) + CodeFrom(CoderAfter(p + [x]), ys) == Stream(p) + CodeFrom(CoderAfter(p), [x] + ys)
  {
    var st := CoderAfter(p);
    AppendSample(p, x);
    CodeFromFirst(st, x, ys);
    ConcatAssoc(Stream(p), SampleBits(st, x), CodeFrom(AfterSample(st, x), ys));
  }

  /** k samples decoded in order, or the end of the data. */
  function ReadAll(s: seq<bool>, k: nat): (r: Read<seq<Point>>)
    ensures r.Got? ==> |r.value| == k
  {
    ReadFrom(START, s, k)
  }

  function ReadFrom(st: Coder, s: seq<bool>, k: nat): (r: Read<seq<Point>>)
    ensures r.Got? ==> |r.value| == k
    decreases k
  {
    if k == 0 then Got([], s)
    else
      var r := ReadSample(st, s);
      if r.Eof? then Eof else Prepend([Point(r.value.lastTs, r.value.lastVal)], ReadFrom(r.value, r.rest, k - 1))
  }

  function Prepend(before: seq<Point>, r: Read<seq<Point>>): Read<seq<Point>> {
    match r
    case Eof => Eof
    case Got(xs, rest) => Got(before + xs, rest)
  }

  lemma AfterSampleHolds(st: Coder, x: Point)
    requires CoderOk(st)
    ensures Point(AfterSample(st, x).lastTs, AfterSample(st, x).lastVal) == x
  {
  }

  /** From any coder state, what is written is what is read. */
  lemma {:induction false} CodeRoundTrip(st: Coder, xs: seq<Point>, pad: seq<bool>)
    requires CoderOk(st)
    ensures ReadFrom(st, CodeFrom(st, xs) + pad, |xs|) == Got(xs, pad)
    decreases |xs|
  {
    if xs == [] {
      assert CodeFrom(st, xs) + pad == pad;
    } else {
      SplitFirst(xs, 0);
      SliceAll(xs);
      var x, ys := xs[0], xs[1..];
      var st' := AfterSample(st, x);
      CodeFromFirst(st, x, ys);
      CodeRoundTrip(st', ys, pad);
      NextRoundTrip(st, x, st', CodeFrom(st', ys), ys, pad);
    }
  }

  lemma NextRoundTrip(st: Coder, x: Point, st': Coder, code: seq<bool>, ys: seq<Point>, pad: seq<bool>)
    requires CoderOk(st) && st' == AfterSample(st, x)
    requires ReadFrom(st', code + pad, |ys|) == Got(ys, pad)
    ensures ReadFrom(st, SampleBits(st, x) + code + pad, |ys| + 1) == Got([x] + ys, pad)
  {
    ConcatAssoc(SampleBits(st, x), code, pad);
    SampleRoundTrip(st, x, code + pad);
    AfterSampleHolds(st, x);
    ReadMore(st, SampleBits(st, x) + (code + pad), |ys|, st', code + pad, ys, pad);
  }

  lemma ReadStep(st: Coder, s: seq<bool>, k: nat, st': Coder, rest: seq<bool>)
    requires k > 0 && ReadSample(st, s) == Got(st', rest)
    ensures ReadFrom(st, s, k) == Prepend([Point(st'.lastTs, st'.lastVal)], ReadFrom(st', rest, k - 1))
  {
  }

  lemma ReadMore(st: Coder, s: seq<bool>, k: nat, st': Coder, rest: seq<bool>, ys: seq<Point>, pad: seq<bool>)
    requires ReadSample(st, s) == Got(st', rest) && ReadFrom(st', rest, k) == Got(ys, pad)
    ensures ReadFrom(st, s, k + 1) == Got([Point(st'.lastTs, st'.lastVal)] + ys, pad)
  {
    ReadStep(st, s, k + 1, st', rest);
  }

  /** The codec's law. Whatever samples are appended, out of order, repeated, wrapping
      past either end of int64, with any bit pattern as value, decoding yields exactly
      them and consumes exactly the stream. */
  lemma StreamRoundTrip(xs: seq<Point>, pad: seq<bool>)
    ensures ReadAll(Stream(xs) + pad, |xs|) == Got(xs, pad)
  {
    CodeRoundTrip(START, xs, pad);
    StreamThen(xs, []);
    assert xs + [] == xs && Stream(xs) + [] == Stream(xs);
  }

  /** So no two sequences share a stream. */
  lemma StreamInjective(xs: seq<Point>, ys: seq<Point>)
    requires |xs| == |ys| && Stream(xs) == Stream(ys)
    ensures xs == ys
  {
    StreamRoundTrip(xs, []);
    StreamRoundTrip(ys, []);
  }
}
