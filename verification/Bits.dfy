/** Bit streams: the writer and the reader of the chunk codec over their byte
    buffers, and the arithmetic that ties numbers to their bits, most significant
    first. */
module BitStreams {
  import opened Options
  function Pow2(n: nat): (p: nat)
    ensures p >= 1
  {
    if n == 0 then 1 else 2 * Pow2(n - 1)
  }

  /** The low n bits of v. */
  function NatBits(v: nat, n: nat): (s: seq<bool>)
    ensures |s| == n
  {
    if n == 0 then [] else NatBits(v / 2, n - 1) + [v % 2 == 1]
  }

  function NatVal(s: seq<bool>): nat {
    if s == [] then 0 else 2 * NatVal(s[..|s| - 1]) + (if s[|s| - 1] then 1 else 0)
  }

  lemma NatValAppend(s: seq<bool>, b: bool)
    ensures NatVal(s + [b]) == 2 * NatVal(s) + (if b then 1 else 0)
  {
    assert (s + [b])[..|s|] == s;
  }

  lemma NatValNext(s: seq<bool>, i: nat)
    requires i < |s|
    ensures NatVal(s[..i + 1]) == 2 * NatVal(s[..i]) + (if s[i] then 1 else 0)
  {
    assert s[..i + 1] == s[..i] + [s[i]];
    NatValAppend(s[..i], s[i]);
  }

  lemma {:induction false} ValOfBits(v: nat, n: nat)
    requires v < Pow2(n)
    ensures NatVal(NatBits(v, n)) == v
  {
    if n > 0 {
      ValOfBits(v / 2, n - 1);
      NatValAppend(NatBits(v / 2, n - 1), v % 2 == 1);
    }
  }

  lemma {:induction false} BitsOfVal(s: seq<bool>)
    ensures NatVal(s) < Pow2(|s|) && NatBits(NatVal(s), |s|) == s
  {
    if s != [] {
      var p := s[..|s| - 1];
      BitsOfVal(p);
      assert NatVal(s) / 2 == NatVal(p);
      assert s == p + [s[|s| - 1]];
    }
  }

  /** v >> i. */
  function Shr(v: nat, i: nat): nat {
    if i == 0 then v else Shr(v / 2, i - 1)
  }

  /** v << i, unbounded. */
  function Shl(v: nat, i: nat): nat {
    if i == 0 then v else 2 * Shl(v, i - 1)
  }

  /** Bit i of v, counted from the low end. */
  lemma {:induction false} BitAt(v: nat, n: nat, i: nat)
    requires i < n
    ensures NatBits(v, n)[n - 1 - i] == (Shr(v, i) % 2 == 1)
  {
    if i > 0 { BitAt(v / 2, n - 1, i - 1); }
  }

  /** Shifting right by t drops the t low bits. */
  lemma {:induction false} ShiftBits(v: nat, k: nat, t: nat)
    ensures NatBits(Shr(v, t), k) == NatBits(v, k + t)[..k]
  {
    if t == 0 {
      assert NatBits(v, k)[..k] == NatBits(v, k);
    } else {
      ShiftBits(v / 2, k, t - 1);
      assert NatBits(v, k + t)[..k] == NatBits(v / 2, k + t - 1)[..k];
    }
  }

  lemma {:induction false} LowBits(v: nat, n: nat, j: nat)
    requires j <= n
    ensures NatBits(v, n)[n - j..] == NatBits(v, j)
  {
    if j > 0 {
      LowBits(v / 2, n - 1, j - 1);
      assert NatBits(v, n)[n - j..] == NatBits(v / 2, n - 1)[n - j..] + [v % 2 == 1];
    } else {
      assert NatBits(v, n)[n..] == [];
    }
  }

  function Zeros(n: nat): (s: seq<bool>)
    ensures |s| == n && forall i :: 0 <= i < n ==> !s[i]
  {
    if n == 0 then [] else Zeros(n - 1) + [false]
  }

  lemma {:induction false} ZerosVal(n: nat)
    ensures NatVal(Zeros(n)) == 0
  {
    if n > 0 {
      ZerosVal(n - 1);
      assert Zeros(n)[..n - 1] == Zeros(n - 1);
    }
  }

  lemma {:induction false} ZeroBits(n: nat)
    ensures NatBits(0, n) == Zeros(n)
  {
    if n > 0 { ZeroBits(n - 1); }
  }

  // ---- bytes ----

  type Byte = b: nat | b < 256

  function ByteBits(b: Byte): seq<bool> { NatBits(b, 8) }

  function AllBits(bytes: seq<Byte>): (s: seq<bool>)
    ensures |s| == 8 * |bytes|
  {
    if bytes == [] then [] else ByteBits(bytes[0]) + AllBits(bytes[1..])
  }

  lemma {:induction false} AllBitsConcat(a: seq<Byte>, b: seq<Byte>)
    ensures AllBits(a + b) == AllBits(a) + AllBits(b)
  {
    if a == [] {
      assert a + b == b;
    } else {
      AllBitsConcat(a[1..], b);
      assert (a + b)[1..] == a[1..] + b;
    }
  }

  /** The value of bits padded with zeros to a byte. */
  function Padded(s: seq<bool>): Byte
    requires |s| <= 8
  {
    ByteVal(s + Zeros(8 - |s|));
    NatVal(s + Zeros(8 - |s|))
  }

  lemma ByteVal(s: seq<bool>)
    requires |s| == 8
    ensures NatVal(s) < 256
  {
    BitsOfVal(s);
    assert Pow2(8) == 256;
  }

  lemma PaddedBits(s: seq<bool>)
    requires |s| <= 8
    ensures ByteBits(Padded(s)) == s + Zeros(8 - |s|)
  {
    BitsOfVal(s + Zeros(8 - |s|));
  }

  lemma {:induction false} ValSplit(a: seq<bool>, b: seq<bool>)
    ensures NatVal(a + b) == Shl(NatVal(a), |b|) + NatVal(b)
  {
    if b == [] {
      assert a + b == a;
    } else {
      var n := |b| - 1;
      ValSplit(a, b[..n]);
      assert (a + b)[..|a + b| - 1] == a + b[..n];
    }
  }

  lemma ShlBit(b: nat)
    requires b <= 1
    ensures Shl(b, 7) == 128 * b
  {
    assert Shl(b, 1) == 2 * b && Shl(b, 2) == 4 * b && Shl(b, 3) == 8 * b && Shl(b, 4) == 16 * b;
    assert Shl(b, 5) == 32 * b && Shl(b, 6) == 64 * b;
  }

  /** cur |= 1 << (7 - nBits): the next bit of a padded byte. */
  lemma SetNextBit(s: seq<bool>, b: bool)
    requires |s| < 8
    ensures Padded(s + [b]) == Padded(s) + (if b then Pow2(7 - |s|) else 0)
  {
    var k := 7 - |s|;
    SetBit(s, b, k);
    ZeroFirst(s, k);
  }

  lemma ZeroFirst(s: seq<bool>, k: nat)
    ensures s + [false] + Zeros(k) == s + Zeros(k + 1)
  {
    assert [false] + Zeros(k) == Zeros(k + 1);
  }

  lemma ValPadded(s: seq<bool>, k: nat)
    requires k > 0
    ensures NatVal(s + Zeros(k)) == 2 * NatVal(s + Zeros(k - 1))
  {
    assert s + Zeros(k) == (s + Zeros(k - 1)) + [false];
    NatValAppend(s + Zeros(k - 1), false);
  }

  lemma {:induction false} SetBit(s: seq<bool>, b: bool, k: nat)
    ensures NatVal(s + [b] + Zeros(k)) == NatVal(s + [false] + Zeros(k)) + (if b then Pow2(k) else 0)
  {
    if k == 0 {
      NatValAppend(s, b);
      NatValAppend(s, false);
      assert s + [b] + Zeros(0) == s + [b] && s + [false] + Zeros(0) == s + [false];
    } else {
      SetBit(s, b, k - 1);
      ValPadded(s + [b], k);
      ValPadded(s + [false], k);
    }
  }

  /** cur >> 7 and cur << 1: taking the first bit of a padded byte. */
  lemma TakeFirstBit(s: seq<bool>)
    requires 0 < |s| <= 8
    ensures (Padded(s) / 128 == 1) == s[0] && Padded(s) / 128 <= 1
    ensures (Padded(s) * 2) % 256 == Padded(s[1..])
  {
    var k := 8 - |s|;
    var rest := s[1..] + Zeros(k);
    FirstBitVal(s[0], rest);
    assert s + Zeros(k) == [s[0]] + rest;
    assert Padded(s[1..]) == 2 * NatVal(rest) by {
      assert s[1..] + Zeros(k + 1) == rest + [false];
      NatValAppend(rest, false);
    }
  }

  lemma FirstBitVal(b: bool, rest: seq<bool>)
    requires |rest| == 7
    ensures NatVal(rest) < 128 && NatVal([b] + rest) == (if b then 128 else 0) + NatVal(rest)
  {
    ValSplit([b], rest);
    BitsOfVal(rest);
    assert Pow2(7) == 128;
    NatValAppend([], b);
    assert [] + [b] == [b];
    ShlBit(if b then 1 else 0);
  }

  // ---- bitsWriter ----

  class BitsWriter {
    var buf: seq<Byte>
    var cur: Byte
    var nBits: nat
    ghost var stream: seq<bool>

    ghost predicate Valid() reads this {
      && nBits < 8 && |stream| == 8 * |buf| + nBits
      && AllBits(buf) == stream[..8 * |buf|]
      && cur == Padded(stream[8 * |buf|..])
    }

    constructor ()
      ensures Valid() && stream == [] && fresh(this)
    {
      buf, cur, nBits, stream := [], 0, 0, [];
      new;
      ZerosVal(8);
      assert [] + Zeros(8) == Zeros(8);
      assert stream[0..] == [];
    }

    method WriteBit(b: bool)
      requires Valid()
      modifies this
      ensures Valid() && stream == old(stream) + [b]
    {
      ghost var tail := stream[8 * |buf|..];
      SetNextBit(tail, b);
      assert (stream + [b])[8 * |buf|..] == tail + [b];
      assert (stream + [b])[..8 * |buf|] == stream[..8 * |buf|];
      stream := stream + [b];
      var c := cur + (if b then Pow2(7 - nBits) else 0);
      assert c == Padded(tail + [b]);
      cur := c;
      nBits := nBits + 1;
      if nBits == 8 {
        WholeByteBits(tail + [b]);
        PushByteBits(buf, cur);
        assert stream == stream[..8 * |buf|] + (tail + [b]);
        buf := buf + [cur];
        cur, nBits := 0, 0;
        ZerosVal(8);
        assert stream[8 * |buf|..] + Zeros(8) == Zeros(8);
      }
    }

    method WriteBits(val: nat, n: nat)
      requires Valid()
      modifies this
      ensures Valid() && stream == old(stream) + NatBits(val, n)
    {
      var i := n;
      while i > 0
        invariant 0 <= i <= n && Valid()
        invariant stream == old(stream) + NatBits(val, n)[..n - i]
      {
        i := i - 1;
        BitAt(val, n, i);
        assert NatBits(val, n)[..n - i] == NatBits(val, n)[..n - i - 1] + [NatBits(val, n)[n - 1 - i]];
        WriteBit(Shr(val, i) % 2 == 1);
      }
      assert NatBits(val, n)[..n] == NatBits(val, n);
    }

    /** The stream, padded with zero bits to whole bytes. */
    method Bytes() returns (out: seq<Byte>)
      requires Valid()
      ensures out == Pack(stream)
    {
      PackOf(buf, stream);
      if nBits == 0 {
        out := buf;
      } else {
        out := buf + [cur];
      }
    }
  }

  /** Whole bytes holding s, the last one padded with zeros. */
  function Pack(s: seq<bool>): (out: seq<Byte>)
    ensures |out| == (|s| + 7) / 8
  {
    if |s| == 0 then []
    else if |s| < 8 then [Padded(s)]
    else [Padded(s[..8])] + Pack(s[8..])
  }

  lemma WholeByteBits(s: seq<bool>)
    requires |s| == 8
    ensures ByteBits(Padded(s)) == s
  {
    PaddedBits(s);
    assert s + Zeros(0) == s;
  }

  lemma LastByteBits(s: seq<bool>)
    requires 0 < |s| < 8
    ensures AllBits([Padded(s)]) == s + Zeros(Padding(|s|))
  {
    PaddedBits(s);
    assert Padding(|s|) == 8 - |s|;
    FirstByteBits(Padded(s), []);
    assert [Padded(s)] + [] == [Padded(s)];
  }

  lemma PushByteBits(buf: seq<Byte>, b: Byte)
    ensures AllBits(buf + [b]) == AllBits(buf) + ByteBits(b)
  {
    AllBitsConcat(buf, [b]);
    FirstByteBits(b, []);
    assert [b] + [] == [b] && ByteBits(b) + AllBits([]) == ByteBits(b);
  }

  lemma FirstByteBits(b: Byte, rest: seq<Byte>)
    ensures AllBits([b] + rest) == ByteBits(b) + AllBits(rest)
  {
    assert ([b] + rest)[1..] == rest;
  }

  function Padding(n: nat): nat { (8 - n % 8) % 8 }

  lemma PaddingByte(n: nat)
    ensures Padding(n + 8) == Padding(n)
  {
  }

  lemma PadTail(a: seq<bool>, s: seq<bool>)
    requires |a| == 8
    ensures (a + s) + Zeros(Padding(|a + s|)) == a + (s + Zeros(Padding(|s|)))
  {
    var z := Zeros(Padding(|s|));
    PaddingByte(|s|);
    assert (a + s) + z == a + (s + z);
  }

  lemma {:induction false} PackBits(s: seq<bool>)
    ensures AllBits(Pack(s)) == s + Zeros(Padding(|s|))
  {
    if |s| == 0 {
      assert AllBits([]) == [];
    } else if |s| < 8 {
      LastByteBits(s);
    } else {
      var a, rest := s[..8], s[8..];
      PackBits(rest);
      WholeByteBits(a);
      FirstByteBits(Padded(a), Pack(rest));
      assert s == a + rest;
      PadTail(a, rest);
    }
  }

  lemma {:induction false} PackOf(buf: seq<Byte>, s: seq<bool>)
    requires 8 * |buf| <= |s| < 8 * |buf| + 8 && AllBits(buf) == s[..8 * |buf|]
    ensures Pack(s) == buf + (if |s| == 8 * |buf| then [] else [Padded(s[8 * |buf|..])])
  {
    if buf == [] {
      assert s[0..] == s;
    } else {
      assert s[..8] == ByteBits(buf[0]);
      ByteOfBits(buf[0]);
      assert s[8..][..8 * |buf[1..]|] == s[..8 * |buf|][8..];
      PackOf(buf[1..], s[8..]);
      assert s[8..][8 * |buf[1..]|..] == s[8 * |buf|..];
      assert buf == [buf[0]] + buf[1..];
    }
  }

  lemma ByteOfBits(b: Byte)
    ensures Padded(ByteBits(b)) == b
  {
    assert Pow2(8) == 256;
    ValOfBits(b, 8);
    assert ByteBits(b) + Zeros(0) == ByteBits(b);
  }

  // ---- bitsReader ----

  datatype Read<+T> = Eof | Got(value: T, rest: seq<bool>)

  function ReadNat(s: seq<bool>, n: nat): Read<nat> {
    var m := if n > 64 then 64 else n;
    if |s| < m then Eof else Got(NatVal(s[..m]), s[m..])
  }

  class BitsReader {
    const buf: seq<Byte>
    var pos: nat
    var cur: Byte
    var nBits: nat
    ghost var rest: seq<bool>

    ghost predicate Valid() reads this {
      && pos <= |buf| && nBits < 8 && |rest| == nBits + 8 * (|buf| - pos)
      && rest[nBits..] == AllBits(buf[pos..])
      && cur == Padded(rest[..nBits])
    }

    constructor (data: seq<Byte>)
      ensures Valid() && rest == AllBits(data) && buf == data && fresh(this)
    {
      buf, pos, cur, nBits, rest := data, 0, 0, 0, AllBits(data);
      new;
      assert data[0..] == data;
      ZerosVal(8);
      assert rest[..0] + Zeros(8) == Zeros(8);
    }

    method ReadBit() returns (b: Option<bool>)
      requires Valid()
      modifies this
      ensures Valid()
      ensures b.None? <==> old(rest) == []
      ensures b.None? ==> rest == []
      ensures b.Some? ==> b.value == old(rest)[0] && rest == old(rest)[1..]
    {
      if nBits == 0 {
        if pos >= |buf| {
          return None;
        }
        ByteOfBits(buf[pos]);
        assert rest[0..] == rest;
        assert AllBits(buf[pos..]) == ByteBits(buf[pos]) + AllBits(buf[pos..][1..]);
        assert buf[pos..][1..] == buf[pos + 1..];
        assert rest[..8] == ByteBits(buf[pos]);
        cur := buf[pos];
        pos := pos + 1;
        nBits := 8;
        assert rest[8..] == AllBits(buf[pos..]);
      }
      assert cur == Padded(rest[..nBits]);
      TakeFirstBit(rest[..nBits]);
      assert rest[..nBits][1..] == rest[1..][..nBits - 1];
      assert rest[1..][nBits - 1..] == rest[nBits..];
      b := Some(cur / 128 == 1);
      cur := (cur * 2) % 256;
      nBits := nBits - 1;
      rest := rest[1..];
    }

    method ReadBits(n: nat) returns (v: Option<nat>)
      requires Valid()
      modifies this
      ensures Valid()
      ensures v.None? <==> ReadNat(old(rest), n).Eof?
      ensures v.None? ==> rest == []
      ensures v.Some? ==> ReadNat(old(rest), n) == Got(v.value, rest)
    {
      var m := if n > 64 then 64 else n;
      var val := 0;
      var i := 0;
      ghost var all := rest;
      while i < m
        invariant 0 <= i <= m && Valid() && i <= |all| && rest == all[i..]
        invariant val == NatVal(all[..i])
      {
        var b := ReadBit();
        if b.None? { return None; }
        NatValNext(all, i);
        val := val * 2 + (if b.value then 1 else 0);
        i := i + 1;
      }
      v := Some(val);
    }

    /** Whether whole bytes are left unread. */
    method AtEnd() returns (done: bool)
      requires Valid()
      ensures done <==> |rest| < 8
    {
      done := pos >= |buf|;
    }
  }

  /** What was written is what is read, and nothing more is consumed. */
  lemma ReadWritten(v: nat, n: nat, more: seq<bool>)
    requires n <= 64 && v < Pow2(n)
    ensures ReadNat(NatBits(v, n) + more, n) == Got(v, more)
  {
    ValOfBits(v, n);
    var s := NatBits(v, n) + more;
    assert s[..n] == NatBits(v, n) && s[n..] == more;
  }
}
