/** A series' chunk as the head and the compactor see it: samples in insertion
    order, the time bounds Append keeps, and the rule that seals it. The encoded
    form is module ChunkCodec's. */
module Chunks {
  import opened Samples

  const MAX_SAMPLES := 120
  const MAX_SPAN_MS := 7_200_000
  const MAX_GENERATION := 0x4000_0000_0000_0000
  const MIN_INT64 := -0x8000_0000_0000_0000
  const MAX_INT64 := 0x7fff_ffff_ffff_ffff

  predicate Int64(x: int) { MIN_INT64 <= x <= MAX_INT64 }

  /** The value of a 64-bit two's complement result. */
  function Wrap64(x: int): (r: int)
    ensures Int64(r)
  {
    (x - MIN_INT64) % 0x1_0000_0000_0000_0000 + MIN_INT64
  }

  /** id stands for the chunk's identity (its address). */
  datatype Chunk = Chunk(id: nat, samples: seq<Sample>, minTs: int, maxTs: int, sealed: bool)

  function NewChunk(id: nat): Chunk { Chunk(id, [], 0, 0, false) }

  predicate BoundsHold(c: Chunk) {
    && (forall x :: x in c.samples ==> Int64(x.ts) && c.minTs <= x.ts <= c.maxTs)
    && (c.samples != [] ==> Int64(c.minTs) && Int64(c.maxTs))
  }

  function Min(a: int, b: int): int { if a < b then a else b }
  function Max(a: int, b: int): int { if a > b then a else b }

  /** Seal after storing: 120 samples, or a span of two hours. The span is an int64
      difference and wraps; a wrapped, negative one counts as exceeded. */
  predicate SealsAt(n: nat, minTs: int, maxTs: int) {
    var span := Wrap64(maxTs - minTs);
    n >= MAX_SAMPLES || span < 0 || span >= MAX_SPAN_MS
  }

  /** Append to an open chunk. */
  function AppendTo(c: Chunk, x: Sample): Chunk {
    if c.samples == [] then Chunk(c.id, [x], x.ts, x.ts, false)
    else
      var lo, hi := Min(c.minTs, x.ts), Max(c.maxTs, x.ts);
      Chunk(c.id, c.samples + [x], lo, hi, SealsAt(|c.samples| + 1, lo, hi))
  }

  lemma AppendKeepsBounds(c: Chunk, x: Sample)
    requires BoundsHold(c) && Int64(x.ts)
    ensures BoundsHold(AppendTo(c, x))
    ensures SetOf(AppendTo(c, x).samples) == SetOf(c.samples) + {x}
  {
    SetOfAppend(c.samples, x);
  }

  /** A chunk's bounds are timestamps of its own. */
  predicate BoundsMet(c: Chunk) {
    c.samples != [] ==> (exists x :: x in c.samples && x.ts == c.minTs) && exists x :: x in c.samples && x.ts == c.maxTs
  }

  lemma AppendMeetsBounds(c: Chunk, x: Sample)
    requires BoundsMet(c)
    ensures BoundsMet(AppendTo(c, x)) && AppendTo(c, x).samples == c.samples + [x] && AppendTo(c, x).id == c.id
  {
    var d := AppendTo(c, x);
    assert x in d.samples && forall y :: y in c.samples ==> y in d.samples;
    if c.samples == [] { assert c.samples + [x] == [x]; }
  }

  /** No timestamps, however far apart, slip past the sealing rule. */
  lemma ExtremeSpansSeal(n: nat, minTs: int, maxTs: int)
    requires Int64(minTs) && Int64(maxTs) && minTs <= maxTs
    ensures SealsAt(n, minTs, maxTs) <==> n >= 120 || maxTs - minTs >= 2 * 60 * 60 * 1000
  {
    var d := maxTs - minTs;
    if d <= MAX_INT64 {
      assert (d - MIN_INT64) % 0x1_0000_0000_0000_0000 == d - MIN_INT64;
    } else {
      assert (d - MIN_INT64) % 0x1_0000_0000_0000_0000 == d - MIN_INT64 - 0x1_0000_0000_0000_0000;
    }
  }

  function Ids(cs: set<Chunk>): set<nat> { set c | c in cs :: c.id }

  function SamplesOf(cs: seq<Chunk>): set<Sample> {
    set i, x | 0 <= i < |cs| && x in cs[i].samples :: x
  }
}
