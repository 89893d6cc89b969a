/** The in-memory head: per series its chunks, each with the WAL segment that was
    current when it was allocated. The functions say what each operation does to a
    head; class MemoryStore performs it on its fields. */
module Head {
  import opened Samples
  import opened Chunks
  import opened Answers

  /** A chunk and its fence: the chunk's samples all live in segment seg or later. */
  datatype Slot = Slot(chunk: Chunk, seg: int)

  type Head = map<nat, seq<Slot>>

  predicate SlotOk(f: Slot, id: nat) {
    f.seg >= 0 && BoundsHold(f.chunk) && OneSeries(SetOf(f.chunk.samples), id)
  }

  predicate HeadOk(h: Head) {
    forall id, f :: id in h && f in h[id] ==> SlotOk(f, id)
  }

  /** Every chunk in memory with its fence. */
  function Slots(h: Head): set<Slot> {
    set id, f | id in h && f in h[id] :: f
  }

  function SlotSamples(fs: set<Slot>): set<Sample> {
    set f, x | f in fs && x in f.chunk.samples :: x
  }

  function HeadSamples(h: Head): set<Sample> {
    SlotSamples(Slots(h))
  }

  // ---- append ----

  predicate HasOpen(h: Head, id: nat) {
    id in h && h[id] != [] && !h[id][|h[id]| - 1].chunk.sealed
  }

  function Grow(f: Slot, x: Sample): Slot { f.(chunk := AppendTo(f.chunk, x)) }

  /** Append to the series' open last chunk, or to a new one fenced at walSeg. */
  function Append(h: Head, x: Sample, walSeg: int, newId: nat): Head {
    if HasOpen(h, x.series) then
      var n := |h[x.series]| - 1;
      h[x.series := h[x.series][..n] + [Grow(h[x.series][n], x)]]
    else
      h[x.series := (if x.series in h then h[x.series] else []) + [Grow(Slot(NewChunk(newId), walSeg), x)]]
  }

  /** The slot an append goes to, before it. */
  function Target(h: Head, x: Sample, walSeg: int, newId: nat): Slot {
    if HasOpen(h, x.series) then h[x.series][|h[x.series]| - 1] else Slot(NewChunk(newId), walSeg)
  }

  lemma TargetOk(h: Head, x: Sample, walSeg: int, newId: nat)
    requires HeadOk(h) && walSeg >= 0 && Int64(x.ts)
    ensures var t := Target(h, x, walSeg, newId);
      !t.chunk.sealed && SlotOk(t, x.series) && SlotOk(Grow(t, x), x.series)
      && (t in Slots(h) || t == Slot(NewChunk(newId), walSeg))
      && SetOf(Grow(t, x).chunk.samples) == SetOf(t.chunk.samples) + {x}
  {
    var t := Target(h, x, walSeg, newId);
    if HasOpen(h, x.series) {
      assert t in h[x.series];
    }
    AppendKeepsBounds(t.chunk, x);
  }

  /** An append changes one slot and keeps the others; nothing is lost. */
  lemma AppendSlots(h: Head, x: Sample, walSeg: int, newId: nat)
    requires HeadOk(h) && walSeg >= 0 && Int64(x.ts)
    ensures var h' := Append(h, x, walSeg, newId); var t := Target(h, x, walSeg, newId);
      HeadOk(h')
      && (forall f :: f in Slots(h') ==> f in Slots(h) || f == Grow(t, x))
      && (forall f :: f in Slots(h) ==> f in Slots(h') || f == t)
      && Grow(t, x) in Slots(h')
  {
    TargetOk(h, x, walSeg, newId);
    var h', t := Append(h, x, walSeg, newId), Target(h, x, walSeg, newId);
    var s' := h'[x.series];
    var s := if x.series in h then h[x.series] else [];
    assert forall f :: f in s' ==> f in s || f == Grow(t, x);
    assert forall f :: f in s ==> f in s' || f == t by {
      if HasOpen(h, x.series) { assert s == s[..|s| - 1] + [t]; }
    }
    assert s'[|s'| - 1] == Grow(t, x);
    assert forall id :: id in h' && id != x.series ==> id in h && h'[id] == h[id];
    forall id: nat, f: Slot | id in h' && f in h'[id] ensures SlotOk(f, id) && (f in Slots(h) || f == Grow(t, x)) {
      if id == x.series && f in s { assert x.series in h && f in h[x.series]; }
    }
    forall f | f in Slots(h) ensures f in Slots(h') || f == t {
      var id :| id in h && f in h[id];
      assert id in h' && (f in h'[id] || f == t);
    }
    assert Grow(t, x) in h'[x.series];
  }

  lemma AppendSamples(h: Head, x: Sample, walSeg: int, newId: nat)
    requires HeadOk(h) && walSeg >= 0 && Int64(x.ts)
    ensures HeadSamples(Append(h, x, walSeg, newId)) == HeadSamples(h) + {x}
  {
    AppendSlots(h, x, walSeg, newId);
    TargetOk(h, x, walSeg, newId);
    var h', t := Append(h, x, walSeg, newId), Target(h, x, walSeg, newId);
    var g := Grow(t, x);
    assert forall y :: y in g.chunk.samples <==> y in SetOf(g.chunk.samples);
    assert forall y :: y in t.chunk.samples <==> y in SetOf(t.chunk.samples);
    assert x in SetOf(g.chunk.samples);
    forall y | y in HeadSamples(h) ensures y in HeadSamples(h') {
      var f :| f in Slots(h) && y in f.chunk.samples;
    }
    forall y | y in HeadSamples(h') ensures y in HeadSamples(h) + {x} {
      var f :| f in Slots(h') && y in f.chunk.samples;
    }
  }

  // ---- the fence, sealing, dropping ----

  /** -1 for an empty head, else the smallest fence. */
  predicate IsOldest(h: Head, r: int) {
    if Slots(h) == {} then r == -1
    else (forall f :: f in Slots(h) ==> r <= f.seg) && (exists f :: f in Slots(h) && f.seg == r)
  }

  function Refence(s: seq<Slot>, seg: int): seq<Slot> {
    seq(|s|, i requires 0 <= i < |s| => s[i].(seg := seg))
  }

  function SetFence(h: Head, seg: int): Head {
    map id | id in h :: Refence(h[id], seg)
  }

  lemma SetFenceSlots(h: Head, seg: int)
    requires HeadOk(h) && seg >= 0
    ensures HeadOk(SetFence(h, seg))
    ensures forall f :: f in Slots(SetFence(h, seg)) ==> f.seg == seg
    ensures HeadSamples(SetFence(h, seg)) == HeadSamples(h)
  {
    var h' := SetFence(h, seg);
    forall f | f in Slots(h) ensures f.(seg := seg) in Slots(h') {
      var id :| id in h && f in h[id];
      var i :| 0 <= i < |h[id]| && h[id][i] == f;
      assert h'[id][i] == f.(seg := seg);
      assert id in h' && f.(seg := seg) in h'[id];
    }
    forall id: nat, f: Slot | id in h' && f in h'[id]
      ensures f.seg == seg && SlotOk(f, id) && exists g :: g in Slots(h) && g.chunk == f.chunk
    {
      var i :| 0 <= i < |h'[id]| && h'[id][i] == f;
      assert h[id][i] in h[id];
    }
  }

  function SealLast(s: seq<Slot>): seq<Slot> {
    if s == [] then s
    else
      var n := |s| - 1;
      if !s[n].chunk.sealed && s[n].chunk.samples != [] then s[..n] + [s[n].(chunk := s[n].chunk.(sealed := true))] else s
  }

  /** Seal every series' open chunk, so that a flush takes the whole head. */
  function SealHead(h: Head): Head {
    map id | id in h :: SealLast(h[id])
  }

  predicate SealedFrom(h: Head, f: Slot) {
    f in Slots(h) || (f.chunk.sealed && f.(chunk := f.chunk.(sealed := false)) in Slots(h))
  }

  /** Sealing changes nothing but the seal: same chunks, same fences, same samples. */
  lemma SealHeadSlots(h: Head)
    requires HeadOk(h)
    ensures HeadOk(SealHead(h))
    ensures forall f :: f in Slots(SealHead(h)) ==> SealedFrom(h, f)
  {
    var h' := SealHead(h);
    forall id: nat, f: Slot | id in h' && f in h'[id] ensures SlotOk(f, id) && SealedFrom(h, f) {
      var i :| 0 <= i < |h'[id]| && h'[id][i] == f;
      assert h[id][i] in h[id] && h[id][i] in Slots(h);
      assert f == h[id][i] || f.(chunk := f.chunk.(sealed := false)) == h[id][i];
    }
  }

  lemma SealSamples(h: Head)
    requires HeadOk(h)
    ensures HeadSamples(SealHead(h)) == HeadSamples(h)
  {
    var h': Head := SealHead(h);
    SealHeadSlots(h);
    forall x | x in HeadSamples(h) ensures x in HeadSamples(h') {
      var g :| g in Slots(h) && x in g.chunk.samples;
      var id :| id in h && g in h[id];
      var i :| 0 <= i < |h[id]| && h[id][i] == g;
      assert h'[id][i] in h'[id] && h'[id][i].chunk.samples == g.chunk.samples;
    }
  }

  /** The sealed chunks a flush takes. */
  function SealedChunks(h: Head): set<Chunk> {
    set f | f in Slots(h) && f.chunk.sealed :: f.chunk
  }

  function Keep(s: seq<Slot>, drop: set<nat>): (r: seq<Slot>)
    ensures forall f :: f in r <==> f in s && f.chunk.id !in drop
  {
    if s == [] then []
    else
      var n := |s| - 1;
      assert s == s[..n] + [s[n]];
      Keep(s[..n], drop) + (if s[n].chunk.id in drop then [] else [s[n]])
  }

  /** Drop exactly the listed chunks, by identity. */
  function Discard(h: Head, drop: set<nat>): Head {
    map id | id in h :: Keep(h[id], drop)
  }

  lemma DiscardSlots(h: Head, drop: set<nat>)
    requires HeadOk(h)
    ensures HeadOk(Discard(h, drop))
    ensures Slots(Discard(h, drop)) == set f | f in Slots(h) && f.chunk.id !in drop
  {
    var h' := Discard(h, drop);
    forall f | f in Slots(h) && f.chunk.id !in drop ensures f in Slots(h') {
      var id :| id in h && f in h[id];
      assert id in h' && f in h'[id];
    }
    forall f | f in Slots(h') ensures f in Slots(h) && f.chunk.id !in drop {
      var id :| id in h' && f in h'[id];
      assert id in h && f in h[id];
    }
  }

  // ---- chunk identity ----

  predicate NoDupIds(s: seq<Slot>) {
    forall i, j :: 0 <= i < j < |s| ==> s[i].chunk.id != s[j].chunk.id
  }

  function IdsOf(s: seq<Slot>): set<nat> { set i | 0 <= i < |s| :: s[i].chunk.id }

  /** No two chunks in memory share an identity. */
  predicate UniqueIds(h: Head) {
    && (forall k :: k in h ==> NoDupIds(h[k]))
    && (forall k, m :: k in h && m in h && k != m ==> IdsOf(h[k]) !! IdsOf(h[m]))
  }

  predicate IdsBelow(h: Head, n: nat) {
    forall k :: k in h ==> forall d :: d in IdsOf(h[k]) ==> d < n
  }

  lemma SlotIdBelow(h: Head, n: nat, f: Slot)
    requires IdsBelow(h, n) && f in Slots(h)
    ensures f.chunk.id < n
  {
    var k :| k in h && f in h[k];
    var i :| 0 <= i < |h[k]| && h[k][i] == f;
    assert f.chunk.id in IdsOf(h[k]);
  }

  lemma SameIdSameSlot(h: Head, f: Slot, g: Slot)
    requires UniqueIds(h) && f in Slots(h) && g in Slots(h) && f.chunk.id == g.chunk.id
    ensures f == g
  {
    var k :| k in h && f in h[k];
    var m :| m in h && g in h[m];
    var i :| 0 <= i < |h[k]| && h[k][i] == f;
    var j :| 0 <= j < |h[m]| && h[m][j] == g;
    assert f.chunk.id in IdsOf(h[k]) && g.chunk.id in IdsOf(h[m]);
  }

  /** Growing the last slot or adding one with a new identity. */
  lemma GrowIds(s: seq<Slot>, x: Sample, f: Slot)
    requires NoDupIds(s)
    ensures IdsOf(s + [Grow(f, x)]) == IdsOf(s) + {f.chunk.id}
    ensures s != [] ==> NoDupIds(s[..|s| - 1] + [Grow(s[|s| - 1], x)])
    ensures s != [] ==> IdsOf(s[..|s| - 1] + [Grow(s[|s| - 1], x)]) == IdsOf(s)
    ensures f.chunk.id !in IdsOf(s) ==> NoDupIds(s + [Grow(f, x)])
  {
    var n := |s|;
    var t := s + [Grow(f, x)];
    assert IdsOf(t) == IdsOf(s) + {f.chunk.id} by {
      assert t[n].chunk.id == f.chunk.id;
      assert forall i :: 0 <= i < n ==> t[i] == s[i];
    }
    if n > 0 {
      var u := s[..n - 1] + [Grow(s[n - 1], x)];
      assert |u| == n && forall i :: 0 <= i < n ==> u[i].chunk.id == s[i].chunk.id;
      SameIds(s, u);
    }
  }

  /** Identities, and so their uniqueness, are positions' alone. */
  lemma SameIds(s: seq<Slot>, t: seq<Slot>)
    requires |t| == |s| && forall i :: 0 <= i < |s| ==> t[i].chunk.id == s[i].chunk.id
    ensures IdsOf(t) == IdsOf(s) && (NoDupIds(s) ==> NoDupIds(t))
  {
  }

  lemma AppendUnique(h: Head, x: Sample, walSeg: int, newId: nat)
    requires UniqueIds(h) && IdsBelow(h, newId)
    ensures UniqueIds(Append(h, x, walSeg, newId)) && IdsBelow(Append(h, x, walSeg, newId), newId + 1)
    ensures HasOpen(h, x.series) ==> IdsBelow(Append(h, x, walSeg, newId), newId)
  {
    var s := if x.series in h then h[x.series] else [];
    GrowIds(s, x, Slot(NewChunk(newId), walSeg));
  }

  /** Series whose identities only shrink keep them unique. */
  lemma FewerIdsUnique(h: Head, h': Head)
    requires UniqueIds(h) && h'.Keys == h.Keys
    requires forall k :: k in h ==> IdsOf(h'[k]) <= IdsOf(h[k]) && NoDupIds(h'[k])
    ensures UniqueIds(h') && forall n :: IdsBelow(h, n) ==> IdsBelow(h', n)
  {
  }

  lemma SealUnique(h: Head)
    requires UniqueIds(h)
    ensures UniqueIds(SealHead(h)) && forall n :: IdsBelow(h, n) ==> IdsBelow(SealHead(h), n)
  {
    forall k: nat | k in h ensures IdsOf(SealLast(h[k])) == IdsOf(h[k]) && NoDupIds(SealLast(h[k])) {
      SameIds(h[k], SealLast(h[k]));
    }
    FewerIdsUnique(h, SealHead(h));
  }

  lemma FenceUnique(h: Head, seg: int)
    requires UniqueIds(h)
    ensures UniqueIds(SetFence(h, seg)) && forall n :: IdsBelow(h, n) ==> IdsBelow(SetFence(h, seg), n)
  {
    forall k: nat | k in h ensures IdsOf(Refence(h[k], seg)) == IdsOf(h[k]) && NoDupIds(Refence(h[k], seg)) {
      SameIds(h[k], Refence(h[k], seg));
    }
    FewerIdsUnique(h, SetFence(h, seg));
  }

  /** What a head keeps: well-formed slots and identities, all below n. */
  ghost predicate Sound(h: Head, n: nat) {
    HeadOk(h) && UniqueIds(h) && IdsBelow(h, n)
  }

  lemma SealSound(h: Head, n: nat)
    requires Sound(h, n)
    ensures Sound(SealHead(h), n)
  {
    SealHeadSlots(h);
    SealUnique(h);
  }

  lemma FenceSound(h: Head, seg: int, n: nat)
    requires Sound(h, n) && seg >= 0
    ensures Sound(SetFence(h, seg), n)
  {
    SetFenceSlots(h, seg);
    FenceUnique(h, seg);
  }

  lemma DiscardSound(h: Head, drop: set<nat>, n: nat)
    requires Sound(h, n)
    ensures Sound(Discard(h, drop), n)
  {
    DiscardSlots(h, drop);
    DiscardUnique(h, drop);
  }

  lemma {:induction false} KeepNoDup(s: seq<Slot>, drop: set<nat>)
    requires NoDupIds(s)
    ensures NoDupIds(Keep(s, drop)) && IdsOf(Keep(s, drop)) <= IdsOf(s)
  {
    if s != [] {
      var n := |s| - 1;
      KeepNoDup(s[..n], drop);
      var r := Keep(s[..n], drop);
      forall i | 0 <= i < |r| ensures r[i].chunk.id != s[n].chunk.id {
        assert r[i] in r;
        var j :| 0 <= j < n && s[..n][j] == r[i];
      }
    }
  }

  lemma DiscardUnique(h: Head, drop: set<nat>)
    requires UniqueIds(h)
    ensures UniqueIds(Discard(h, drop)) && forall n :: IdsBelow(h, n) ==> IdsBelow(Discard(h, drop), n)
  {
    forall k: nat | k in h ensures NoDupIds(Keep(h[k], drop)) && IdsOf(Keep(h[k], drop)) <= IdsOf(h[k]) { KeepNoDup(h[k], drop); }
    FewerIdsUnique(h, Discard(h, drop));
  }

  // ---- replay ----

  /** The head a replay builds from the records in order; SetFence follows. */
  function Replay(records: seq<Sample>): Head {
    if records == [] then map[]
    else
      var n := |records| - 1;
      Append(Replay(records[..n]), records[n], 0, n)
  }

  lemma {:induction false} ReplayOk(records: seq<Sample>)
    requires forall x :: x in records ==> Int64(x.ts)
    ensures HeadOk(Replay(records)) && UniqueIds(Replay(records)) && IdsBelow(Replay(records), |records|)
    ensures HeadSamples(Replay(records)) == SetOf(records)
  {
    if records != [] {
      var n := |records| - 1;
      ReplayOk(records[..n]);
      AppendSlots(Replay(records[..n]), records[n], 0, n);
      AppendSamples(Replay(records[..n]), records[n], 0, n);
      AppendUnique(Replay(records[..n]), records[n], 0, n);
      assert records == records[..n] + [records[n]];
      SetOfAppend(records[..n], records[n]);
    }
  }

  /** The head after a replay and SetHeadFence(seg). */
  lemma ReplayFenced(records: seq<Sample>, seg: int)
    requires seg >= 0 && forall x :: x in records ==> Int64(x.ts)
    ensures var h := SetFence(Replay(records), seg);
      HeadOk(h) && UniqueIds(h) && IdsBelow(h, |records|)
      && HeadSamples(h) == SetOf(records) && forall f :: f in Slots(h) ==> f.seg == seg
  {
    ReplayOk(records);
    SetFenceSlots(Replay(records), seg);
    FenceUnique(Replay(records), seg);
  }
}
