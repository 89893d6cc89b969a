/** The storage engine as a state machine over its atomic steps: WAL write, rotation,
    head append, flush, block commit and registration, chunk drop, checkpoint write,
    segment deletion, compaction, crash and restart, interleaved in any order. What
    every run keeps: no acknowledged write is lost, and a query sees the
    last-write-wins winner of what was written. */
module Engine {
  import opened Samples
  import opened Chunks
  import opened Head
  import opened Reclaim
  import opened Answers
  import Compaction

  /** All-in-one owns its blocks; a split ingester ships them to stores that keep
      running when it crashes, and persists a generation floor instead. */
  datatype Mode = AllInOne | Split

  /** The one append holding the append lock. walSeg is the segment index it read
      before writing its record. */
  datatype Pending = Idle | Reserved(x: Sample, walSeg: int) | Logged(x: Sample, walSeg: int)

  /** One flush: sends its snapshot batch by batch, dropping what is registered, then
      samples the deletion boundary under the append lock, records it, and deletes. */
  datatype Flush =
    | Sending(todo: set<Chunk>, sent: set<Chunk>)
    | Committed(todo: set<Chunk>, sent: set<Chunk>, name: string, block: Block, batch: set<Chunk>)
    | Drained
    | Boundary(b: int)
    | Recorded(b: int)

  datatype State = State(
    mode: Mode, up: bool,
    // on disk
    segs: map<int, set<Sample>>, ckpt: int, disk: map<string, Block>, floor: int,
    // in memory
    segIndex: int, pending: Pending, head: Head, nextGen: int, nextId: nat,
    live: map<string, Block>, flushes: map<nat, Flush>,
    // history: acknowledged, recorded in the WAL, and recorded but refused
    acked: set<Sample>, written: set<Sample>, failed: set<Sample>)

  datatype Step =
    | ReserveOwn(id: nat, ts: int, bits: nat, clock: int)
    | ReserveStamped(stamped: Sample)
    | AbandonReserve
    | LogRecord
    | Rotate
    | FailLogged
    | Apply
    | SealAll
    | FlushStart(f: nat)
    | Commit(f: nat, name: string, block: Block, batch: set<Chunk>)
    | Register(f: nat)
    | DropSent(f: nat)
    | FlushSent(f: nat)
    | Abort(f: nat, cleanup: bool)
    | Compute(f: nat, oldest: int)
    | TearCheckpoint(f: nat, v: int)
    | WriteCheckpoint(f: nat)
    | DeleteSegment(f: nat, i: int)
    | EndFlush(f: nat)
    | CommitCompaction(ids: seq<string>, name: string, block: Block)
    | SwapCompaction(ids: seq<string>, name: string, block: Block)
    | RemoveBlock(name: string)
    | RegisterStored(name: string)
    | LandLate(name: string, block: Block)
    | Crash
    | RetireAtStart(witnesses: map<string, Block>, vb: VerifiedBy, R: set<string>, M: set<string>)
    | Restart(witnesses: map<string, Block>, vb: VerifiedBy, R: set<string>, records: seq<Sample>, idx: int)

  // ---- what a state holds ----

  function ChunkSamples(cs: set<Chunk>): set<Sample> {
    set c, x | c in cs && x in c.samples :: x
  }

  /** The records a replay after checkpoint c reads. */
  function After(segs: map<int, set<Sample>>, c: int): set<Sample> {
    set i, x | i in segs && i > c && x in segs[i] :: x
  }

  /** x is recorded in segment g or a later one. */
  predicate InSegFrom(segs: map<int, set<Sample>>, g: int, x: Sample) {
    exists i :: i in segs && g <= i && x in segs[i]
  }

  /** What a query of a running process reads: the head and the registered blocks. */
  function Visible(s: State): set<Sample> {
    HeadSamples(s.head) + AllHeld(s.live)
  }

  /** The blocks a restart will serve from. */
  function Base(s: State): set<Sample> {
    if s.mode.Split? then AllHeld(s.live) else AllHeld(s.disk)
  }

  /** What a restart can recover: those blocks, and the WAL above the checkpoint. */
  function Durable(s: State): set<Sample> {
    Base(s) + After(s.segs, s.ckpt)
  }

  function FlushChunks(fl: Flush): set<Chunk> {
    match fl
    case Sending(todo, sent) => todo + sent
    case Committed(todo, sent, _, _, batch) => todo + sent + batch
    case _ => {}
  }

  function SentChunks(fl: Flush): set<Chunk> {
    match fl
    case Sending(_, sent) => sent
    case Committed(_, sent, _, _, _) => sent
    case _ => {}
  }

  predicate Fresh(s: State, name: string) {
    name !in s.disk && name !in s.live
  }

  // ---- the steps ----

  /** The process that owns the blocks runs: a split ingester's stores always do. */
  predicate StoresUp(s: State) {
    s.up || s.mode.Split?
  }

  /** The steps of the block stores, which in a split deployment do not wait for the
      ingester. A store may also finish registering a block whose sender has died, or
      commit one whose sender has: any block of recorded samples below the floor. */
  predicate AtStores(t: Step) {
    t.CommitCompaction? || t.SwapCompaction? || t.RemoveBlock? || t.RegisterStored? || t.LandLate?
  }

  ghost predicate Init(s: State, mode: Mode) {
    s == State(mode, true, map[1 := {}], 0, map[], 1, 1, Idle, map[], 1, 0, map[], map[], {}, {}, {})
  }

  ghost predicate Enabled(s: State, t: Step) {
    match t
    case ReserveOwn(id, ts, bits, clock) =>
      s.up && s.pending.Idle? && Int64(ts) && Max(s.nextGen, clock) <= MAX_GENERATION
    case ReserveStamped(x) => s.up && s.pending.Idle? && Int64(x.ts) && 1 <= x.gen <= MAX_GENERATION
    case AbandonReserve => s.up && s.pending.Reserved?
    case LogRecord => s.up && s.pending.Reserved? && s.segIndex in s.segs
    case Rotate => s.up && s.pending.Logged? && s.segIndex + 1 !in s.segs
    case FailLogged => s.up && s.pending.Logged?
    case Apply => s.up && s.pending.Logged?
    case SealAll => s.up && s.pending.Idle?
    case FlushStart(f) => s.up && f !in s.flushes && SealedChunks(s.head) != {}
    case Commit(f, name, b, batch) =>
      s.up && f in s.flushes && s.flushes[f].Sending? && batch <= s.flushes[f].todo && Fresh(s, name)
      && WellFormed(b) && b.sources == [] && Held(b) == ChunkSamples(batch)
    case Register(f) =>
      s.up && f in s.flushes && s.flushes[f].Committed?
      && s.flushes[f].name in s.disk && s.disk[s.flushes[f].name] == s.flushes[f].block && s.flushes[f].name !in s.live
    case DropSent(f) => s.up && f in s.flushes && s.flushes[f].Sending?
    case FlushSent(f) => s.up && f in s.flushes && s.flushes[f] == Sending({}, {})
    case Abort(f, cleanup) => s.up && f in s.flushes
    case Compute(f, oldest) => s.up && f in s.flushes && s.flushes[f].Drained? && s.pending.Idle? && IsOldest(s.head, oldest)
    case TearCheckpoint(f, v) => s.up && f in s.flushes && s.flushes[f].Boundary? && 0 <= v <= s.flushes[f].b
    case WriteCheckpoint(f) => s.up && f in s.flushes && s.flushes[f].Boundary?
    case DeleteSegment(f, i) => s.up && f in s.flushes && s.flushes[f].Recorded? && i <= s.flushes[f].b
    case EndFlush(f) => s.up && f in s.flushes && s.flushes[f].Recorded? && forall i :: i in s.segs ==> i > s.flushes[f].b
    case CommitCompaction(ids, name, out) => StoresUp(s) && Fresh(s, name) && Compactable(s, ids, name, out)
    case SwapCompaction(ids, name, out) =>
      StoresUp(s) && name in s.disk && s.disk[name] == out && name !in s.live && Compactable(s, ids, name, out)
    case RemoveBlock(name) => StoresUp(s) && name !in s.live
    case RegisterStored(name) => s.mode.Split? && name in s.disk && name !in s.live
    case LandLate(name, b) =>
      s.mode.Split? && Fresh(s, name) && WellFormed(b) && b.sources == [] && Held(b) <= s.written && GensBelow(Held(b), s.floor)
    case Crash => s.up
    case RetireAtStart(witnesses, vb, R, M) =>
      !s.up && s.mode.AllInOne? && M <= R && IsVerifiedBy(s.disk, witnesses, vb) && LeastClosed(vb, R)
    case Restart(witnesses, vb, R, records, idx) =>
      && !s.up
      && (s.mode.AllInOne? ==> IsVerifiedBy(s.disk, witnesses, vb) && LeastClosed(vb, R))
      && SetOf(records) == After(s.segs, s.ckpt)
      && idx - 1 in s.segs && (forall i :: i in s.segs ==> i < idx)
  }

  /** out is the verified merge of the live blocks ids (Compaction.Compact). */
  ghost predicate Compactable(s: State, ids: seq<string>, name: string, out: Block) {
    && (forall i :: 0 <= i < |ids| ==> ids[i] in s.live)
    && Compaction.IsCompacted(out, ids, Compaction.Pick(s.live, ids))
  }

  /** The registered blocks after a restart. */
  function Reopened(s: State, R: set<string>): map<string, Block> {
    if s.mode.Split? then s.live else Without(s.disk, R)
  }

  function GenAfterRestart(s: State, kept: map<string, Block>): int {
    Max(if s.mode.Split? then s.floor else MaxGen(AllHeld(kept)) + 1, MaxGen(After(s.segs, s.ckpt)) + 1)
  }

  ghost function Next(s: State, t: Step): State
    requires Enabled(s, t)
  {
    match t
    case ReserveOwn(id, ts, bits, clock) =>
      var gen := Max(s.nextGen, clock);
      s.(pending := Reserved(Sample(id, ts, bits, gen), s.segIndex), nextGen := gen + 1)
    case ReserveStamped(x) => s.(pending := Reserved(x, s.segIndex))
    case AbandonReserve => s.(pending := Idle)
    case LogRecord =>
      var x := s.pending.x;
      s.(segs := s.segs[s.segIndex := s.segs[s.segIndex] + {x}], pending := Logged(x, s.pending.walSeg), written := s.written + {x})
    case Rotate => s.(segs := s.segs[s.segIndex + 1 := {}], segIndex := s.segIndex + 1)
    case FailLogged => s.(pending := Idle, failed := s.failed + {s.pending.x})
    case Apply =>
      var x := s.pending.x;
      s.(head := Append(s.head, x, s.pending.walSeg, s.nextId), nextId := s.nextId + 1,
         nextGen := Max(s.nextGen, x.gen + 1), acked := s.acked + {x}, pending := Idle)
    case SealAll => s.(head := SealHead(s.head))
    case FlushStart(f) =>
      s.(flushes := s.flushes[f := Sending(SealedChunks(s.head), {})], floor := if s.mode.Split? then s.nextGen else s.floor)
    case Commit(f, name, b, batch) =>
      var fl := s.flushes[f];
      s.(disk := s.disk[name := b], flushes := s.flushes[f := Committed(fl.todo - batch, fl.sent, name, b, batch)])
    case Register(f) =>
      var fl := s.flushes[f];
      s.(live := s.live[fl.name := fl.block], flushes := s.flushes[f := Sending(fl.todo, fl.sent + fl.batch)])
    case DropSent(f) =>
      var fl := s.flushes[f];
      s.(head := Discard(s.head, Ids(fl.sent)), flushes := s.flushes[f := Sending(fl.todo, {})])
    case FlushSent(f) => s.(flushes := s.flushes[f := Drained])
    case Abort(f, cleanup) =>
      var fl := s.flushes[f];
      var disk := if cleanup && fl.Committed? && fl.name !in s.live then Without(s.disk, {fl.name}) else s.disk;
      s.(flushes := s.flushes - {f}, disk := disk)
    case Compute(f, oldest) => s.(flushes := s.flushes[f := Boundary(if oldest < 0 then s.segIndex - 1 else oldest - 1)])
    case TearCheckpoint(f, v) => s.(ckpt := v)
    case WriteCheckpoint(f) => s.(ckpt := s.flushes[f].b, flushes := s.flushes[f := Recorded(s.flushes[f].b)])
    case DeleteSegment(f, i) => s.(segs := s.segs - {i})
    case EndFlush(f) => s.(flushes := s.flushes - {f})
    case CommitCompaction(ids, name, out) => s.(disk := s.disk[name := out])
    case SwapCompaction(ids, name, out) => s.(live := Compaction.Swap(s.live, Compaction.Names(ids), name, out))
    case RemoveBlock(name) => s.(disk := Without(s.disk, {name}))
    case RegisterStored(name) => s.(live := s.live[name := s.disk[name]])
    case LandLate(name, b) => s.(disk := s.disk[name := b])
    case Crash =>
      s.(up := false, pending := Idle, head := map[], flushes := map[], live := if s.mode.Split? then s.live else map[])
    case RetireAtStart(witnesses, vb, R, M) => s.(disk := Without(s.disk, M))
    case Restart(witnesses, vb, R, records, idx) =>
      var kept := Reopened(s, R);
      s.(up := true, live := kept, head := SetFence(Replay(records), s.ckpt + 1), segs := s.segs[idx := {}], segIndex := idx,
         nextGen := GenAfterRestart(s, kept), nextId := |records|)
  }

  // ---- the invariant ----

  ghost predicate BlocksOk(s: State) {
    && AllWellFormed(s.disk)
    && (forall n :: n in s.live ==> n in s.disk && s.disk[n] == s.live[n])
    && AllHeld(s.disk) <= s.written
    && (forall i :: i in s.segs ==> s.segs[i] <= s.written)
    && (forall x :: x in s.written ==> Int64(x.ts))
    && 0 <= s.ckpt
  }

  ghost predicate SegsOk(s: State) {
    && s.segIndex in s.segs && s.ckpt < s.segIndex
    && (forall i :: i in s.segs ==> i <= s.segIndex)
  }

  /** The fence: a chunk's samples are recorded at its segment or later, and that
      segment is above the checkpoint. */
  ghost predicate FenceOk(s: State) {
    && HeadOk(s.head) && HeadSamples(s.head) <= s.written && UniqueIds(s.head) && IdsBelow(s.head, s.nextId)
    && FencedHead(s.segs, s.ckpt, s.segIndex, s.head)
  }

  ghost predicate Fenced(segs: map<int, set<Sample>>, f: Slot) {
    forall x :: x in f.chunk.samples ==> InSegFrom(segs, f.seg, x)
  }

  ghost predicate PendingOk(s: State) {
    && (!s.pending.Idle? ==> s.ckpt < s.pending.walSeg <= s.segIndex && Int64(s.pending.x.ts))
    && (!s.pending.Idle? ==> forall f :: f in Slots(s.head) ==> f.seg <= s.pending.walSeg)
    && (s.pending.Logged? ==> s.pending.x in s.written && InSegFrom(s.segs, s.pending.walSeg, s.pending.x))
  }

  /** Every boundary a flush has computed stays below all unflushed data. */
  ghost predicate BoundaryOk(s: State, b: int) {
    && 0 <= b < s.segIndex
    && (forall f :: f in Slots(s.head) ==> b < f.seg)
    && (!s.pending.Idle? ==> b < s.pending.walSeg)
  }

  ghost predicate FlushOk(s: State, fl: Flush) {
    && (fl.Boundary? || fl.Recorded? ==> BoundaryOk(s, fl.b))
    && (forall c :: c in FlushChunks(fl) ==> c.sealed && c.id < s.nextId)
    && (forall c, f :: c in FlushChunks(fl) && f in Slots(s.head) && f.chunk.id == c.id ==> f.chunk == c)
    && ChunkSamples(FlushChunks(fl)) <= s.written
    && CoversAll(AllHeld(s.live), ChunkSamples(SentChunks(fl)))
    && (fl.Committed? ==> WellFormed(fl.block) && Held(fl.block) == ChunkSamples(fl.batch))
  }

  ghost predicate FlushesOk(s: State) {
    forall f :: f in s.flushes ==> FlushOk(s, s.flushes[f])
  }

  predicate InFlight(s: State, x: Sample) {
    s.pending.Logged? && s.pending.x == x
  }

  ghost predicate SeenOk(s: State) {
    && CoversAll(Visible(s), s.acked)
    && (forall x {:trigger Covers(Visible(s), x)} :: x in s.written ==> Covers(Visible(s), x) || x in s.failed || InFlight(s, x))
  }

  predicate GensBelow(S: set<Sample>, g: int) {
    forall x :: x in S ==> x.gen < g
  }

  ghost predicate GensOk(s: State) {
    && GensBelow(HeadSamples(s.head), s.nextGen)
    && GensBelow(AllHeld(s.disk), s.nextGen)
    && (forall f :: f in s.flushes ==> GensBelow(ChunkSamples(FlushChunks(s.flushes[f])), if s.mode.Split? then s.floor else s.nextGen))
    && (s.mode.Split? ==> GensBelow(AllHeld(s.disk), s.floor) && s.floor <= s.nextGen)
  }

  ghost predicate UpInv(s: State) {
    BlocksOk(s) && SegsOk(s) && FenceOk(s) && PendingOk(s) && FlushesOk(s) && SeenOk(s) && GensOk(s)
  }

  ghost predicate DownInv(s: State) {
    && BlocksOk(s) && s.pending.Idle? && s.head == map[] && s.flushes == map[]
    && (s.mode.AllInOne? ==> s.live == map[])
    && (exists i :: i in s.segs && i > s.ckpt)
    && CoversAll(Durable(s), s.acked)
    && (forall x {:trigger Covers(Durable(s), x)} :: x in s.written ==> Covers(Durable(s), x) || x in s.failed)
    && (s.mode.Split? ==> GensBelow(AllHeld(s.disk), s.floor))
  }

  ghost predicate Inv(s: State) {
    if s.up then UpInv(s) else DownInv(s)
  }

  lemma InitInv(s: State, mode: Mode)
    requires Init(s, mode)
    ensures Inv(s)
  {
  }

  // ---- helpers ----

  /** Nothing visible is lost and no new obligation arises. */
  lemma SeenGrows(s: State, s': State)
    requires SeenOk(s) && CoversAll(Visible(s'), Visible(s))
    requires s'.acked == s.acked && s'.written == s.written && s.failed <= s'.failed
    requires forall x :: InFlight(s, x) ==> InFlight(s', x) || x in s'.failed
    ensures SeenOk(s')
  {
    CoversTrans(Visible(s'), Visible(s), s.acked);
    forall x | x in s'.written ensures Covers(Visible(s'), x) || x in s'.failed || InFlight(s', x) {
      if Covers(Visible(s), x) { CoversOne(Visible(s'), Visible(s), x); }
    }
  }

  lemma VisibleSuperset(s: State, s': State)
    requires Visible(s) <= Visible(s')
    ensures CoversAll(Visible(s'), Visible(s))
  {
    CoversSelf(Visible(s'), Visible(s));
  }

  lemma HeldGrows(bs: map<string, Block>, name: string, b: Block)
    requires name !in bs
    ensures AllHeld(bs[name := b]) == AllHeld(bs) + Held(b)
  {
    var bs' := bs[name := b];
    forall x ensures x in AllHeld(bs') <==> x in AllHeld(bs) + Held(b) {
      if x in Held(b) { assert name in bs' && x in Held(bs'[name]); }
      if x in AllHeld(bs) {
        var n :| n in bs && x in Held(bs[n]);
        assert n in bs' && bs'[n] == bs[n];
      }
    }
  }

  lemma HeldShrinks(bs: map<string, Block>, M: set<string>)
    ensures AllHeld(Without(bs, M)) <= AllHeld(bs)
  {
    forall x | x in AllHeld(Without(bs, M)) ensures x in AllHeld(bs) {
      var n :| n in Without(bs, M) && x in Held(Without(bs, M)[n]);
      assert n in bs && x in Held(bs[n]);
    }
  }

  lemma LiveIsHeld(s: State)
    requires BlocksOk(s)
    ensures AllHeld(s.live) <= AllHeld(s.disk) && AllWellFormed(s.live)
  {
    forall x | x in AllHeld(s.live) ensures x in AllHeld(s.disk) {
      var n :| n in s.live && x in Held(s.live[n]);
      assert n in s.disk && x in Held(s.disk[n]);
    }
  }

  lemma SlotInHead(s: State, f: Slot)
    requires FenceOk(s) && f in Slots(s.head)
    ensures f.chunk.id < s.nextId && ChunkSamples({f.chunk}) <= HeadSamples(s.head) <= s.written
  {
    SlotIdBelow(s.head, s.nextId, f);
  }

  // ---- appends ----

  lemma ReserveInv(s: State, t: Step)
    requires UpInv(s) && Enabled(s, t) && (t.ReserveOwn? || t.ReserveStamped? || t.AbandonReserve?)
    ensures UpInv(Next(s, t))
  {
    var s' := Next(s, t);
    assert Visible(s') == Visible(s);
    CoversSelf(Visible(s'), Visible(s));
    SeenGrows(s, s');
  }

  lemma LogInv(s: State)
    requires UpInv(s) && Enabled(s, LogRecord)
    ensures UpInv(Next(s, LogRecord))
  {
    var s' := Next(s, LogRecord);
    var x := s.pending.x;
    forall g, y | InSegFrom(s.segs, g, y) ensures InSegFrom(s'.segs, g, y) {
      var i :| i in s.segs && g <= i && y in s.segs[i];
      assert i in s'.segs && y in s'.segs[i];
    }
    assert x in s'.segs[s'.segIndex] && InSegFrom(s'.segs, s.pending.walSeg, x);
    assert SeenOk(s') by {
      assert Visible(s') == Visible(s);
      forall y | y in s'.written ensures Covers(Visible(s'), y) || y in s'.failed || InFlight(s', y) {
        if y != x { assert y in s.written; assert Covers(Visible(s), y) || y in s.failed || InFlight(s, y); }
      }
    }
  }

  lemma RotateInv(s: State)
    requires UpInv(s) && Enabled(s, Rotate)
    ensures UpInv(Next(s, Rotate))
  {
    var s' := Next(s, Rotate);
    forall g, y | InSegFrom(s.segs, g, y) ensures InSegFrom(s'.segs, g, y) {
      var i :| i in s.segs && g <= i && y in s.segs[i];
      assert i in s'.segs && y in s'.segs[i];
    }
    assert Visible(s') == Visible(s);
    CoversSelf(Visible(s'), Visible(s));
    SeenGrows(s, s');
  }

  lemma FailInv(s: State)
    requires UpInv(s) && Enabled(s, FailLogged)
    ensures UpInv(Next(s, FailLogged))
  {
    var s' := Next(s, FailLogged);
    assert Visible(s') == Visible(s);
    CoversSelf(Visible(s'), Visible(s));
    SeenGrows(s, s');
  }

  ghost predicate FencedHead(segs: map<int, set<Sample>>, lo: int, hi: int, h: Head) {
    forall f :: f in Slots(h) ==> lo < f.seg <= hi && Fenced(segs, f)
  }

  /** A record reaching the head: its slot's fence is at or below its segment. */
  lemma AppendFenced(segs: map<int, set<Sample>>, lo: int, hi: int, h: Head, x: Sample, w: int, newId: nat)
    requires HeadOk(h) && FencedHead(segs, lo, hi, h) && Int64(x.ts)
    requires 0 <= lo < w <= hi && InSegFrom(segs, w, x)
    requires forall f :: f in Slots(h) ==> f.seg <= w
    ensures FencedHead(segs, lo, hi, Append(h, x, w, newId))
  {
    AppendSlots(h, x, w, newId);
    var t := Target(h, x, w, newId);
    TargetOk(h, x, w, newId);
    GrownFenced(segs, t, x, w);
  }

  lemma ApplyFence(s: State)
    requires UpInv(s) && Enabled(s, Apply)
    ensures FenceOk(Next(s, Apply)) && PendingOk(Next(s, Apply))
  {
    var x, w := s.pending.x, s.pending.walSeg;
    AppendSlots(s.head, x, w, s.nextId);
    AppendSamples(s.head, x, w, s.nextId);
    AppendUnique(s.head, x, w, s.nextId);
    AppendFenced(s.segs, s.ckpt, s.segIndex, s.head, x, w, s.nextId);
  }

  lemma GrownFenced(segs: map<int, set<Sample>>, t: Slot, x: Sample, w: int)
    requires Fenced(segs, t) && t.seg <= w && InSegFrom(segs, w, x)
    ensures Fenced(segs, Grow(t, x))
  {
    SetOfAppend(t.chunk.samples, x);
    var i :| i in segs && w <= i && x in segs[i];
    assert InSegFrom(segs, t.seg, x);
    assert forall y :: y in Grow(t, x).chunk.samples ==> y in SetOf(Grow(t, x).chunk.samples);
    assert Grow(t, x).chunk.samples == t.chunk.samples + [x];
  }

  /** A snapshot's chunks are sealed, so an append never touches them. */
  lemma ApplyFlushes(s: State)
    requires UpInv(s) && Enabled(s, Apply)
    ensures FlushesOk(Next(s, Apply))
  {
    var s' := Next(s, Apply);
    var x, w := s.pending.x, s.pending.walSeg;
    AppendSlots(s.head, x, w, s.nextId);
    TargetOk(s.head, x, w, s.nextId);
    var t := Target(s.head, x, w, s.nextId);
    forall f | f in s'.flushes ensures FlushOk(s', s'.flushes[f]) {
      var fl := s.flushes[f];
      assert FlushOk(s, fl);
      forall c, g | c in FlushChunks(fl) && g in Slots(s'.head) && g.chunk.id == c.id ensures g.chunk == c {
        if g !in Slots(s.head) {
          assert false;
        }
      }
    }
  }

  lemma ApplyInv(s: State)
    requires UpInv(s) && Enabled(s, Apply)
    ensures UpInv(Next(s, Apply))
  {
    ApplyFence(s);
    ApplyFlushes(s);
    var s' := Next(s, Apply);
    var x := s.pending.x;
    AppendSamples(s.head, x, s.pending.walSeg, s.nextId);
    assert SeenOk(s') by {
      VisibleSuperset(s, s');
      CoversTrans(Visible(s'), Visible(s), s.acked);
      assert x in Visible(s') && AtLeast(x, x);
      assert Covers(Visible(s'), x);
      forall y | y in s'.written ensures Covers(Visible(s'), y) || y in s'.failed || InFlight(s', y) {
        if y != x {
          assert Covers(Visible(s), y) || y in s.failed || InFlight(s, y);
          if Covers(Visible(s), y) { CoversOne(Visible(s'), Visible(s), y); }
        }
      }
      forall y | y in s'.acked ensures Covers(Visible(s'), y) {
        if y != x { assert y in s.acked && Covers(Visible(s'), y); }
      }
    }
  }

  lemma SealInv(s: State)
    requires UpInv(s) && Enabled(s, SealAll)
    ensures UpInv(Next(s, SealAll))
  {
    var s' := Next(s, SealAll);
    SealHeadSlots(s.head);
    SealUnique(s.head);
    SealSamples(s.head);
    forall f | f in Slots(s'.head) ensures s.ckpt < f.seg <= s.segIndex && Fenced(s.segs, f) {
      assert SealedFrom(s.head, f);
    }
    forall f | f in s'.flushes ensures FlushOk(s', s'.flushes[f]) {
      assert FlushOk(s, s.flushes[f]);
      SealKeepsFlush(s, s', s.flushes[f]);
    }
    assert Visible(s') == Visible(s);
    CoversSelf(Visible(s'), Visible(s));
    SeenGrows(s, s');
  }

  lemma SealKeepsFlush(s: State, s': State, fl: Flush)
    requires HeadOk(s.head) && FlushOk(s, fl) && s' == s.(head := SealHead(s.head))
    ensures FlushOk(s', fl)
  {
    SealHeadSlots(s.head);
    forall f | f in Slots(s'.head)
      ensures (fl.Boundary? || fl.Recorded? ==> fl.b < f.seg) && forall c :: c in FlushChunks(fl) && f.chunk.id == c.id ==> f.chunk == c
    {
      assert SealedFrom(s.head, f);
    }
  }

  // ---- flushes ----

  lemma FlushStartInv(s: State, f: nat)
    requires UpInv(s) && Enabled(s, FlushStart(f))
    ensures UpInv(Next(s, FlushStart(f)))
  {
    var s' := Next(s, FlushStart(f));
    var fl := s'.flushes[f];
    forall c | c in FlushChunks(fl)
      ensures c.sealed && c.id < s.nextId && ChunkSamples({c}) <= HeadSamples(s.head)
      ensures forall g :: g in Slots(s.head) && g.chunk.id == c.id ==> g.chunk == c
    {
      var h :| h in Slots(s.head) && h.chunk.sealed && h.chunk == c;
      SlotInHead(s, h);
      forall g | g in Slots(s.head) && g.chunk.id == c.id ensures g.chunk == c {
        SameIdSameSlot(s.head, g, h);
      }
    }
    forall x | x in ChunkSamples(FlushChunks(fl)) ensures x in HeadSamples(s.head) {
      var c :| c in FlushChunks(fl) && x in c.samples;
      assert x in ChunkSamples({c});
    }
    assert FlushOk(s', fl);
    assert FlushesOk(s') by {
      forall g | g in s'.flushes ensures FlushOk(s', s'.flushes[g]) {
        if g != f { assert FlushOk(s, s.flushes[g]); }
      }
    }
    CoversSelf(Visible(s'), Visible(s));
    SeenGrows(s, s');
  }

  /** A flush changes phase without touching what others rely on. */
  lemma SameMemoryFlushOk(s: State, s': State, fl: Flush)
    requires FlushOk(s, fl) && s'.head == s.head && s'.nextId == s.nextId && s'.written == s.written
    requires s'.live == s.live && s'.pending == s.pending && s'.segIndex == s.segIndex
    ensures FlushOk(s', fl)
  {
  }

  lemma CommitInv(s: State, f: nat, name: string, b: Block, batch: set<Chunk>)
    requires UpInv(s) && Enabled(s, Commit(f, name, b, batch))
    ensures UpInv(Next(s, Commit(f, name, b, batch)))
  {
    var s' := Next(s, Commit(f, name, b, batch));
    var fl, fl' := s.flushes[f], s'.flushes[f];
    HeldGrows(s.disk, name, b);
    assert FlushOk(s, fl);
    assert FlushChunks(fl') == FlushChunks(fl);
    assert ChunkSamples(batch) <= ChunkSamples(FlushChunks(fl));
    assert FlushOk(s', fl');
    CommittedFlushes(s, s', f, fl');
    CoversSelf(Visible(s'), Visible(s));
    SeenGrows(s, s');
  }

  lemma CommittedFlushes(s: State, s': State, f: nat, fl: Flush)
    requires FlushesOk(s) && FlushOk(s', fl) && s' == s.(disk := s'.disk, flushes := s.flushes[f := fl])
    ensures FlushesOk(s')
  {
    forall g | g in s'.flushes ensures FlushOk(s', s'.flushes[g]) {
      if g != f { SameMemoryFlushOk(s, s', s.flushes[g]); }
    }
  }

  lemma RegisteredFlushOk(s: State, s': State, fl: Flush)
    requires FlushOk(s, fl) && fl.Committed? && fl.name !in s.live
    requires s' == s.(live := s.live[fl.name := fl.block], flushes := s'.flushes)
    ensures FlushOk(s', Sending(fl.todo, fl.sent + fl.batch))
  {
    HeldGrows(s.live, fl.name, fl.block);
    assert ChunkSamples(fl.sent + fl.batch) == ChunkSamples(fl.sent) + ChunkSamples(fl.batch);
    CoversGrow(AllHeld(s.live), AllHeld(s'.live), ChunkSamples(fl.sent));
    CoversSelf(AllHeld(s'.live), ChunkSamples(fl.batch));
    assert FlushChunks(Sending(fl.todo, fl.sent + fl.batch)) == FlushChunks(fl);
  }

  lemma RegisterInv(s: State, f: nat)
    requires UpInv(s) && Enabled(s, Register(f))
    ensures UpInv(Next(s, Register(f)))
  {
    var s' := Next(s, Register(f));
    var fl := s.flushes[f];
    assert FlushOk(s, fl);
    HeldGrows(s.live, fl.name, fl.block);
    CoversSelf(AllHeld(s'.live), AllHeld(s.live));
    forall g | g in s'.flushes ensures FlushOk(s', s'.flushes[g]) {
      assert FlushOk(s, s.flushes[g]);
      if g == f { RegisteredFlushOk(s, s', fl); } else { CoveringLiveFlushOk(s, s', s.flushes[g]); }
    }
    CoveringLiveVisible(s, s');
    SeenGrows(s, s');
    assert FlushChunks(s'.flushes[f]) == FlushChunks(fl);
  }

  /** What a flush drops is covered by the registered blocks. */
  lemma DroppedIsCovered(s: State, sent: set<Chunk>)
    requires HeadOk(s.head) && CoversAll(AllHeld(s.live), ChunkSamples(sent))
    requires forall c, f :: c in sent && f in Slots(s.head) && f.chunk.id == c.id ==> f.chunk == c
    ensures CoversAll(HeadSamples(Discard(s.head, Ids(sent))) + AllHeld(s.live), Visible(s))
  {
    var head' := Discard(s.head, Ids(sent));
    DiscardSlots(s.head, Ids(sent));
    forall x | x in Visible(s) ensures Covers(HeadSamples(head') + AllHeld(s.live), x) {
      if x in HeadSamples(s.head) && x !in HeadSamples(head') {
        var f :| f in Slots(s.head) && x in f.chunk.samples;
        var c :| c in sent && c.id == f.chunk.id;
        assert x in ChunkSamples(sent);
        assert Covers(AllHeld(s.live), x);
      } else {
        assert AtLeast(x, x);
      }
    }
  }

  lemma DroppedFlushes(s: State, s': State, f: nat)
    requires FlushesOk(s) && f in s.flushes && s.flushes[f].Sending?
    requires s' == s.(head := s'.head, flushes := s.flushes[f := Sending(s.flushes[f].todo, {})]) && Slots(s'.head) <= Slots(s.head)
    ensures FlushesOk(s')
  {
    forall g | g in s'.flushes ensures FlushOk(s', s'.flushes[g]) {
      assert FlushOk(s, s.flushes[g]);
      FewerSlotsFlushOk(s, s', s.flushes[g]);
      if g == f {
        assert ChunkSamples({}) == {};
        assert ChunkSamples(s.flushes[f].todo) <= ChunkSamples(FlushChunks(s.flushes[f]));
      }
    }
  }

  lemma DropSentInv(s: State, f: nat)
    requires UpInv(s) && Enabled(s, DropSent(f))
    ensures UpInv(Next(s, DropSent(f)))
  {
    var s' := Next(s, DropSent(f));
    var fl := s.flushes[f];
    assert FlushOk(s, fl);
    DroppedIsCovered(s, fl.sent);
    DiscardSlots(s.head, Ids(fl.sent));
    DiscardUnique(s.head, Ids(fl.sent));
    assert Slots(s'.head) <= Slots(s.head);
    DroppedFlushes(s, s', f);
    assert HeadSamples(s'.head) <= HeadSamples(s.head);
    assert ChunkSamples(fl.todo) <= ChunkSamples(FlushChunks(fl));
    SeenGrows(s, s');
  }

  lemma FewerSlotsFlushOk(s: State, s': State, fl: Flush)
    requires FlushOk(s, fl) && Slots(s'.head) <= Slots(s.head) && s'.nextId == s.nextId && s'.written == s.written
    requires s'.live == s.live && s'.pending == s.pending && s'.segIndex == s.segIndex
    ensures FlushOk(s', fl)
  {
  }

  /** Steps that change nothing but the phase of a flush. */
  lemma OnlyFlushesInv(s: State, s': State)
    requires UpInv(s) && s' == s.(flushes := s'.flushes) && FlushesOk(s')
    requires forall g :: g in s'.flushes ==> FlushChunks(s'.flushes[g]) == {} || (g in s.flushes && s'.flushes[g] == s.flushes[g])
    ensures UpInv(s')
  {
    assert ChunkSamples({}) == {};
    assert Visible(s') == Visible(s);
    CoversSelf(Visible(s'), Visible(s));
    SeenGrows(s, s');
  }

  lemma EndsInv(s: State, t: Step)
    requires UpInv(s) && Enabled(s, t) && (t.FlushSent? || t.EndFlush?)
    ensures UpInv(Next(s, t))
  {
    if t.FlushSent? {
      EnterPhase(s, t.f, Drained);
    } else {
      var s' := s.(flushes := s.flushes - {t.f});
      forall g | g in s'.flushes ensures FlushOk(s', s'.flushes[g]) { SameMemoryFlushOk(s, s', s.flushes[g]); }
      OnlyFlushesInv(s, s');
    }
  }

  lemma AbortInv(s: State, f: nat, cleanup: bool)
    requires UpInv(s) && Enabled(s, Abort(f, cleanup))
    ensures UpInv(Next(s, Abort(f, cleanup)))
  {
    var s' := Next(s, Abort(f, cleanup));
    var fl := s.flushes[f];
    if fl.Committed? { HeldShrinks(s.disk, {fl.name}); }
    forall g | g in s'.flushes ensures FlushOk(s', s'.flushes[g]) {
      SameMemoryFlushOk(s, s', s.flushes[g]);
    }
    CoversSelf(Visible(s'), Visible(s));
    SeenGrows(s, s');
  }

  /** The boundary is sampled with no append in flight, so every record at or below
      it belongs to a chunk that has left the head. */
  lemma ComputeInv(s: State, f: nat, oldest: int)
    requires UpInv(s) && Enabled(s, Compute(f, oldest))
    ensures UpInv(Next(s, Compute(f, oldest)))
  {
    var b := if oldest < 0 then s.segIndex - 1 else oldest - 1;
    OldestBoundary(s, oldest);
    EnterPhase(s, f, Boundary(b));
  }

  /** And it is the greatest such boundary: whatever number is below the active segment
      and below every chunk in memory, the flush may delete that far. */
  lemma ComputeIsGreatest(s: State, f: nat, oldest: int, b: int)
    requires UpInv(s) && Enabled(s, Compute(f, oldest))
    requires b < s.segIndex && forall g :: g in Slots(s.head) ==> b < g.seg
    ensures var fl := Next(s, Compute(f, oldest)).flushes[f];
      fl.Boundary? && b <= fl.b < s.segIndex && forall g :: g in Slots(s.head) ==> fl.b < g.seg
  {
    if Slots(s.head) != {} {
      var g :| g in Slots(s.head) && g.seg == oldest;
      assert g.seg >= 0 by {
        var id :| id in s.head && g in s.head[id];
        assert SlotOk(g, id);
      }
    }
  }

  lemma EnterPhase(s: State, f: nat, fl: Flush)
    requires UpInv(s) && FlushChunks(fl) == SentChunks(fl) == {} && !fl.Committed?
    requires fl.Boundary? || fl.Recorded? ==> BoundaryOk(s, fl.b)
    ensures UpInv(s.(flushes := s.flushes[f := fl]))
  {
    OnePhase(s, f, fl);
    OnlyFlushesInv(s, s.(flushes := s.flushes[f := fl]));
  }

  lemma OldestBoundary(s: State, oldest: int)
    requires BlocksOk(s) && SegsOk(s) && FenceOk(s) && s.pending.Idle? && IsOldest(s.head, oldest)
    ensures BoundaryOk(s, if oldest < 0 then s.segIndex - 1 else oldest - 1)
  {
  }

  /** One flush entering a phase that holds no chunks. */
  lemma OnePhase(s: State, f: nat, fl: Flush)
    requires FlushesOk(s) && FlushChunks(fl) == SentChunks(fl) == {} && !fl.Committed?
    requires fl.Boundary? || fl.Recorded? ==> BoundaryOk(s, fl.b)
    ensures FlushesOk(s.(flushes := s.flushes[f := fl]))
  {
    var s' := s.(flushes := s.flushes[f := fl]);
    assert ChunkSamples({}) == {};
    assert FlushOk(s', fl);
    forall g | g in s'.flushes ensures FlushOk(s', s'.flushes[g]) {
      if g != f { SameMemoryFlushOk(s, s', s.flushes[g]); }
    }
  }

  /** A crash during the checkpoint write leaves some smaller number, or none. */
  lemma TearInv(s: State, f: nat, v: int)
    requires UpInv(s) && Enabled(s, TearCheckpoint(f, v))
    ensures UpInv(Next(s, TearCheckpoint(f, v)))
  {
    var s' := Next(s, TearCheckpoint(f, v));
    LowCheckpoint(s, f, s');
    forall g | g in s'.flushes ensures FlushOk(s', s'.flushes[g]) {
      SameMemoryFlushOk(s, s', s.flushes[g]);
    }
    CoversSelf(Visible(s'), Visible(s));
    SeenGrows(s, s');
  }

  lemma WriteInv(s: State, f: nat)
    requires UpInv(s) && Enabled(s, WriteCheckpoint(f))
    ensures UpInv(Next(s, WriteCheckpoint(f)))
  {
    var s' := Next(s, WriteCheckpoint(f));
    LowCheckpoint(s, f, s');
    forall g | g in s'.flushes ensures FlushOk(s', s'.flushes[g]) {
      SameMemoryFlushOk(s, s', s.flushes[g]);
    }
    CoversSelf(Visible(s'), Visible(s));
    SeenGrows(s, s');
  }

  lemma LowCheckpoint(s: State, f: nat, s': State)
    requires SegsOk(s) && FenceOk(s) && PendingOk(s) && FlushesOk(s)
    requires f in s.flushes && s.flushes[f].Boundary? && 0 <= s'.ckpt <= s.flushes[f].b
    requires s' == s.(ckpt := s'.ckpt, flushes := s'.flushes)
    ensures SegsOk(s') && FenceOk(s') && PendingOk(s')
  {
    assert FlushOk(s, s.flushes[f]);
  }

  lemma KeptSegment(segs: map<int, set<Sample>>, i: int, g: int, x: Sample)
    requires InSegFrom(segs, g, x) && i < g
    ensures InSegFrom(segs - {i}, g, x)
  {
    var k :| k in segs && g <= k && x in segs[k];
    assert k in segs - {i};
  }

  lemma DeleteInv(s: State, f: nat, i: int)
    requires UpInv(s) && Enabled(s, DeleteSegment(f, i))
    ensures UpInv(Next(s, DeleteSegment(f, i)))
  {
    var s' := Next(s, DeleteSegment(f, i));
    assert FlushOk(s, s.flushes[f]);
    forall g | g in Slots(s'.head) ensures Fenced(s'.segs, g) {
      assert Fenced(s.segs, g);
      forall x | x in g.chunk.samples ensures InSegFrom(s'.segs, g.seg, x) { KeptSegment(s.segs, i, g.seg, x); }
    }
    if s.pending.Logged? { KeptSegment(s.segs, i, s.pending.walSeg, s.pending.x); }
    forall g | g in s'.flushes ensures FlushOk(s', s'.flushes[g]) {
      SameMemoryFlushOk(s, s', s.flushes[g]);
    }
    CoversSelf(Visible(s'), Visible(s));
    SeenGrows(s, s');
  }

  // ---- compaction ----

  lemma CompactedFromLive(live: map<string, Block>, ids: seq<string>, out: Block)
    requires AllWellFormed(live) && forall i :: 0 <= i < |ids| ==> ids[i] in live
    requires Compaction.IsCompacted(out, ids, Compaction.Pick(live, ids))
    ensures Held(out) <= AllHeld(live) && WellFormed(out)
  {
    Compaction.CompactedHoldsView(out, ids, Compaction.Pick(live, ids));
    Compaction.HeldBeforeSwap(live, ids);
  }

  lemma SwapCovers(s: State, ids: seq<string>, name: string, out: Block)
    requires BlocksOk(s) && Enabled(s, SwapCompaction(ids, name, out))
    ensures CoversAll(AllHeld(Compaction.Swap(s.live, Compaction.Names(ids), name, out)), AllHeld(s.live))
  {
    LiveIsHeld(s);
    Compaction.SwapKeepsView(s.live, ids, name, out);
    SameViewIff(AllHeld(Compaction.Swap(s.live, Compaction.Names(ids), name, out)), AllHeld(s.live));
  }

  /** More generally: registered blocks replaced by ones that cover them. */
  lemma CoveringLiveFlushOk(s: State, s': State, fl: Flush)
    requires FlushOk(s, fl) && s' == s.(disk := s'.disk, live := s'.live, flushes := s'.flushes) && CoversAll(AllHeld(s'.live), AllHeld(s.live))
    ensures FlushOk(s', fl)
  {
    CoversTrans(AllHeld(s'.live), AllHeld(s.live), ChunkSamples(SentChunks(fl)));
  }

  lemma CoveringLiveVisible(s: State, s': State)
    requires s'.head == s.head && CoversAll(AllHeld(s'.live), AllHeld(s.live))
    ensures CoversAll(Visible(s'), Visible(s))
  {
    forall x | x in Visible(s) ensures Covers(Visible(s'), x) {
      if x in AllHeld(s.live) {
        assert Covers(AllHeld(s'.live), x);
      } else {
        assert AtLeast(x, x);
      }
    }
  }

  /** What a step of the block stores leaves. */
  ghost predicate StoresMoved(s: State, s': State, late: set<Sample>) {
    && s' == s.(disk := s'.disk, live := s'.live) && BlocksOk(s')
    && CoversAll(AllHeld(s'.live), AllHeld(s.live))
    && AllHeld(s'.disk) <= AllHeld(s.disk) + late
  }

  lemma AddedBlock(s: State, name: string, b: Block, late: set<Sample>)
    requires BlocksOk(s) && Fresh(s, name) && WellFormed(b) && Held(b) <= s.written && Held(b) <= AllHeld(s.disk) + late
    ensures StoresMoved(s, s.(disk := s.disk[name := b]), late)
  {
    HeldGrows(s.disk, name, b);
    CoversSelf(AllHeld(s.live), AllHeld(s.live));
  }

  lemma RemovedBlock(s: State, name: string)
    requires BlocksOk(s) && name !in s.live
    ensures StoresMoved(s, s.(disk := Without(s.disk, {name})), {})
  {
    HeldShrinks(s.disk, {name});
    CoversSelf(AllHeld(s.live), AllHeld(s.live));
  }

  lemma RegisteredBlock(s: State, name: string)
    requires BlocksOk(s) && name in s.disk && name !in s.live
    ensures StoresMoved(s, s.(live := s.live[name := s.disk[name]]), {})
  {
    HeldGrows(s.live, name, s.disk[name]);
    CoversSelf(AllHeld(s.live[name := s.disk[name]]), AllHeld(s.live));
  }

  lemma SwappedBlocks(s: State, ids: seq<string>, name: string, out: Block)
    requires BlocksOk(s) && Enabled(s, SwapCompaction(ids, name, out))
    ensures StoresMoved(s, s.(live := Compaction.Swap(s.live, Compaction.Names(ids), name, out)), {})
  {
    SwapCovers(s, ids, name, out);
  }

  /** A step of the block stores touches blocks alone. The registered ones lose nothing,
      and nothing new reaches the disk but a late batch. */
  lemma StoreStep(s: State, t: Step, s': State)
    requires BlocksOk(s) && Enabled(s, t) && AtStores(t) && s' == Next(s, t)
    ensures StoresMoved(s, s', if t.LandLate? then Held(t.block) else {})
  {
    match t
    case CommitCompaction(ids, name, out) =>
      LiveIsHeld(s);
      CompactedFromLive(s.live, ids, out);
      AddedBlock(s, name, out, {});
    case SwapCompaction(ids, name, out) => SwappedBlocks(s, ids, name, out);
    case RemoveBlock(name) => RemovedBlock(s, name);
    case RegisterStored(name) => RegisteredBlock(s, name);
    case LandLate(name, b) => AddedBlock(s, name, b, Held(b));
  }

  lemma StoreStepGens(s: State, t: Step, s': State, g: int)
    requires BlocksOk(s) && Enabled(s, t) && AtStores(t) && s' == Next(s, t)
    requires GensBelow(AllHeld(s.disk), g) && (t.LandLate? ==> s.floor <= g)
    ensures GensBelow(AllHeld(s'.disk), g)
  {
    StoreStep(s, t, s');
  }

  lemma UpStoreInv(s: State, t: Step, s': State)
    requires UpInv(s) && Enabled(s, t) && AtStores(t) && s' == Next(s, t)
    ensures UpInv(s') && CoversAll(Visible(s'), Visible(s))
  {
    StoreStep(s, t, s');
    forall g | g in s'.flushes ensures FlushOk(s', s'.flushes[g]) {
      assert FlushOk(s, s.flushes[g]);
      CoveringLiveFlushOk(s, s', s.flushes[g]);
    }
    CoveringLiveVisible(s, s');
    SeenGrows(s, s');
    StoreStepGens(s, t, s', s.nextGen);
    if s.mode.Split? { StoreStepGens(s, t, s', s.floor); }
  }

  /** The stores of a split deployment keep working while the ingester is down. */
  lemma DownStoreInv(s: State, t: Step, s': State)
    requires !s.up && DownInv(s) && Enabled(s, t) && AtStores(t) && s' == Next(s, t)
    ensures DownInv(s') && CoversAll(Durable(s'), Durable(s))
  {
    StoreStep(s, t, s');
    StoreStepGens(s, t, s', s.floor);
    CoveredBase(AllHeld(s'.live), AllHeld(s.live), After(s.segs, s.ckpt));
    DurableGrows(s, s');
  }

  lemma DurableGrows(s: State, s': State)
    requires CoversAll(Durable(s'), Durable(s)) && CoversAll(Durable(s), s.acked)
    requires forall x {:trigger Covers(Durable(s), x)} :: x in s.written ==> Covers(Durable(s), x) || x in s.failed
    requires s'.acked == s.acked && s'.written == s.written && s'.failed == s.failed
    ensures CoversAll(Durable(s'), s'.acked)
    ensures forall x {:trigger Covers(Durable(s'), x)} :: x in s'.written ==> Covers(Durable(s'), x) || x in s'.failed
  {
    CoversTrans(Durable(s'), Durable(s), s.acked);
    forall x | x in s'.written ensures Covers(Durable(s'), x) || x in s'.failed {
      assert Covers(Durable(s), x) || x in s.failed;
      if Covers(Durable(s), x) { CoversOne(Durable(s'), Durable(s), x); }
    }
  }

  /** A batch on its way to the stores when the ingester dies may still land: the step
      is enabled for each batch of each flush the crash cut off. */
  lemma CutOffBatchMayLand(s: State, f: nat, batch: set<Chunk>, name: string, b: Block)
    requires s.mode.Split? && UpInv(s) && Enabled(s, Commit(f, name, b, batch))
    ensures Enabled(Next(s, Crash), LandLate(name, b))
  {
    assert FlushOk(s, s.flushes[f]);
    assert batch <= FlushChunks(s.flushes[f]);
    assert ChunkSamples(batch) <= ChunkSamples(FlushChunks(s.flushes[f]));
  }

  // ---- crash and restart ----

  /** Whatever a query can see would survive a crash at this instant. */
  lemma VisibleIsDurable(s: State)
    requires UpInv(s)
    ensures Visible(s) <= Durable(s)
    ensures s.pending.Logged? ==> s.pending.x in Durable(s)
  {
    LiveIsHeld(s);
    forall x | x in HeadSamples(s.head) ensures x in After(s.segs, s.ckpt) {
      var f :| f in Slots(s.head) && x in f.chunk.samples;
      assert Fenced(s.segs, f);
      var i :| i in s.segs && f.seg <= i && x in s.segs[i];
    }
    if s.pending.Logged? {
      var i :| i in s.segs && s.pending.walSeg <= i && s.pending.x in s.segs[i];
      assert s.pending.x in After(s.segs, s.ckpt);
    }
  }

  lemma CrashInv(s: State)
    requires UpInv(s) && Enabled(s, Crash)
    ensures DownInv(Next(s, Crash))
  {
    var s' := Next(s, Crash);
    VisibleIsDurable(s);
    CoversSelf(Durable(s), Visible(s));
    CoversTrans(Durable(s), Visible(s), s.acked);
    assert Durable(s') == Durable(s);
    forall x | x in s'.written ensures Covers(Durable(s'), x) || x in s'.failed {
      assert Covers(Visible(s), x) || x in s.failed || InFlight(s, x);
      if Covers(Visible(s), x) {
        CoversOne(Durable(s), Visible(s), x);
      } else if InFlight(s, x) {
        assert AtLeast(x, x);
      }
    }
  }

  lemma RetireInv(s: State, witnesses: map<string, Block>, vb: VerifiedBy, R: set<string>, M: set<string>)
    requires DownInv(s) && Enabled(s, RetireAtStart(witnesses, vb, R, M))
    ensures DownInv(Next(s, RetireAtStart(witnesses, vb, R, M)))
  {
    var s' := Next(s, RetireAtStart(witnesses, vb, R, M));
    ReclaimKeepsView(s.disk, witnesses, vb, R, M);
    SameViewIff(AllHeld(s'.disk), AllHeld(s.disk));
    HeldShrinks(s.disk, M);
    CoveredBase(AllHeld(s'.disk), AllHeld(s.disk), After(s.segs, s.ckpt));
    DurableGrows(s, s');
  }

  lemma CoveredBase(A: set<Sample>, B: set<Sample>, C: set<Sample>)
    requires CoversAll(A, B)
    ensures CoversAll(A + C, B + C)
  {
    forall x | x in B + C ensures Covers(A + C, x) {
      if x in B { assert Covers(A, x); } else { assert AtLeast(x, x); }
    }
  }

  /** What a restart serves covers everything durable. */
  lemma ReopenedCovers(s: State, witnesses: map<string, Block>, vb: VerifiedBy, R: set<string>, records: seq<Sample>, idx: int)
    requires DownInv(s) && Enabled(s, Restart(witnesses, vb, R, records, idx))
    ensures CoversAll(AllHeld(Reopened(s, R)), Base(s))
    ensures forall n :: n in Reopened(s, R) ==> n in s.disk && s.disk[n] == Reopened(s, R)[n]
    ensures GensBelow(AllHeld(s.disk), GenAfterRestart(s, Reopened(s, R)))
  {
    var kept := Reopened(s, R);
    if s.mode.AllInOne? {
      ReclaimKeepsView(s.disk, witnesses, vb, R, R);
      SameViewIff(AllHeld(kept), AllHeld(s.disk));
      FloorCovers(AllHeld(s.disk), AllHeld(kept));
    } else {
      CoversSelf(AllHeld(kept), AllHeld(s.live));
    }
  }

  ghost function ReplayedHead(s: State, records: seq<Sample>): Head {
    SetFence(Replay(records), s.ckpt + 1)
  }

  lemma ReplayedHeadOk(s: State, records: seq<Sample>)
    requires BlocksOk(s) && SetOf(records) == After(s.segs, s.ckpt)
    ensures HeadOk(ReplayedHead(s, records)) && UniqueIds(ReplayedHead(s, records)) && IdsBelow(ReplayedHead(s, records), |records|)
    ensures HeadSamples(ReplayedHead(s, records)) == After(s.segs, s.ckpt)
    ensures forall f :: f in Slots(ReplayedHead(s, records)) ==> f.seg == s.ckpt + 1
  {
    forall x | x in records ensures Int64(x.ts) {
      assert x in SetOf(records);
      AfterIsWritten(s);
    }
    ReplayFenced(records, s.ckpt + 1);
  }

  lemma AfterIsWritten(s: State)
    requires BlocksOk(s)
    ensures After(s.segs, s.ckpt) <= s.written
  {
  }

  lemma AfterIsFenced(segs: map<int, set<Sample>>, c: int, h: Head, idx: int)
    requires HeadSamples(h) <= After(segs, c) && idx !in segs
    requires forall f :: f in Slots(h) ==> f.seg == c + 1
    ensures forall f :: f in Slots(h) ==> Fenced(segs[idx := {}], f)
  {
    forall f, x | f in Slots(h) && x in f.chunk.samples ensures InSegFrom(segs[idx := {}], f.seg, x) {
      assert x in HeadSamples(h);
      var i :| i in segs && i > c && x in segs[i];
      assert i in segs[idx := {}] && segs[idx := {}][i] == segs[i];
    }
  }

  lemma RestartSeen(s: State, s': State)
    requires DownInv(s) && s'.acked == s.acked && s'.written == s.written && s'.failed == s.failed
    requires CoversAll(AllHeld(s'.live), Base(s)) && HeadSamples(s'.head) == After(s.segs, s.ckpt)
    ensures SeenOk(s')
  {
    CoveredBase(AllHeld(s'.live), Base(s), After(s.segs, s.ckpt));
    assert Visible(s') == AllHeld(s'.live) + After(s.segs, s.ckpt);
    CoversTrans(Visible(s'), Durable(s), s.acked);
    forall x | x in s'.written ensures Covers(Visible(s'), x) || x in s'.failed || InFlight(s', x) {
      assert Covers(Durable(s), x) || x in s.failed;
      if Covers(Durable(s), x) { CoversOne(Visible(s'), Durable(s), x); }
    }
  }

  /** Replay, with every chunk fenced just above the checkpoint, restores all of it. */
  lemma RestartInv(s: State, witnesses: map<string, Block>, vb: VerifiedBy, R: set<string>, records: seq<Sample>, idx: int)
    requires DownInv(s) && Enabled(s, Restart(witnesses, vb, R, records, idx))
    ensures UpInv(Next(s, Restart(witnesses, vb, R, records, idx)))
  {
    var s' := Next(s, Restart(witnesses, vb, R, records, idx));
    ReopenedCovers(s, witnesses, vb, R, records, idx);
    ReplayedHeadOk(s, records);
    AfterIsWritten(s);
    RestartSeen(s, s');
    FreshSegment(s, s');
    RestartedInv(s, s', Reopened(s, R));
  }

  lemma RestartedInv(s: State, s': State, kept: map<string, Block>)
    requires BlocksOk(s) && (s.mode.Split? ==> GensBelow(AllHeld(s.disk), s.floor))
    requires s'.disk == s.disk && s'.written == s.written && s'.ckpt == s.ckpt && s'.segs == s.segs[s'.segIndex := {}]
    requires s'.mode == s.mode && s'.floor == s.floor && s'.live == kept && s'.flushes == map[] && s'.pending.Idle?
    requires forall n :: n in kept ==> n in s.disk && s.disk[n] == kept[n]
    requires After(s.segs, s.ckpt) <= s.written && HeadSamples(s'.head) == After(s.segs, s.ckpt)
    requires HeadOk(s'.head) && UniqueIds(s'.head) && IdsBelow(s'.head, s'.nextId)
    requires SeenOk(s') && SegsOk(s') && FencedHead(s'.segs, s'.ckpt, s'.segIndex, s'.head)
    requires GensBelow(AllHeld(s.disk), GenAfterRestart(s, kept)) && s'.nextGen == GenAfterRestart(s, kept)
    ensures UpInv(s')
  {
  }

  /** A restart opens a segment above all others, and fences the replayed head there. */
  lemma FreshSegment(s: State, s': State)
    requires BlocksOk(s) && (exists i :: i in s.segs && i > s.ckpt) && s'.ckpt == s.ckpt
    requires s'.segs == s.segs[s'.segIndex := {}] && forall i :: i in s.segs ==> i < s'.segIndex
    requires HeadSamples(s'.head) == After(s.segs, s.ckpt) && forall f :: f in Slots(s'.head) ==> f.seg == s.ckpt + 1
    ensures SegsOk(s') && FencedHead(s'.segs, s'.ckpt, s'.segIndex, s'.head)
  {
    AfterIsFenced(s.segs, s.ckpt, s'.head, s'.segIndex);
  }
}
