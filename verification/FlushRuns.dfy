/** What a flush achieves, over whole runs: the chunks it set out to send leave memory and
    are in registered blocks, the checkpoint moves up to the oldest chunk still in
    memory, and the segments below it go. */
module FlushRuns {
  import opened Samples
  import opened Chunks
  import opened Head
  import opened HeadShape
  import opened Reclaim
  import opened Engine
  import opened EngineRuns

  // ---- what a flush has sent leaves memory ----

  function Unsent(fl: Flush): set<Chunk> {
    match fl
    case Sending(todo, _) => todo
    case Committed(todo, _, _, _, batch) => todo + batch
    case _ => {}
  }

  /** The flush still has c to send; or c is in registered blocks, and it has left memory
      or is about to. */
  ghost predicate Accounted(s: State, fl: Flush, c: Chunk) {
    || c in Unsent(fl)
    || (CoversAll(AllHeld(s.live), ChunkSamples({c})) && (c in SentChunks(fl) || Gone(s.head, c)))
  }

  /** No chunk in memory has this one's identity. */
  predicate Gone(h: Head, c: Chunk) {
    forall g :: g in Slots(h) ==> g.chunk.id != c.id
  }

  ghost predicate AllAccounted(s: State, f: nat, cs: set<Chunk>) {
    && f in s.flushes && forall c :: c in cs ==> c.id < s.nextId && Accounted(s, s.flushes[f], c)
  }

  lemma StartAccounts(s: State, f: nat)
    requires UpInv(s) && Enabled(s, FlushStart(f))
    ensures AllAccounted(Next(s, FlushStart(f)), f, SealedChunks(s.head))
  {
    forall c | c in SealedChunks(s.head) ensures c.id < s.nextId {
      var g :| g in Slots(s.head) && g.chunk.sealed && g.chunk == c;
      SlotIdBelow(s.head, s.nextId, g);
    }
  }

  /** Nothing about the flush changed, the blocks only gained, and whoever has left
      memory stays out of it. */
  lemma SameFlushAccounts(s: State, s': State, f: nat, cs: set<Chunk>)
    requires AllAccounted(s, f, cs) && f in s'.flushes && s'.flushes[f] == s.flushes[f] && s.nextId <= s'.nextId
    requires CoversAll(AllHeld(s'.live), AllHeld(s.live))
    requires forall c :: c in cs && Gone(s.head, c) ==> Gone(s'.head, c)
    ensures AllAccounted(s', f, cs)
  {
    forall c | c in cs ensures Accounted(s', s'.flushes[f], c) {
      assert Accounted(s, s.flushes[f], c);
      if c !in Unsent(s.flushes[f]) { CoversTrans(AllHeld(s'.live), AllHeld(s.live), ChunkSamples({c})); }
    }
  }

  lemma ApplyKeepsGone(s: State, c: Chunk)
    requires UpInv(s) && Enabled(s, Apply) && Gone(s.head, c) && c.id < s.nextId
    ensures Gone(Next(s, Apply).head, c)
  {
    AppendSlots(s.head, s.pending.x, s.pending.walSeg, s.nextId);
    TargetOk(s.head, s.pending.x, s.pending.walSeg, s.nextId);
  }

  lemma SealKeepsGone(s: State, c: Chunk)
    requires UpInv(s) && Gone(s.head, c)
    ensures Gone(SealHead(s.head), c)
  {
    SealHeadSlots(s.head);
    forall g | g in Slots(SealHead(s.head)) ensures g.chunk.id != c.id { assert SealedFrom(s.head, g); }
  }

  lemma AppendAccounts(s: State, t: Step, f: nat, cs: set<Chunk>, s': State)
    requires UpInv(s) && Enabled(s, t) && s' == Next(s, t) && (t.Apply? || t.SealAll?) && AllAccounted(s, f, cs)
    ensures AllAccounted(s', f, cs)
  {
    forall c | c in cs && Gone(s.head, c) ensures Gone(s'.head, c) {
      if t.Apply? { ApplyKeepsGone(s, c); } else { SealKeepsGone(s, c); }
    }
    CoversSelf(AllHeld(s'.live), AllHeld(s.live));
    SameFlushAccounts(s, s', f, cs);
  }

  lemma CommitAccounts(s: State, t: Step, f: nat, cs: set<Chunk>, s': State)
    requires UpInv(s) && Enabled(s, t) && s' == Next(s, t) && t.Commit? && AllAccounted(s, f, cs)
    ensures AllAccounted(s', f, cs)
  {
    if t.f == f {
      var fl, fl' := s.flushes[f], s'.flushes[f];
      assert Unsent(fl') == Unsent(fl) && SentChunks(fl') == SentChunks(fl);
      forall c | c in cs ensures Accounted(s', fl', c) { assert Accounted(s, fl, c); }
    } else {
      CoversSelf(AllHeld(s'.live), AllHeld(s.live));
      SameFlushAccounts(s, s', f, cs);
    }
  }

  lemma RegisterAccounts(s: State, t: Step, f: nat, cs: set<Chunk>, s': State)
    requires UpInv(s) && Enabled(s, t) && s' == Next(s, t) && t.Register? && AllAccounted(s, f, cs)
    ensures AllAccounted(s', f, cs)
  {
    var own := s.flushes[t.f];
    HeldGrows(s.live, own.name, own.block);
    CoversSelf(AllHeld(s'.live), AllHeld(s.live));
    if t.f == f {
      assert FlushOk(s, own);
      forall c | c in cs ensures Accounted(s', s'.flushes[f], c) { RegisteredAccounts(s, s', own, c); }
    } else {
      SameFlushAccounts(s, s', f, cs);
    }
  }

  lemma RegisteredAccounts(s: State, s': State, fl: Flush, c: Chunk)
    requires Accounted(s, fl, c) && fl.Committed? && Held(fl.block) == ChunkSamples(fl.batch) && s'.head == s.head
    requires AllHeld(s'.live) == AllHeld(s.live) + Held(fl.block)
    ensures Accounted(s', Sending(fl.todo, fl.sent + fl.batch), c)
  {
    if c in fl.batch {
      assert ChunkSamples({c}) <= AllHeld(s'.live);
      CoversSelf(AllHeld(s'.live), ChunkSamples({c}));
    } else if c !in fl.todo {
      CoversGrow(AllHeld(s.live), AllHeld(s'.live), ChunkSamples({c}));
    }
  }

  lemma DropAccounts(s: State, t: Step, f: nat, cs: set<Chunk>, s': State)
    requires UpInv(s) && Enabled(s, t) && s' == Next(s, t) && t.DropSent? && AllAccounted(s, f, cs)
    ensures AllAccounted(s', f, cs)
  {
    var fl := s.flushes[t.f];
    DiscardSlots(s.head, Ids(fl.sent));
    CoversSelf(AllHeld(s'.live), AllHeld(s.live));
    if t.f == f {
      forall c | c in cs ensures Accounted(s', s'.flushes[f], c) {
        assert Accounted(s, fl, c);
        if c in fl.sent { assert c.id in Ids(fl.sent); }
      }
    } else {
      SameFlushAccounts(s, s', f, cs);
    }
  }

  lemma StoreAccounts(s: State, t: Step, f: nat, cs: set<Chunk>, s': State)
    requires UpInv(s) && Enabled(s, t) && s' == Next(s, t) && AtStores(t) && AllAccounted(s, f, cs)
    ensures AllAccounted(s', f, cs)
  {
    StoreStep(s, t, s');
    SameFlushAccounts(s, s', f, cs);
  }

  /** The steps that touch neither memory nor the blocks. */
  predicate Quiet(t: Step) {
    t.ReserveOwn? || t.ReserveStamped? || t.AbandonReserve? || t.LogRecord? || t.Rotate? || t.FailLogged?
    || t.FlushStart? || t.FlushSent? || t.Abort? || t.Compute? || t.TearCheckpoint? || t.WriteCheckpoint?
    || t.DeleteSegment? || t.EndFlush?
  }

  lemma QuietKeeps(s: State, t: Step, s': State)
    requires Enabled(s, t) && s' == Next(s, t) && Quiet(t)
    ensures s'.head == s.head && s'.live == s.live && s'.nextId == s.nextId
  {
  }

  /** A flush moves on to an empty phase only when it has nothing left to send or drop. */
  lemma QuietFlush(s: State, t: Step, f: nat, s': State)
    requires Enabled(s, t) && s' == Next(s, t) && Quiet(t) && f in s.flushes && f in s'.flushes
    ensures Unsent(s'.flushes[f]) == Unsent(s.flushes[f]) && SentChunks(s'.flushes[f]) == SentChunks(s.flushes[f])
  {
  }

  lemma QuietAccounts(s: State, t: Step, f: nat, cs: set<Chunk>, s': State)
    requires Enabled(s, t) && s' == Next(s, t) && Quiet(t) && AllAccounted(s, f, cs) && f in s'.flushes
    ensures AllAccounted(s', f, cs)
  {
    QuietKeeps(s, t, s');
    QuietFlush(s, t, f, s');
    forall c | c in cs ensures Accounted(s', s'.flushes[f], c) { assert Accounted(s, s.flushes[f], c); }
  }

  lemma StepAccounts(s: State, s': State, f: nat, cs: set<Chunk>)
    requires UpInv(s) && s.up && s'.up && IsStep(s, s') && AllAccounted(s, f, cs) && f in s'.flushes
    ensures AllAccounted(s', f, cs)
  {
    var t :| Enabled(s, t) && s' == Next(s, t);
    StepHistory(s, t);
    if Quiet(t) {
      QuietAccounts(s, t, f, cs, s');
    } else if AtStores(t) {
      StoreAccounts(s, t, f, cs, s');
    } else {
      LoudAccounts(s, t, f, cs, s');
    }
  }

  lemma LoudAccounts(s: State, t: Step, f: nat, cs: set<Chunk>, s': State)
    requires UpInv(s) && Enabled(s, t) && s' == Next(s, t) && AllAccounted(s, f, cs)
    requires t.Apply? || t.SealAll? || t.Commit? || t.Register? || t.DropSent?
    ensures AllAccounted(s', f, cs)
  {
    match t
    case Apply => AppendAccounts(s, t, f, cs, s');
    case SealAll => AppendAccounts(s, t, f, cs, s');
    case Commit(_, _, _, _) => CommitAccounts(s, t, f, cs, s');
    case Register(_) => RegisterAccounts(s, t, f, cs, s');
    case DropSent(_) => DropAccounts(s, t, f, cs, s');
  }

  /** Flush f is under way from a to b, without a crash. */
  ghost predicate Alive(run: seq<State>, f: nat, a: nat, b: nat)
    requires b < |run|
  {
    forall k :: a <= k <= b ==> run[k].up && f in run[k].flushes
  }

  lemma {:induction false} RunAccounts(run: seq<State>, mode: Mode, f: nat, i: nat, j: nat, cs: set<Chunk>)
    requires IsRun(run, mode) && i <= j < |run| && Alive(run, f, i, j) && AllAccounted(run[i], f, cs)
    ensures AllAccounted(run[j], f, cs)
  {
    if i < j {
      RunAccounts(run, mode, f, i, j - 1, cs);
      var s, s' := run[j - 1], run[j];
      RunStep(run, mode, j, s, s');
      StepAccounts(s, s', f, cs);
    }
  }

  /** A flush that has sent all it set out to send has taken every chunk that was sealed
      when it began out of memory, and each is in registered blocks. */
  lemma SentLeavesMemory(run: seq<State>, mode: Mode, f: nat, i: nat, j: nat)
    requires IsRun(run, mode) && i < j < |run| && Enabled(run[i], FlushStart(f)) && run[i + 1] == Next(run[i], FlushStart(f))
    requires Alive(run, f, i + 1, j) && !run[j].flushes[f].Sending? && !run[j].flushes[f].Committed?
    ensures forall c :: c in SealedChunks(run[i].head) ==> Gone(run[j].head, c)
    ensures CoversAll(AllHeld(run[j].live), ChunkSamples(SealedChunks(run[i].head)))
  {
    RunInv(run, mode, i);
    var cs := SealedChunks(run[i].head);
    StartAccounts(run[i], f);
    RunAccounts(run, mode, f, i + 1, j, cs);
    forall c | c in cs ensures Gone(run[j].head, c) { assert Accounted(run[j], run[j].flushes[f], c); }
    forall x | x in ChunkSamples(cs) ensures Covers(AllHeld(run[j].live), x) {
      var c :| c in cs && x in c.samples;
      assert Accounted(run[j], run[j].flushes[f], c);
      assert x in ChunkSamples({c});
    }
  }

  // ---- a flush after sealing takes everything ----

  /** What a step can do to a head, whoever takes it. */
  ghost predicate HeadMoves(h: Head, h': Head) {
    || h' == h || h' == map[] || h' == SealHead(h)
    || (exists x, walSeg, newId :: h' == Append(h, x, walSeg, newId))
    || (exists drop :: h' == Discard(h, drop))
    || (exists records, seg :: h' == SetFence(Replay(records), seg))
  }

  lemma MovesKeepShape(h: Head, h': Head)
    requires HeadMoves(h, h') && Shaped(h)
    ensures Shaped(h')
  {
    if x, walSeg, newId :| h' == Append(h, x, walSeg, newId) {
      AppendKeepsShape(h, x, walSeg, newId);
    } else if drop :| h' == Discard(h, drop) {
      DiscardKeepsShape(h, drop);
    } else if records, seg :| h' == SetFence(Replay(records), seg) {
      ReplayShaped(records);
      FenceKeepsShape(Replay(records), seg);
    } else {
      SealsEverything(h);
    }
  }

  lemma StepMoves(s: State, t: Step, s': State)
    requires Enabled(s, t) && s' == Next(s, t)
    ensures HeadMoves(s.head, s'.head)
  {
    if Quiet(t) {
      QuietKeeps(s, t, s');
    } else if t.Apply? {
      assert s'.head == Append(s.head, s.pending.x, s.pending.walSeg, s.nextId);
    } else if t.DropSent? {
      assert s'.head == Discard(s.head, Ids(s.flushes[t.f].sent));
    } else if t.Restart? {
      assert s'.head == SetFence(Replay(t.records), s.ckpt + 1);
    } else {
      assert s'.head == s.head || s'.head == map[] || s'.head == SealHead(s.head);
    }
  }

  lemma StepShaped(s: State, s': State)
    requires IsStep(s, s') && Shaped(s.head)
    ensures Shaped(s'.head)
  {
    var t :| Enabled(s, t) && s' == Next(s, t);
    StepMoves(s, t, s');
    MovesKeepShape(s.head, s'.head);
  }

  /** At every instant only the last chunk of a series is open, and none is empty. */
  lemma {:induction false} RunShaped(run: seq<State>, mode: Mode, i: nat)
    requires IsRun(run, mode) && i < |run|
    ensures Shaped(run[i].head)
  {
    if i > 0 {
      RunShaped(run, mode, i - 1);
      assert StepsTo(run, i);
      StepShaped(run[i - 1], run[i]);
    }
  }

  /** A flush that starts right after sealing, and has sent all it set out to send, has
      put everything the head then held into registered blocks. */
  lemma SealedFlushTakesAll(run: seq<State>, mode: Mode, f: nat, i: nat, j: nat)
    requires IsRun(run, mode) && 0 < i < j < |run| && Enabled(run[i - 1], SealAll) && run[i] == Next(run[i - 1], SealAll)
    requires Enabled(run[i], FlushStart(f)) && run[i + 1] == Next(run[i], FlushStart(f))
    requires Alive(run, f, i + 1, j) && !run[j].flushes[f].Sending? && !run[j].flushes[f].Committed?
    ensures CoversAll(AllHeld(run[j].live), HeadSamples(run[i - 1].head))
    ensures forall g, k :: g in Slots(run[i - 1].head) && k in Slots(run[j].head) ==> g.chunk.id != k.chunk.id
  {
    var before, h := run[i - 1].head, run[i].head;
    RunInv(run, mode, i - 1);
    RunShaped(run, mode, i - 1);
    SealsEverything(before);
    SealSamples(before);
    SentLeavesMemory(run, mode, f, i, j);
    forall x | x in HeadSamples(before) ensures x in ChunkSamples(SealedChunks(h)) {
      var g :| g in Slots(h) && x in g.chunk.samples;
      assert g.chunk in SealedChunks(h);
    }
    forall g, k | g in Slots(before) && k in Slots(run[j].head) ensures g.chunk.id != k.chunk.id {
      SealKeepsIds(before, g);
      var g' :| g' in Slots(h) && g'.chunk.id == g.chunk.id;
      assert g'.chunk in SealedChunks(h);
    }
  }

  lemma SealKeepsIds(h: Head, g: Slot)
    requires g in Slots(h)
    ensures exists g' :: g' in Slots(SealHead(h)) && g'.chunk.id == g.chunk.id
  {
    var id :| id in h && g in h[id];
    var i :| 0 <= i < |h[id]| && h[id][i] == g;
    var h': Head := SealHead(h);
    assert h'[id][i] in h'[id] && h'[id][i].chunk.id == g.chunk.id;
    assert h'[id][i] in Slots(h');
  }

  // ---- the checkpoint moves up, and segments go ----

  /** The flush holds on to the boundary it computed. */
  predicate Holds(s: State, f: nat, b: int) {
    f in s.flushes && ((s.flushes[f].Boundary? && s.flushes[f].b == b) || (s.flushes[f].Recorded? && s.flushes[f].b == b))
  }

  lemma StepHolds(s: State, s': State, f: nat, b: int)
    requires s.up && s'.up && IsStep(s, s') && Holds(s, f, b) && f in s'.flushes
    ensures Holds(s', f, b)
  {
    var t :| Enabled(s, t) && s' == Next(s, t);
    TakeStepHolds(s, t, s', f, b);
  }

  lemma TakeStepHolds(s: State, t: Step, s': State, f: nat, b: int)
    requires s.up && s'.up && Enabled(s, t) && s' == Next(s, t) && Holds(s, f, b) && f in s'.flushes
    ensures Holds(s', f, b)
  {
    if Quiet(t) {
      QuietHolds(s, t, s', f, b);
    } else {
      OtherHolds(s, t, s', f, b);
    }
  }

  lemma QuietHolds(s: State, t: Step, s': State, f: nat, b: int)
    requires Enabled(s, t) && s' == Next(s, t) && Quiet(t) && Holds(s, f, b) && f in s'.flushes
    ensures Holds(s', f, b)
  {
  }

  lemma OtherHolds(s: State, t: Step, s': State, f: nat, b: int)
    requires s.up && s'.up && Enabled(s, t) && s' == Next(s, t) && !Quiet(t) && Holds(s, f, b) && f in s'.flushes
    ensures s'.flushes[f] == s.flushes[f]
  {
  }

  lemma {:induction false} RunHolds(run: seq<State>, mode: Mode, f: nat, i: nat, j: nat, b: int)
    requires IsRun(run, mode) && i <= j < |run| && Alive(run, f, i, j) && Holds(run[i], f, b)
    ensures Holds(run[j], f, b)
  {
    if i < j {
      RunHolds(run, mode, f, i, j - 1, b);
      var s, s' := run[j - 1], run[j];
      RunStep(run, mode, j, s, s');
      StepHolds(s, s', f, b);
    }
  }

  /** b is the greatest number below the active segment and every chunk in memory. */
  predicate JustBelow(s: State, b: int) {
    && b < s.segIndex && (forall g :: g in Slots(s.head) ==> b < g.seg)
    && (b + 1 == s.segIndex || exists g :: g in Slots(s.head) && g.seg == b + 1)
  }

  lemma ComputedJustBelow(s: State, f: nat, oldest: int)
    requires UpInv(s) && Enabled(s, Compute(f, oldest))
    ensures var fl := Next(s, Compute(f, oldest)).flushes[f]; fl.Boundary? && JustBelow(s, fl.b)
  {
    ComputeIsGreatest(s, f, oldest, -1);
  }

  /** Once a flush that computed its boundary at i has recorded it, the checkpoint is just
      below the active segment and the oldest chunk that were in memory at i, so a restart
      replays no segment before them; and once it has ended, no such segment is left. */
  lemma FlushAdvances(run: seq<State>, mode: Mode, f: nat, i: nat, j: nat, oldest: int, t: Step)
    requires IsRun(run, mode) && i < j < |run| && Enabled(run[i], Compute(f, oldest)) && run[i + 1] == Next(run[i], Compute(f, oldest))
    requires Alive(run, f, i + 1, j) && Enabled(run[j], t) && t in {WriteCheckpoint(f), EndFlush(f)}
    ensures t.WriteCheckpoint? ==> JustBelow(run[i], Next(run[j], t).ckpt)
    ensures t.EndFlush? ==> forall k :: k in Next(run[j], t).segs ==> k >= run[i].segIndex || exists g :: g in Slots(run[i].head) && g.seg <= k
  {
    RunInv(run, mode, i);
    ComputedJustBelow(run[i], f, oldest);
    var b := run[i + 1].flushes[f].b;
    RunHolds(run, mode, f, i + 1, j, b);
    if t.EndFlush? {
      forall k | k in run[j].segs ensures k >= run[i].segIndex || exists g :: g in Slots(run[i].head) && g.seg <= k {
        assert k > b;
        if b + 1 != run[i].segIndex { var g :| g in Slots(run[i].head) && g.seg == b + 1; }
      }
    }
  }

  /** In particular, after a flush that emptied the head. */
  lemma EmptiedHeadFreesTheLog(run: seq<State>, mode: Mode, f: nat, i: nat, j: nat, oldest: int, t: Step)
    requires IsRun(run, mode) && i < j < |run| && Enabled(run[i], Compute(f, oldest)) && run[i + 1] == Next(run[i], Compute(f, oldest))
    requires Alive(run, f, i + 1, j) && Enabled(run[j], t) && t in {WriteCheckpoint(f), EndFlush(f)} && Slots(run[i].head) == {}
    ensures t.WriteCheckpoint? ==> var s := Next(run[j], t);
      s.ckpt == run[i].segIndex - 1 && forall x :: x in Log(s) ==> exists k :: k in s.segs && k >= run[i].segIndex && x in s.segs[k]
    ensures t.EndFlush? ==> forall k :: k in Next(run[j], t).segs ==> k >= run[i].segIndex
  {
    FlushAdvances(run, mode, f, i, j, oldest, t);
    if t.WriteCheckpoint? {
      var s := Next(run[j], t);
      forall x | x in Log(s) ensures exists k :: k in s.segs && k >= run[i].segIndex && x in s.segs[k] {
        var k :| k in s.segs && k > s.ckpt && x in s.segs[k];
      }
    }
  }
}
