/** Runs of the engine, step by step, for an arbitrary write: that its steps can be taken,
    what they come to, and why a query reads the head before the blocks. */
module Lifecycle {
  import opened Samples
  import opened Chunks
  import opened Head
  import opened Reclaim
  import opened Engine
  import opened EngineRuns

  /** Reading in the other order, the blocks at i and then the head at j, does not
      cover x, although x was acknowledged before the read began. */
  ghost predicate BlocksFirstMisses(run: seq<State>, i: nat, j: nat, x: Sample) {
    && i <= j < |run| && run[i].up && run[j].up && x in run[i].acked
    && !Covers(AllHeld(run[i].live) + HeadSamples(run[j].head), x)
  }

  /** The head chunk that holds x alone, open or sealed. */
  function OneChunk(x: Sample, sealed: bool): Chunk { Chunk(0, [x], x.ts, x.ts, sealed) }

  function OneHead(x: Sample, sealed: bool): Head { map[x.series := [Slot(OneChunk(x, sealed), 1)]] }

  lemma OneHeadSlots(x: Sample)
    ensures Slots(OneHead(x, true)) == {Slot(OneChunk(x, true), 1)}
    ensures SealedChunks(OneHead(x, true)) == {OneChunk(x, true)}
  {
    var h, f := OneHead(x, true), Slot(OneChunk(x, true), 1);
    assert h[x.series] == [f];
    forall g | g in Slots(h) ensures g == f { }
    assert f in h[x.series];
    assert f in Slots(h);
    assert SealedChunks(h) == {OneChunk(x, true)} by { assert f.chunk in SealedChunks(h); }
  }

  lemma OneHeadOk(x: Sample)
    requires Int64(x.ts)
    ensures HeadOk(OneHead(x, true)) && UniqueIds(OneHead(x, true))
  {
    assert OneHead(x, true)[x.series] == [Slot(OneChunk(x, true), 1)];
  }

  /** The block a flush of that chunk commits. */
  function OneBlock(x: Sample): Block { Block("", 0, [], map[x.series := ""], map[x.series := [x]]) }

  lemma OneBlockHolds(x: Sample)
    ensures WellFormed(OneBlock(x)) && Held(OneBlock(x)) == {x} == ChunkSamples({OneChunk(x, true)})
  {
    var b := OneBlock(x);
    assert b.series[x.series] == [x];
    assert x in b.series[x.series];
    assert x in OneChunk(x, true).samples;
  }

  /** x, once stamped, logged in a segment that then rotated, and acknowledged: the head
      holds it in an open chunk. */
  function Acknowledged(x: Sample): State {
    State(AllInOne, true, map[1 := {x}, 2 := {}], 0, map[], 1, 2, Idle, OneHead(x, false), Max(1, x.gen + 1), 1,
          map[], map[], {x}, {x}, {})
  }

  function Flushing(x: Sample): State {
    Acknowledged(x).(head := OneHead(x, true), flushes := map[0 := Sending({OneChunk(x, true)}, {})])
  }

  function Published(x: Sample): State {
    Flushing(x).(disk := map["a" := OneBlock(x)], live := map["a" := OneBlock(x)],
                 flushes := map[0 := Sending({}, {OneChunk(x, true)})])
  }

  lemma OneAppend(x: Sample)
    ensures Append(map[], x, 1, 0) == OneHead(x, false)
  {
    var e: seq<Slot> := [];
    assert e + [Slot(OneChunk(x, false), 1)] == [Slot(OneChunk(x, false), 1)];
  }

  /** From an empty directory to the acknowledgement of x. */
  lemma AcknowledgedRun(x: Sample, start: State) returns (run: seq<State>)
    requires Init(start, AllInOne) && Int64(x.ts) && 1 <= x.gen <= MAX_GENERATION
    ensures IsRun(run, AllInOne) && |run| == 5 && run[4] == Acknowledged(x)
  {
    var r1 := Next(start, ReserveStamped(x));
    var r2 := Next(r1, LogRecord);
    var r3 := Next(r2, Rotate);
    run := [start, r1, r2, r3];
    assert IsStep(run[0], run[1]) by { assert Enabled(start, ReserveStamped(x)); }
    assert IsStep(run[1], run[2]) by { assert Enabled(r1, LogRecord); }
    assert IsStep(run[2], run[3]) by { assert Enabled(r2, Rotate); }
    assert StepsTo(run, 1) && StepsTo(run, 2) && StepsTo(run, 3);
    assert r2.segs[1] == r2.written == {x};
    ApplyStep(x, r3);
    Extend(run, AllInOne, Acknowledged(x));
    run := run + [Acknowledged(x)];
  }

  lemma ApplyStep(x: Sample, s: State)
    requires s == Acknowledged(x).(pending := Logged(x, 1), head := map[], nextId := 0, nextGen := 1, acked := {})
    ensures IsStep(s, Acknowledged(x))
  {
    OneAppend(x);
    assert Enabled(s, Apply);
    assert Next(s, Apply).acked == {x};
  }

  lemma SealStep(x: Sample, s: State)
    requires s == Acknowledged(x).(head := OneHead(x, true))
    ensures IsStep(Acknowledged(x), s)
  {
    var r := Acknowledged(x);
    assert Enabled(r, SealAll);
    assert SealLast(r.head[x.series]) == s.head[x.series];
    assert SealHead(r.head) == s.head;
  }

  lemma FlushStep(x: Sample, s: State)
    requires s == Acknowledged(x).(head := OneHead(x, true))
    ensures IsStep(s, Flushing(x))
  {
    OneHeadSlots(x);
    assert Enabled(s, FlushStart(0));
    assert Next(s, FlushStart(0)).flushes == Flushing(x).flushes;
  }

  function CommittedFlush(x: Sample): Flush {
    Committed({}, {}, "a", OneBlock(x), {OneChunk(x, true)})
  }

  lemma CommitStep(x: Sample, s: State)
    requires s == Flushing(x).(disk := map["a" := OneBlock(x)], flushes := map[0 := CommittedFlush(x)])
    ensures IsStep(Flushing(x), s)
  {
    var r, t := Flushing(x), Commit(0, "a", OneBlock(x), {OneChunk(x, true)});
    OneBlockHolds(x);
    assert Enabled(r, t);
    assert Next(r, t).flushes[0] == CommittedFlush(x);
    assert Next(r, t).disk == s.disk && Next(r, t).flushes == s.flushes;
  }

  lemma RegisterStep(x: Sample, s: State)
    requires s == Flushing(x).(disk := map["a" := OneBlock(x)], flushes := map[0 := CommittedFlush(x)])
    ensures IsStep(s, Published(x))
  {
    assert Enabled(s, Register(0));
    assert Next(s, Register(0)).flushes[0] == Sending({}, {OneChunk(x, true)});
    assert Next(s, Register(0)).live == Published(x).live && Next(s, Register(0)).flushes == Published(x).flushes;
  }

  /** The published chunk has left the head, which is empty. */
  function Dropped(x: Sample): State {
    Published(x).(head := map[x.series := []], flushes := map[0 := Sending({}, {})])
  }

  lemma DropStep(x: Sample)
    ensures IsStep(Published(x), Dropped(x))
  {
    var r, c := Published(x), OneChunk(x, true);
    assert Enabled(r, DropSent(0));
    var s := Next(r, DropSent(0));
    assert r.flushes[0].sent == {c} && c.id in Ids({c});
    KeepNone(x);
    assert s.head == map[x.series := []];
    assert s.flushes == map[0 := Sending({}, {})];
  }

  lemma KeepNone(x: Sample)
    ensures Discard(OneHead(x, true), Ids({OneChunk(x, true)})) == map[x.series := []]
  {
    var s, drop := OneHead(x, true)[x.series], Ids({OneChunk(x, true)});
    assert OneChunk(x, true).id in drop;
    assert s[..0] == [] && Keep(s[..0], drop) == [];
    assert Keep(s, drop) == [];
  }

  lemma NothingHeld(x: Sample)
    ensures Slots(map[x.series := []]) == {} && HeadSamples(map[x.series := []]) == {}
  {
  }

  /** From the acknowledgement to the empty head. */
  lemma DroppedRun(x: Sample, start: State) returns (run: seq<State>)
    requires Init(start, AllInOne) && Int64(x.ts) && 1 <= x.gen <= MAX_GENERATION
    ensures IsRun(run, AllInOne) && |run| == 10 && run[4] == Acknowledged(x) && run[9] == Dropped(x)
  {
    run := AcknowledgedRun(x, start);
    var s5 := Acknowledged(x).(head := OneHead(x, true));
    var s7 := Flushing(x).(disk := map["a" := OneBlock(x)], flushes := map[0 := CommittedFlush(x)]);
    SealStep(x, s5);
    FlushStep(x, s5);
    CommitStep(x, s7);
    RegisterStep(x, s7);
    DropStep(x);
    Extend(run, AllInOne, s5);
    run := run + [s5];
    Extend(run, AllInOne, Flushing(x));
    run := run + [Flushing(x)];
    Extend(run, AllInOne, s7);
    run := run + [s7];
    Extend(run, AllInOne, Published(x));
    run := run + [Published(x)];
    Extend(run, AllInOne, Dropped(x));
    run := run + [Dropped(x)];
  }

  /** The other order is wrong, for every write: the run that acknowledges x, seals,
      flushes, publishes and drops it. Read the blocks at the acknowledgement and the
      head at the end, and x is in neither. */
  lemma BlocksFirstWouldMiss(x: Sample, start: State)
    requires Init(start, AllInOne) && Int64(x.ts) && 1 <= x.gen <= MAX_GENERATION
    ensures exists run: seq<State>, i: nat, j: nat :: IsRun(run, AllInOne) && BlocksFirstMisses(run, i, j, x)
  {
    var run := DroppedRun(x, start);
    NothingHeld(x);
    assert run[4] == Acknowledged(x) && run[9] == Dropped(x);
    assert BlocksFirstMisses(run, 4, 9, x);
  }

  // ---- a write's whole life ----

  /** The head is flushed, the checkpoint recorded and the segment deleted. */
  function Flushed(x: Sample): State {
    Dropped(x).(ckpt := 1, segs := map[2 := {}], flushes := map[])
  }

  lemma DrainedStep(x: Sample, s: State)
    requires s == Dropped(x).(flushes := map[0 := Drained])
    ensures IsStep(Dropped(x), s)
  {
    assert Enabled(Dropped(x), FlushSent(0));
    assert Next(Dropped(x), FlushSent(0)).flushes == s.flushes;
  }

  lemma ComputeStep(x: Sample, r: State, s: State)
    requires r == Dropped(x).(flushes := map[0 := Drained]) && s == Dropped(x).(flushes := map[0 := Boundary(1)])
    ensures IsStep(r, s)
  {
    NothingHeld(x);
    assert Enabled(r, Compute(0, -1));
    assert Next(r, Compute(0, -1)).flushes == s.flushes;
  }

  lemma WriteStep(x: Sample, r: State, s: State)
    requires r == Dropped(x).(flushes := map[0 := Boundary(1)]) && s == Dropped(x).(ckpt := 1, flushes := map[0 := Recorded(1)])
    ensures IsStep(r, s)
  {
    assert Enabled(r, WriteCheckpoint(0));
    assert Next(r, WriteCheckpoint(0)).flushes == s.flushes;
  }

  lemma DeleteStep(x: Sample, r: State, s: State)
    requires r == Dropped(x).(ckpt := 1, flushes := map[0 := Recorded(1)]) && s == r.(segs := map[2 := {}])
    ensures IsStep(r, s)
  {
    assert Enabled(r, DeleteSegment(0, 1));
    assert Next(r, DeleteSegment(0, 1)).segs == s.segs;
  }

  lemma EndStep(x: Sample, r: State)
    requires r == Flushed(x).(flushes := map[0 := Recorded(1)])
    ensures IsStep(r, Flushed(x))
  {
    assert Enabled(r, EndFlush(0));
    assert Next(r, EndFlush(0)).flushes == Flushed(x).flushes;
  }

  /** What is left of s when its process dies. */
  function Dead(s: State): State {
    s.(up := false, pending := Idle, head := map[], flushes := map[], live := map[])
  }

  lemma DieStep(s: State)
    requires s.up && s.mode.AllInOne?
    ensures IsStep(s, Dead(s))
  {
    assert Enabled(s, Crash);
  }

  /** What a restart makes of it, where no block lists another. */
  function Risen(s: State, records: seq<Sample>, idx: int): State {
    s.(up := true, live := s.disk, head := SetFence(Replay(records), s.ckpt + 1), segs := s.segs[idx := {}],
       segIndex := idx, nextGen := GenAfterRestart(s, s.disk), nextId := |records|)
  }

  lemma NoneVerified(disk: map<string, Block>)
    requires forall n :: n in disk ==> disk[n].sources == []
    ensures IsVerifiedBy(disk, map[], map[]) && LeastClosed(map[], {})
  {
    var none: VerifiedBy := map[];
    forall n, sv ensures sv in EdgesTo(none, n) <==> sv in disk.Keys && Edge(disk, map[], sv, n) { }
  }

  lemma RiseStep(s: State, records: seq<Sample>, idx: int)
    requires !s.up && s.mode.AllInOne? && SetOf(records) == After(s.segs, s.ckpt)
    requires idx - 1 in s.segs && (forall i :: i in s.segs ==> i < idx)
    requires forall n :: n in s.disk ==> s.disk[n].sources == []
    ensures IsStep(s, Risen(s, records, idx))
  {
    NoneVerified(s.disk);
    var t := Step.Restart(map[], map[], {}, records, idx);
    assert Reopened(s, {}) == s.disk;
    assert Enabled(s, t);
  }

  lemma Revived(run: seq<State>, s: State, records: seq<Sample>, idx: int) returns (run': seq<State>)
    requires IsRun(run, AllInOne) && run[|run| - 1] == s && s.up && s.mode.AllInOne? && SetOf(records) == After(s.segs, s.ckpt)
    requires idx - 1 in s.segs && (forall i :: i in s.segs ==> i < idx)
    requires forall n :: n in s.disk ==> s.disk[n].sources == []
    ensures run' == run + [Dead(s), Risen(Dead(s), records, idx)] && IsRun(run', AllInOne)
  {
    DieStep(s);
    RiseStep(Dead(s), records, idx);
    Extend(run, AllInOne, Dead(s));
    Extend(run + [Dead(s)], AllInOne, Risen(Dead(s), records, idx));
    run' := run + [Dead(s)] + [Risen(Dead(s), records, idx)];
  }

  /** A run that acknowledges x, crashes, and comes up with x. */
  ghost predicate ComesBack(run: seq<State>, i: nat, j: nat, x: Sample) {
    && i < j < |run| - 1 && run[i].up && x in run[i].acked && !run[j].up && run[|run| - 1].up
    && x in Visible(run[|run| - 1])
  }

  /** From its log: the head holds it again. */
  ghost predicate FromLog(run: seq<State>, x: Sample) {
    |run| > 0 && x in HeadSamples(run[|run| - 1].head)
  }

  /** From its block, the log being empty and its segment gone. */
  ghost predicate FromBlock(run: seq<State>, x: Sample) {
    |run| > 0 && var s := run[|run| - 1]; Log(s) == {} && 1 !in s.segs && x in AllHeld(s.live)
  }

  lemma ReplayedOne(x: Sample)
    requires Int64(x.ts)
    ensures x in HeadSamples(SetFence(Replay([x]), 1))
  {
    ReplayFenced([x], 1);
    assert x in SetOf([x]);
  }

  /** A crash right after the acknowledgement: the log brings x back. */
  lemma LogBringsBack(x: Sample, start: State)
    requires Init(start, AllInOne) && Int64(x.ts) && 1 <= x.gen <= MAX_GENERATION
    ensures exists run: seq<State>, i: nat, j: nat :: IsRun(run, AllInOne) && ComesBack(run, i, j, x) && FromLog(run, x)
  {
    var run := AcknowledgedRun(x, start);
    var s := Acknowledged(x);
    assert 1 in s.segs && x in s.segs[1];
    assert SetOf([x]) == {x} == After(s.segs, s.ckpt);
    run := Revived(run, s, [x], 3);
    ReplayedOne(x);
    assert ComesBack(run, 4, 5, x) && FromLog(run, x);
  }

  lemma FlushedRun(x: Sample, start: State) returns (run: seq<State>)
    requires Init(start, AllInOne) && Int64(x.ts) && 1 <= x.gen <= MAX_GENERATION
    ensures IsRun(run, AllInOne) && |run| == 15 && run[4] == Acknowledged(x) && run[14] == Flushed(x)
  {
    run := DroppedRun(x, start);
    var d := Dropped(x);
    var s10, s11 := d.(flushes := map[0 := Drained]), d.(flushes := map[0 := Boundary(1)]);
    var s12 := d.(ckpt := 1, flushes := map[0 := Recorded(1)]);
    var s13 := s12.(segs := map[2 := {}]);
    DrainedStep(x, s10);
    ComputeStep(x, s10, s11);
    WriteStep(x, s11, s12);
    DeleteStep(x, s12, s13);
    EndStep(x, s13);
    Extend(run, AllInOne, s10);
    run := run + [s10];
    Extend(run, AllInOne, s11);
    run := run + [s11];
    Extend(run, AllInOne, s12);
    run := run + [s12];
    Extend(run, AllInOne, s13);
    run := run + [s13];
    Extend(run, AllInOne, Flushed(x));
    run := run + [Flushed(x)];
  }

  /** A crash after a whole flush: the log is empty, its old segment gone, and x is back
      from the block. */
  lemma BlockBringsBack(x: Sample, start: State)
    requires Init(start, AllInOne) && Int64(x.ts) && 1 <= x.gen <= MAX_GENERATION
    ensures exists run: seq<State>, i: nat, j: nat :: IsRun(run, AllInOne) && ComesBack(run, i, j, x) && FromBlock(run, x)
  {
    var run := FlushedRun(x, start);
    var s := Flushed(x);
    assert After(s.segs, s.ckpt) == {} == SetOf([]);
    run := Revived(run, s, [], 3);
    OneBlockHolds(x);
    RisenFromBlock(x, Risen(Dead(s), [], 3));
    assert ComesBack(run, 4, 15, x) && FromBlock(run, x);
  }

  lemma RisenFromBlock(x: Sample, up: State)
    requires up == Risen(Dead(Flushed(x)), [], 3)
    ensures Log(up) == {} && 1 !in up.segs && x in AllHeld(up.live)
  {
    OneBlockHolds(x);
    assert "a" in up.live && x in Held(up.live["a"]);
  }

  // ---- a restart is always possible ----

  ghost function AllEdges(present: map<string, Block>, witnesses: map<string, Block>): VerifiedBy {
    map n | n in present && (exists sv :: sv in present && Edge(present, witnesses, sv, n)) ::
      set sv | sv in present && Edge(present, witnesses, sv, n)
  }

  lemma AllEdgesRecorded(present: map<string, Block>, witnesses: map<string, Block>)
    ensures IsVerifiedBy(present, witnesses, AllEdges(present, witnesses))
  {
    var vb := AllEdges(present, witnesses);
    forall n | n in vb ensures vb[n] != {} {
      var sv :| sv in present && Edge(present, witnesses, sv, n);
      assert sv in vb[n];
    }
  }

  /** What every closed set reclaims. */
  ghost function InAllClosed(vb: VerifiedBy): set<string> {
    set n | n in vb && forall C :: Closed(vb, C) ==> n in C
  }

  lemma InAllClosedIsLeast(vb: VerifiedBy)
    ensures LeastClosed(vb, InAllClosed(vb))
  {
    var R := InAllClosed(vb);
    forall n | n in vb && Supported(vb, R, n) ensures n in R {
      var sv :| sv in vb[n] && (sv !in vb || sv in R);
      forall C | Closed(vb, C) ensures n in C {
        assert sv !in vb || sv in C;
        assert Supported(vb, C, n);
      }
    }
  }

  lemma {:induction false} InSomeOrder<T>(S: set<T>) returns (s: seq<T>)
    ensures forall x :: x in s <==> x in S
  {
    if S == {} { return []; }
    var x :| x in S;
    var rest := InSomeOrder(S - {x});
    s := [x] + rest;
  }

  lemma {:induction false} Highest(S: set<int>, k: int) returns (i: int)
    requires k in S
    ensures i in S && i >= k && forall j :: j in S ==> j <= i
  {
    i := k;
    if j :| j in S && j > k {
      i := Highest(S - {k}, j);
      assert forall m :: m in S ==> m == k || m in S - {k};
    }
  }

  /** Whatever a crash and interrupted deletions left, start-up comes through: no state of
      a run is one it cannot come back from. */
  lemma CanRestart(s: State, witnesses: map<string, Block>)
    requires Inv(s) && !s.up
    ensures exists vb, R, records, idx :: Enabled(s, Step.Restart(witnesses, vb, R, records, idx))
  {
    var vb := AllEdges(s.disk, witnesses);
    AllEdgesRecorded(s.disk, witnesses);
    InAllClosedIsLeast(vb);
    var records := InSomeOrder(Log(s));
    var top := TopSegment(s);
    RestartEnabled(s, witnesses, vb, InAllClosed(vb), records, top + 1);
  }

  lemma TopSegment(s: State) returns (top: int)
    requires Inv(s) && !s.up
    ensures top in s.segs && forall i :: i in s.segs ==> i <= top
  {
    var some :| some in s.segs && some > s.ckpt;
    top := Highest(s.segs.Keys, some);
  }

  lemma RestartEnabled(s: State, witnesses: map<string, Block>, vb: VerifiedBy, R: set<string>, records: seq<Sample>, idx: int)
    requires !s.up && IsVerifiedBy(s.disk, witnesses, vb) && LeastClosed(vb, R)
    requires (forall x :: x in records <==> x in Log(s)) && idx - 1 in s.segs && forall i :: i in s.segs ==> i < idx
    ensures Enabled(s, Step.Restart(witnesses, vb, R, records, idx))
  {
    assert SetOf(records) == After(s.segs, s.ckpt);
  }

  /** The counter then stands just above the newest generation in the blocks kept and in
      the log, or at 1 where there is none. */
  lemma RestartGenIsExact(s: State, t: Step, s': State, all: set<Sample>)
    requires s.mode.AllInOne? && Enabled(s, t) && t.Restart? && s' == Next(s, t) && all == AllHeld(s'.live) + Log(s)
    ensures forall x :: x in all ==> x.gen < s'.nextGen
    ensures s'.nextGen == 1 || exists x :: x in all && s'.nextGen == x.gen + 1
  {
    RestartCounts(s, t, s');
    CountedFrom(s, s'.live, s'.nextGen);
    NewestOfBoth(AllHeld(s'.live), Log(s), MaxGen(AllHeld(s'.live)), MaxGen(Log(s)));
  }

  lemma RestartCounts(s: State, t: Step, s': State)
    requires Enabled(s, t) && t.Restart? && s' == Next(s, t)
    ensures s'.nextGen == GenAfterRestart(s, s'.live)
  {
  }

  lemma CountedFrom(s: State, kept: map<string, Block>, g: int)
    requires s.mode.AllInOne? && g == GenAfterRestart(s, kept)
    ensures g == Max(MaxGen(AllHeld(kept)) + 1, MaxGen(Log(s)) + 1)
  {
  }

  lemma NewestOfBoth(kept: set<Sample>, log: set<Sample>, a: int, b: int)
    requires a == MaxGen(kept) && b == MaxGen(log)
    ensures var g := Max(a + 1, b + 1); var all := kept + log;
      (forall x :: x in all ==> x.gen < g) && (g == 1 || exists x :: x in all && g == x.gen + 1)
  {
    if a >= b && a > 0 {
      var x :| x in kept && x.gen == a;
      assert x in kept + log;
    } else if b > 0 {
      var x :| x in log && x.gen == b;
      assert x in kept + log;
    }
  }
}
