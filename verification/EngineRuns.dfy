/** Whole runs of the storage engine, from an empty directory on: any interleaving of
    its steps, any number of crashes. */
module EngineRuns {
  import opened Samples
  import opened Chunks
  import opened Head
  import opened Reclaim
  import opened Answers
  import opened Engine

  lemma AppendStepInv(s: State, t: Step)
    requires UpInv(s) && Enabled(s, t)
    requires t.LogRecord? || t.Rotate? || t.Apply? || t.SealAll?
    ensures UpInv(Next(s, t))
  {
    match t
    case LogRecord => LogInv(s);
    case Rotate => RotateInv(s);
    case Apply => ApplyInv(s);
    case SealAll => SealInv(s);
  }

  lemma FlushStepInv(s: State, t: Step)
    requires UpInv(s) && Enabled(s, t)
    requires t.FlushStart? || t.Commit? || t.Register? || t.DropSent?
    ensures UpInv(Next(s, t))
  {
    match t
    case FlushStart(f) => FlushStartInv(s, f);
    case Commit(f, name, b, batch) => CommitInv(s, f, name, b, batch);
    case Register(f) => RegisterInv(s, f);
    case DropSent(f) => DropSentInv(s, f);
  }

  lemma CheckpointStepInv(s: State, t: Step)
    requires UpInv(s) && Enabled(s, t) && (t.TearCheckpoint? || t.WriteCheckpoint?)
    ensures UpInv(Next(s, t))
  {
    if t.TearCheckpoint? { TearInv(s, t.f, t.v); } else { WriteInv(s, t.f); }
  }

  lemma TruncateStepInv(s: State, t: Step)
    requires UpInv(s) && Enabled(s, t) && (t.Compute? || t.DeleteSegment?)
    ensures UpInv(Next(s, t))
  {
    if t.Compute? { ComputeInv(s, t.f, t.oldest); } else { DeleteInv(s, t.f, t.i); }
  }

  lemma BlockStepInv(s: State, t: Step)
    requires Inv(s) && Enabled(s, t) && AtStores(t)
    ensures Inv(Next(s, t))
  {
    StoreStep(s, t, Next(s, t));
    if s.up { UpStoreInv(s, t, Next(s, t)); } else { DownStoreInv(s, t, Next(s, t)); }
  }

  lemma DownStepInv(s: State, t: Step)
    requires DownInv(s) && Enabled(s, t)
    requires t.RetireAtStart? || t.Restart?
    ensures t.RetireAtStart? ==> DownInv(Next(s, t))
    ensures t.Restart? ==> UpInv(Next(s, t))
  {
    match t
    case RetireAtStart(witnesses, vb, R, M) => RetireInv(s, witnesses, vb, R, M);
    case Restart(witnesses, vb, R, records, idx) => RestartInv(s, witnesses, vb, R, records, idx);
  }

  /** What no step changes or takes back. */
  lemma StepHistory(s: State, t: Step)
    requires Enabled(s, t)
    ensures s.acked <= Next(s, t).acked && s.written <= Next(s, t).written && Next(s, t).mode == s.mode
    ensures Next(s, t).up == (if t.Crash? then false else if t.Restart? then true else s.up)
    ensures !AtStores(t) ==> (s.up <==> !(t.RetireAtStart? || t.Restart?))
    ensures AtStores(t) ==> StoresUp(s)
  {
  }

  /** Every step keeps the invariant. */
  lemma StepInv(s: State, t: Step)
    requires Inv(s) && Enabled(s, t)
    ensures Inv(Next(s, t))
  {
    StepHistory(s, t);
    if AtStores(t) {
      BlockStepInv(s, t);
    } else if !s.up {
      DownStepInv(s, t);
    } else {
      UpStepInv(s, t);
    }
  }

  lemma UpStepInv(s: State, t: Step)
    requires s.up && UpInv(s) && Enabled(s, t) && !AtStores(t)
    ensures t.Crash? ==> DownInv(Next(s, t))
    ensures !t.Crash? ==> UpInv(Next(s, t))
  {
    if t.Crash? {
      CrashInv(s);
    } else if t.TearCheckpoint? || t.WriteCheckpoint? {
      CheckpointStepInv(s, t);
    } else if t.Compute? || t.DeleteSegment? {
      TruncateStepInv(s, t);
    } else if t.FlushStart? || t.Commit? || t.Register? || t.DropSent? {
      FlushStepInv(s, t);
    } else if t.FlushSent? || t.EndFlush? {
      EndsInv(s, t);
    } else if t.Abort? {
      AbortInv(s, t.f, t.cleanup);
    } else if t.LogRecord? || t.Rotate? || t.Apply? || t.SealAll? {
      AppendStepInv(s, t);
    } else if t.FailLogged? {
      FailInv(s);
    } else {
      ReserveInv(s, t);
    }
  }

  ghost predicate IsStep(s: State, s': State) {
    exists t :: Enabled(s, t) && s' == Next(s, t)
  }

  ghost predicate StepsTo(run: seq<State>, i: int) {
    0 < i < |run| && IsStep(run[i - 1], run[i])
  }

  ghost predicate IsRun(run: seq<State>, mode: Mode) {
    && |run| > 0 && Init(run[0], mode)
    && forall i :: 0 < i < |run| ==> StepsTo(run, i)
  }

  lemma {:induction false} RunInv(run: seq<State>, mode: Mode, i: nat)
    requires IsRun(run, mode) && i < |run|
    ensures Inv(run[i])
  {
    if i == 0 {
      InitInv(run[0], mode);
    } else {
      RunInv(run, mode, i - 1);
      assert StepsTo(run, i);
      IsStepInv(run[i - 1], run[i]);
    }
  }

  lemma IsStepInv(s: State, s': State)
    requires Inv(s) && IsStep(s, s')
    ensures Inv(s')
  {
    var t :| Enabled(s, t) && s' == Next(s, t);
    StepInv(s, t);
  }

  lemma IsStepHistory(s: State, s': State)
    requires IsStep(s, s')
    ensures s.acked <= s'.acked && s.written <= s'.written && s'.mode == s.mode
  {
    var t :| Enabled(s, t) && s' == Next(s, t);
    StepHistory(s, t);
  }

  /** Acknowledgements and records are never forgotten. */
  lemma {:induction false} HistoryGrows(run: seq<State>, mode: Mode, i: nat, j: nat)
    requires IsRun(run, mode) && i <= j < |run|
    ensures run[i].acked <= run[j].acked && run[i].written <= run[j].written
  {
    if i < j {
      HistoryGrows(run, mode, i, j - 1);
      assert StepsTo(run, j);
      IsStepHistory(run[j - 1], run[j]);
    }
  }

  /** No acknowledged write is ever lost: at every later instant of every run, also
      between any two disk writes, each write acknowledged so far (or one that
      outranks it at its key) is in a block on disk or in a WAL segment above the
      checkpoint; and while the process is up, it is visible. */
  lemma AckedIsDurable(run: seq<State>, mode: Mode, i: nat, j: nat, x: Sample)
    requires IsRun(run, mode) && i <= j < |run| && x in run[i].acked
    ensures Covers(Durable(run[j]), x)
    ensures run[j].up ==> Covers(Visible(run[j]), x)
  {
    RunInv(run, mode, j);
    HistoryGrows(run, mode, i, j);
    var s := run[j];
    assert x in s.acked;
    if s.up {
      assert Covers(Visible(s), x);
      VisibleIsDurable(s);
      CoversSelf(Durable(s), Visible(s));
      CoversOne(Durable(s), Visible(s), x);
    }
  }

  // ---- what was once visible ----

  /** What a query sees; while the process is down, what a restart will show. */
  function Recoverable(s: State): set<Sample> {
    if s.up then Visible(s) else Durable(s)
  }

  lemma SameSources(s: State, t: Step)
    requires s.up && Enabled(s, t) && Next(s, t).up
    requires !t.Apply? && !t.SealAll? && !t.DropSent? && !t.Register? && !AtStores(t)
    ensures Visible(Next(s, t)) == Visible(s)
  {
    StepHistory(s, t);
    assert Next(s, t).head == s.head && Next(s, t).live == s.live;
  }

  lemma RegisterShows(s: State, f: nat)
    requires Enabled(s, Register(f))
    ensures CoversAll(Visible(Next(s, Register(f))), Visible(s))
  {
    var s' := Next(s, Register(f));
    HeldGrows(s.live, s.flushes[f].name, s.flushes[f].block);
    CoversSelf(AllHeld(s'.live), AllHeld(s.live));
    CoveringLiveVisible(s, s');
  }

  lemma DropShows(s: State, f: nat)
    requires UpInv(s) && Enabled(s, DropSent(f))
    ensures CoversAll(Visible(Next(s, DropSent(f))), Visible(s))
  {
    assert FlushOk(s, s.flushes[f]);
    DroppedIsCovered(s, s.flushes[f].sent);
  }

  lemma UpStepShows(s: State, t: Step)
    requires s.up && UpInv(s) && Enabled(s, t) && Next(s, t).up
    ensures CoversAll(Visible(Next(s, t)), Visible(s))
  {
    var s' := Next(s, t);
    if t.Register? {
      RegisterShows(s, t.f);
    } else if t.DropSent? {
      DropShows(s, t.f);
    } else if AtStores(t) {
      UpStoreInv(s, t, s');
    } else {
      if t.Apply? {
        AppendSamples(s.head, s.pending.x, s.pending.walSeg, s.nextId);
      } else if t.SealAll? {
        SealSamples(s.head);
      } else {
        SameSources(s, t);
      }
      CoversSelf(Visible(s'), Visible(s));
    }
  }

  lemma CrashShows(s: State)
    requires UpInv(s) && Enabled(s, Crash)
    ensures CoversAll(Durable(Next(s, Crash)), Visible(s))
  {
    VisibleIsDurable(s);
    assert Durable(Next(s, Crash)) == Durable(s);
    CoversSelf(Durable(s), Visible(s));
  }

  lemma RetireShows(s: State, t: Step)
    requires DownInv(s) && Enabled(s, t) && t.RetireAtStart?
    ensures CoversAll(Durable(Next(s, t)), Durable(s))
  {
    var s' := Next(s, t);
    ReclaimKeepsView(s.disk, t.witnesses, t.vb, t.R, t.M);
    SameViewIff(AllHeld(s'.disk), AllHeld(s.disk));
    CoveredBase(AllHeld(s'.disk), AllHeld(s.disk), After(s.segs, s.ckpt));
  }

  lemma RestartShows(s: State, t: Step)
    requires DownInv(s) && Enabled(s, t) && t.Restart?
    ensures CoversAll(Visible(Next(s, t)), Durable(s))
  {
    var s' := Next(s, t);
    ReopenedCovers(s, t.witnesses, t.vb, t.R, t.records, t.idx);
    ReplayedHeadOk(s, t.records);
    CoveredBase(AllHeld(s'.live), Base(s), After(s.segs, s.ckpt));
    assert Visible(s') == AllHeld(s'.live) + After(s.segs, s.ckpt);
  }

  lemma DownStepShows(s: State, t: Step)
    requires Inv(s) && Enabled(s, t) && (t.Crash? || !s.up)
    ensures CoversAll(Recoverable(Next(s, t)), Recoverable(s))
  {
    StepHistory(s, t);
    if AtStores(t) { DownStoreInv(s, t, Next(s, t)); } else if t.Crash? { CrashShows(s); } else if t.RetireAtStart? { RetireShows(s, t); } else { RestartShows(s, t); }
  }

  lemma IsStepShows(s: State, s': State)
    requires Inv(s) && IsStep(s, s')
    ensures CoversAll(Recoverable(s'), Recoverable(s))
  {
    var t :| Enabled(s, t) && s' == Next(s, t);
    StepHistory(s, t);
    if t.Crash? || !s.up { DownStepShows(s, t); } else { UpStepShows(s, t); }
  }

  lemma {:induction false} RecoverableGrows(run: seq<State>, mode: Mode, i: nat, j: nat)
    requires IsRun(run, mode) && i <= j < |run|
    ensures CoversAll(Recoverable(run[j]), Recoverable(run[i]))
  {
    if i == j {
      CoversSelf(Recoverable(run[j]), Recoverable(run[i]));
    } else {
      RecoverableGrows(run, mode, i, j - 1);
      RunStepShows(run, mode, j);
      CoversTrans(Recoverable(run[j]), Recoverable(run[j - 1]), Recoverable(run[i]));
    }
  }

  lemma RunStepShows(run: seq<State>, mode: Mode, j: nat)
    requires IsRun(run, mode) && 0 < j < |run|
    ensures CoversAll(Recoverable(run[j]), Recoverable(run[j - 1]))
  {
    var s, s' := run[j - 1], run[j];
    RunStep(run, mode, j, s, s');
    IsStepShows(s, s');
  }

  /** What a query could once see, acknowledged or refused, no later query misses: it,
      or what outranks it, stays visible through every flush, compaction and crash. */
  lemma OnceVisibleStays(run: seq<State>, mode: Mode, i: nat, j: nat)
    requires IsRun(run, mode) && i <= j < |run| && run[i].up && run[j].up
    ensures CoversAll(Visible(run[j]), Visible(run[i]))
  {
    RecoverableGrows(run, mode, i, j);
  }

  /** The log a restart replays. */
  function Log(s: State): set<Sample> { After(s.segs, s.ckpt) }

  lemma IsDownStep(s: State, s': State)
    requires Inv(s) && IsStep(s, s') && !(s.up && s'.up)
    ensures !s'.up ==> Log(s') == Log(s)
    ensures s'.up ==> HeadSamples(s'.head) == Log(s)
  {
    var t :| Enabled(s, t) && s' == Next(s, t);
    StepHistory(s, t);
    if t.Restart? { ReplayedHeadOk(s, t.records); }
  }

  lemma {:induction false} LogSurvives(run: seq<State>, mode: Mode, i: nat, k: nat)
    requires IsRun(run, mode) && i < k < |run| && forall d :: i < d <= k ==> !run[d].up
    ensures Log(run[k]) == Log(run[i])
  {
    if i < k - 1 { LogSurvives(run, mode, i, k - 1); }
    RunDownStep(run, mode, k);
  }

  lemma RunDownStep(run: seq<State>, mode: Mode, k: nat)
    requires IsRun(run, mode) && 0 < k < |run| && !(run[k - 1].up && run[k].up)
    ensures !run[k].up ==> Log(run[k]) == Log(run[k - 1])
    ensures run[k].up ==> HeadSamples(run[k].head) == Log(run[k - 1])
  {
    var s, s' := run[k - 1], run[k];
    RunStep(run, mode, k, s, s');
    IsDownStep(s, s');
  }

  /** Two neighbours of a run. */
  lemma RunStep(run: seq<State>, mode: Mode, k: nat, s: State, s': State)
    requires IsRun(run, mode) && 0 < k < |run| && s == run[k - 1] && s' == run[k]
    ensures Inv(s) && IsStep(s, s')
  {
    RunInv(run, mode, k - 1);
    assert StepsTo(run, k);
  }

  /** A crash and the following restart lose nothing of the head: what the process
      held in memory it holds again. */
  lemma HeadSurvivesRestart(run: seq<State>, mode: Mode, i: nat, j: nat)
    requires IsRun(run, mode) && i + 1 < j < |run| && run[i].up && run[j].up
    requires forall d :: i < d < j ==> !run[d].up
    ensures HeadSamples(run[i].head) <= HeadSamples(run[j].head) <= run[j].written
  {
    RunInv(run, mode, i);
    HeadIsLogged(run[i]);
    LogSurvives(run, mode, i, j - 1);
    RunDownStep(run, mode, j);
    RunInv(run, mode, j);
  }

  lemma HeadIsLogged(s: State)
    requires UpInv(s)
    ensures HeadSamples(s.head) <= Log(s)
  {
    forall x | x in HeadSamples(s.head) ensures x in Log(s) {
      var f :| f in Slots(s.head) && x in f.chunk.samples;
      assert Fenced(s.segs, f);
      var i :| i in s.segs && f.seg <= i && x in s.segs[i];
    }
  }

  // ---- queries ----

  /** In-range data a source covers is answered for. */
  lemma AnswerCovers(a: Answer, S: set<Sample>, id: nat, p: Params, x: Sample)
    requires IsAnswer(a, OfSeries(S, id), p) && Covers(S, x) && x.series == id && p.InRange(x.ts)
    ensures Covers(SetOf(a.samples), x)
  {
    var y :| y in S && AtLeast(y, x);
    ViewCovers(InRange(OfSeries(S, id), p), y);
    var w :| w in View(InRange(OfSeries(S, id), p)) && AtLeast(w, y);
    assert AtLeast(w, x);
  }

  /** A query of a running process: as new as every acknowledged write in range, and
      nothing that was never recorded. */
  lemma QueryIsLastWrite(run: seq<State>, mode: Mode, j: nat, a: Answer, id: nat, p: Params)
    requires IsRun(run, mode) && j < |run| && run[j].up
    requires IsAnswer(a, OfSeries(Visible(run[j]), id), p)
    ensures forall x :: x in run[j].acked && x.series == id && p.InRange(x.ts) ==> Covers(SetOf(a.samples), x)
    ensures SetOf(a.samples) <= run[j].written
  {
    RunInv(run, mode, j);
    var s := run[j];
    LiveIsHeld(s);
    forall x | x in s.acked && x.series == id && p.InRange(x.ts) ensures Covers(SetOf(a.samples), x) {
      assert Covers(Visible(s), x);
      AnswerCovers(a, Visible(s), id, p, x);
    }
  }

  lemma ViewOfSeries(S: set<Sample>, T: set<Sample>, id: nat)
    requires View(S) == View(T)
    ensures View(OfSeries(S, id)) == View(OfSeries(T, id))
  {
    Compaction.OfSeriesView(S, id);
    Compaction.OfSeriesView(T, id);
  }

  /** With no append in flight, the answer is the one over everything ever written,
      once whatever was refused after its record was written is covered too. */
  lemma QuiescentQueryIsExact(run: seq<State>, mode: Mode, j: nat, a: Answer, id: nat, p: Params)
    requires IsRun(run, mode) && j < |run| && run[j].up && run[j].pending.Idle?
    requires forall x :: x in run[j].failed ==> Covers(Visible(run[j]), x)
    requires IsAnswer(a, OfSeries(Visible(run[j]), id), p)
    ensures IsAnswer(a, OfSeries(run[j].written, id), p)
  {
    QuiescentViewIff(run, mode, j);
    var s := run[j];
    ViewOfSeries(Visible(s), s.written, id);
    AnswerDependsOnView(a, OfSeries(Visible(s), id), OfSeries(s.written, id), id, p);
  }

  /** Exactly then: the visible view is the view of everything written. */
  lemma QuiescentViewIff(run: seq<State>, mode: Mode, j: nat)
    requires IsRun(run, mode) && j < |run| && run[j].up && run[j].pending.Idle?
    ensures View(Visible(run[j])) == View(run[j].written) <==> forall x :: x in run[j].failed ==> Covers(Visible(run[j]), x)
  {
    RunInv(run, mode, j);
    FailedIsWritten(run, mode, j);
    var s := run[j];
    LiveIsHeld(s);
    assert Visible(s) <= s.written;
    if forall x :: x in s.failed ==> Covers(Visible(s), x) {
      assert CoversAll(Visible(s), s.written);
      DroppingCoveredKeepsView(s.written, Visible(s));
    }
    if View(Visible(s)) == View(s.written) { SameViewIff(Visible(s), s.written); }
  }

  lemma IsStepFails(s: State, s': State)
    requires Inv(s) && IsStep(s, s') && s.failed <= s.written
    ensures s'.failed <= s'.written
  {
    var t :| Enabled(s, t) && s' == Next(s, t);
    StepHistory(s, t);
    StepFails(s, t);
  }

  lemma StepFails(s: State, t: Step)
    requires Enabled(s, t)
    ensures Next(s, t).failed == s.failed + if t.FailLogged? then {s.pending.x} else {}
  {
  }

  lemma {:induction false} FailedIsWritten(run: seq<State>, mode: Mode, j: nat)
    requires IsRun(run, mode) && j < |run|
    ensures run[j].failed <= run[j].written
  {
    if j > 0 {
      FailedIsWritten(run, mode, j - 1);
      var s, s' := run[j - 1], run[j];
      RunStep(run, mode, j, s, s');
      IsStepFails(s, s');
    }
  }

  /** A run that ends at rest having recorded x, refused it, and showing nothing. */
  ghost predicate MissesRecorded(run: seq<State>, x: Sample) {
    |run| > 0 && var s := run[|run| - 1];
    s.up && s.pending.Idle? && s.written == s.failed == {x} && Visible(s) == {}
  }

  /** A refused record is recorded and may be missing: the run that stamps x, writes
      its record, and then fails. */
  lemma RefusedMayBeMissed(x: Sample, start: State)
    requires Init(start, AllInOne) && Int64(x.ts) && 1 <= x.gen <= MAX_GENERATION
    ensures exists run: seq<State> :: IsRun(run, AllInOne) && MissesRecorded(run, x)
  {
    var r1 := Next(start, ReserveStamped(x));
    var r2 := Next(r1, LogRecord);
    var r3 := Next(r2, FailLogged);
    var run := [start, r1, r2, r3];
    assert IsStep(run[0], run[1]) by { assert Enabled(start, ReserveStamped(x)); }
    assert IsStep(run[1], run[2]) by { assert Enabled(r1, LogRecord); }
    assert IsStep(run[2], run[3]) by { assert Enabled(r2, FailLogged); }
    assert StepsTo(run, 1) && StepsTo(run, 2) && StepsTo(run, 3);
    assert Visible(r3) == {};
    assert IsRun(run, AllInOne) && MissesRecorded(run, x);
  }

  // ---- queries interleaved with a flush ----

  lemma LiveKept(s: State, t: Step)
    requires Enabled(s, t) && Next(s, t).up && !AtStores(t) && !t.Register? && !t.Restart?
    ensures Next(s, t).live == s.live
  {
    StepHistory(s, t);
  }

  /** While a process runs, its registered blocks only ever gain. */
  lemma LiveStep(s: State, t: Step)
    requires s.up && UpInv(s) && Enabled(s, t) && Next(s, t).up
    ensures CoversAll(AllHeld(Next(s, t).live), AllHeld(s.live))
  {
    StepHistory(s, t);
    if AtStores(t) {
      StoreStep(s, t, Next(s, t));
    } else {
      if t.Register? {
        HeldGrows(s.live, s.flushes[t.f].name, s.flushes[t.f].block);
      } else {
        LiveKept(s, t);
      }
      CoversSelf(AllHeld(Next(s, t).live), AllHeld(s.live));
    }
  }

  lemma IsLiveStep(s: State, s': State)
    requires UpInv(s) && s.up && s'.up && IsStep(s, s')
    ensures CoversAll(AllHeld(s'.live), AllHeld(s.live))
  {
    var t :| Enabled(s, t) && s' == Next(s, t);
    LiveStep(s, t);
  }

  lemma RunLiveStep(run: seq<State>, mode: Mode, j: nat)
    requires IsRun(run, mode) && 0 < j < |run| && run[j - 1].up && run[j].up
    ensures CoversAll(AllHeld(run[j].live), AllHeld(run[j - 1].live))
  {
    var s, s' := run[j - 1], run[j];
    RunStep(run, mode, j, s, s');
    IsLiveStep(s, s');
  }

  lemma {:induction false} LiveGrows(run: seq<State>, mode: Mode, i: nat, j: nat)
    requires IsRun(run, mode) && i <= j < |run| && forall k :: i <= k <= j ==> run[k].up
    ensures CoversAll(AllHeld(run[j].live), AllHeld(run[i].live))
  {
    if i == j {
      CoversSelf(AllHeld(run[j].live), AllHeld(run[i].live));
    } else {
      LiveGrows(run, mode, i, j - 1);
      RunLiveStep(run, mode, j);
      CoversTrans(AllHeld(run[j].live), AllHeld(run[j - 1].live), AllHeld(run[i].live));
    }
  }

  /** A query that reads the head at one instant and the blocks at a later one, with
      any steps in between, misses nothing acknowledged before it began. */
  lemma InterleavedQuery(run: seq<State>, mode: Mode, i: nat, j: nat, a: Answer, id: nat, p: Params)
    requires IsRun(run, mode) && i <= j < |run| && forall k :: i <= k <= j ==> run[k].up
    requires IsAnswer(a, OfSeries(HeadSamples(run[i].head) + AllHeld(run[j].live), id), p)
    ensures forall x :: x in run[i].acked && x.series == id && p.InRange(x.ts) ==> Covers(SetOf(a.samples), x)
    ensures SetOf(a.samples) <= run[j].written
  {
    var read := HeadSamples(run[i].head) + AllHeld(run[j].live);
    LiveGrows(run, mode, i, j);
    RunInv(run, mode, i);
    RunInv(run, mode, j);
    HistoryGrows(run, mode, i, j);
    LiveIsHeld(run[j]);
    var mid := run[i].(live := run[j].live);
    CoveringLiveVisible(run[i], mid);
    forall x | x in run[i].acked && x.series == id && p.InRange(x.ts) ensures Covers(SetOf(a.samples), x) {
      assert Covers(Visible(run[i]), x);
      CoversOne(read, Visible(run[i]), x);
      AnswerCovers(a, read, id, p, x);
    }
  }

  /** One more step of a run. */
  lemma Extend(run: seq<State>, mode: Mode, s: State)
    requires IsRun(run, mode) && IsStep(run[|run| - 1], s)
    ensures IsRun(run + [s], mode)
  {
    var run' := run + [s];
    forall i | 0 < i < |run'| ensures StepsTo(run', i) {
      if i < |run| { assert StepsTo(run, i); }
    }
  }

  // ---- generations ----

  lemma CoveredGens(S: set<Sample>, T: set<Sample>, g: int)
    requires CoversAll(S, T) && GensBelow(S, g)
    ensures GensBelow(T, g)
  {
    forall x | x in T ensures x.gen < g {
      assert Covers(S, x);
      var y :| y in S && AtLeast(y, x);
    }
  }

  /** A generation the store assigns is above every one ever acknowledged or visible,
      and every one on disk, whatever crashes came in between. */
  lemma AssignedGenerationIsNewest(run: seq<State>, mode: Mode, i: nat, j: nat, t: Step)
    requires IsRun(run, mode) && i <= j < |run| && t.ReserveOwn? && Enabled(run[j], t)
    ensures var gen := Next(run[j], t).pending.x.gen;
      && GensBelow(run[i].acked, gen) && GensBelow(AllHeld(run[j].disk), gen)
      && (run[i].up ==> GensBelow(Visible(run[i]), gen))
  {
    RunInv(run, mode, j);
    var s := run[j];
    LiveIsHeld(s);
    assert GensBelow(Visible(s), s.nextGen);
    HistoryGrows(run, mode, i, j);
    CoveredGens(Visible(s), s.acked, s.nextGen);
    if run[i].up {
      OnceVisibleStays(run, mode, i, j);
      CoveredGens(Visible(s), Visible(run[i]), s.nextGen);
    }
  }

  /** So in all-in-one, a newly assigned write replaces any acknowledged one at its
      key: the last acknowledged write wins. */
  lemma LastAcknowledgedWins(run: seq<State>, mode: Mode, j: nat, t: Step, i: nat, x: Sample)
    requires IsRun(run, mode) && j < |run| && t.ReserveOwn? && Enabled(run[j], t)
    requires i <= j && x in run[i].acked && SameKey(x, Next(run[j], t).pending.x)
    ensures Outranks(Next(run[j], t).pending.x, x)
  {
    AssignedGenerationIsNewest(run, mode, i, j, t);
  }

  lemma IsFloorStep(s: State, s': State)
    requires Inv(s) && IsStep(s, s') && s.mode.Split?
    ensures s.floor <= s'.floor
  {
    var t :| Enabled(s, t) && s' == Next(s, t);
    StepFloor(s, t);
  }

  lemma StepFloor(s: State, t: Step)
    requires Enabled(s, t) && s.mode.Split?
    ensures Next(s, t).floor == if t.FlushStart? then s.nextGen else s.floor
  {
  }

  lemma {:induction false} FloorGrows(run: seq<State>, i: nat, j: nat)
    requires IsRun(run, Split) && i <= j < |run|
    ensures run[i].floor <= run[j].floor
  {
    if i < j {
      FloorGrows(run, i, j - 1);
      RunFloorStep(run, j);
    }
  }

  lemma RunFloorStep(run: seq<State>, j: nat)
    requires IsRun(run, Split) && 0 < j < |run|
    ensures run[j - 1].floor <= run[j].floor
  {
    var s, s' := run[j - 1], run[j];
    RunStep(run, Split, j, s, s');
    ModeFixed(run, Split, j - 1);
    IsFloorStep(s, s');
  }

  /** Everything a process has handed, or is handing, to its sink at s. */
  function Shipped(s: State): set<Sample> {
    AllHeld(s.disk) + set f, x | f in s.flushes && x in ChunkSamples(FlushChunks(s.flushes[f])) :: x
  }

  lemma ShippedBelowFloor(s: State)
    requires Inv(s) && s.mode.Split?
    ensures GensBelow(Shipped(s), s.floor)
  {
    forall x | x in Shipped(s) && x !in AllHeld(s.disk) ensures x.gen < s.floor {
      var f :| f in s.flushes && x in ChunkSamples(FlushChunks(s.flushes[f]));
    }
  }

  /** A split ingester's floor file is ahead, from then on, of every generation ever
      handed to the sink: sent, sent and refused, or shipped and removed since. */
  lemma FloorIsAhead(run: seq<State>, i: nat, j: nat)
    requires IsRun(run, Split) && i <= j < |run|
    ensures GensBelow(Shipped(run[i]), run[j].floor)
    ensures run[j].up ==> run[j].floor <= run[j].nextGen
  {
    RunInv(run, Split, i);
    RunInv(run, Split, j);
    ModeFixed(run, Split, i);
    ModeFixed(run, Split, j);
    ShippedBelowFloor(run[i]);
    FloorGrows(run, i, j);
  }

  /** So a generation the ingester assigns, after any restarts, is above every one it
      ever shipped and every one it ever held or replayed. */
  lemma GenerationsNeverReused(run: seq<State>, i: nat, j: nat, t: Step)
    requires IsRun(run, Split) && i <= j < |run| && t.ReserveOwn? && Enabled(run[j], t)
    ensures var gen := Next(run[j], t).pending.x.gen;
      GensBelow(Shipped(run[i]), gen) && (run[i].up ==> GensBelow(Visible(run[i]), gen))
  {
    FloorIsAhead(run, i, j);
    AssignedGenerationIsNewest(run, Split, i, j, t);
  }

  lemma {:induction false} ModeFixed(run: seq<State>, mode: Mode, j: nat)
    requires IsRun(run, mode) && j < |run|
    ensures run[j].mode == mode
  {
    if j > 0 {
      ModeFixed(run, mode, j - 1);
      assert StepsTo(run, j);
      IsStepHistory(run[j - 1], run[j]);
    }
  }

  // ---- drain ----

  /** An empty head means everything acknowledged is in registered blocks: what a
      drain that returned nil has established. */
  lemma EmptyHeadIsAllShipped(s: State)
    requires UpInv(s) && IsOldest(s.head, -1)
    ensures Slots(s.head) == {} && CoversAll(AllHeld(s.live), s.acked)
  {
    assert Slots(s.head) == {};
    assert Visible(s) == AllHeld(s.live);
  }
}
