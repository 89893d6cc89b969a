/** The write gate of a draining ingester, and what a finished drain guarantees. */
module Gates {
  import opened Samples
  import opened Head
  import opened Reclaim
  import Engine
  import EngineRuns

  /** Admits appends until closed. idleClosed says whether the idle channel has been
      closed; closes counts how often, since a second time would panic. */
  class Gate {
    var closed: bool
    var inflight: int
    var idleClosed: bool
    ghost var closes: nat

    ghost predicate Valid() reads this {
      inflight >= 0 && (idleClosed <==> closed && inflight == 0) && closes == (if idleClosed then 1 else 0)
    }

    constructor ()
      ensures Valid() && !closed && inflight == 0
    {
      closed, inflight, idleClosed, closes := false, 0, false, 0;
    }

    method Enter() returns (ok: bool)
      requires Valid()
      modifies this
      ensures Valid() && ok == !old(closed) && closed == old(closed)
      ensures inflight == old(inflight) + (if ok then 1 else 0)
    {
      if closed { return false; }
      inflight := inflight + 1;
      ok := true;
    }

    method Leave()
      requires Valid() && inflight > 0
      modifies this
      ensures Valid() && inflight == old(inflight) - 1 && closed == old(closed)
    {
      inflight := inflight - 1;
      if closed && inflight == 0 {
        assert !idleClosed;
        idleClosed, closes := true, closes + 1;
      }
    }

    /** Close's critical section; done says whether the wait that follows ends at once. */
    method StartClose() returns (done: bool)
      requires Valid()
      modifies this
      ensures Valid() && closed && inflight == old(inflight) && done == idleClosed
    {
      if !closed {
        closed := true;
        if inflight == 0 {
          assert !idleClosed;
          idleClosed, closes := true, closes + 1;
        }
      }
      done := idleClosed;
    }
  }

  // ---- the gate in front of the engine ----

  /** The gate's fields as a value. */
  datatype GateState = GateState(closed: bool, inflight: nat, closes: nat)

  datatype State = State(gate: GateState, engine: Engine.State)

  datatype Step = Enter | Leave | Close | Work(t: Engine.Step)

  /** An append runs between Enter and Leave; the one holding the append lock is one of
      those admitted. */
  ghost predicate Enabled(s: State, t: Step) {
    match t
    case Enter => !s.gate.closed
    case Leave => s.gate.inflight > (if s.engine.pending.Idle? then 0 else 1)
    case Close => true
    case Work(e) => Engine.Enabled(s.engine, e) && !e.Crash? && s.engine.up && (e.ReserveOwn? || e.ReserveStamped? ==> s.gate.inflight > 0)
  }

  ghost function Next(s: State, t: Step): State
    requires Enabled(s, t)
  {
    match t
    case Enter => s.(gate := s.gate.(inflight := s.gate.inflight + 1))
    case Leave =>
      var n := s.gate.inflight - 1;
      s.(gate := GateState(s.gate.closed, n, s.gate.closes + (if s.gate.closed && n == 0 then 1 else 0)))
    case Close =>
      s.(gate := GateState(true, s.gate.inflight, s.gate.closes + (if !s.gate.closed && s.gate.inflight == 0 then 1 else 0)))
    case Work(e) => s.(engine := Engine.Next(s.engine, e))
  }

  predicate Shut(g: GateState) { g.closed && g.inflight == 0 }

  ghost predicate Inv(s: State) {
    && s.engine.up && Engine.UpInv(s.engine)
    && s.gate.closes == (if Shut(s.gate) then 1 else 0)
    && (!s.engine.pending.Idle? ==> s.gate.inflight > 0)
  }

  lemma PendingStep(e: Engine.State, t: Engine.Step)
    requires Engine.Enabled(e, t) && e.up && e.pending.Idle? && !t.ReserveOwn? && !t.ReserveStamped?
    ensures Engine.Next(e, t).pending.Idle? && Engine.Next(e, t).acked == e.acked
  {
    EngineRuns.StepHistory(e, t);
  }

  /** Once shut, the gate stays shut, and no step acknowledges anything. */
  lemma ShutStays(s: State, t: Step)
    requires Inv(s) && Enabled(s, t) && Shut(s.gate)
    ensures Shut(Next(s, t).gate) && Next(s, t).engine.acked == s.engine.acked
  {
    if t.Work? { PendingStep(s.engine, t.t); }
  }

  lemma StepInv(s: State, t: Step)
    requires Inv(s) && Enabled(s, t)
    ensures Inv(Next(s, t))
  {
    if t.Work? {
      EngineRuns.StepHistory(s.engine, t.t);
      EngineRuns.StepInv(s.engine, t.t);
      if s.gate.inflight == 0 { PendingStep(s.engine, t.t); }
    }
  }

  ghost predicate IsStep(s: State, s': State) {
    exists t :: Enabled(s, t) && s' == Next(s, t)
  }

  ghost predicate StepsTo(run: seq<State>, i: int) {
    0 < i < |run| && IsStep(run[i - 1], run[i])
  }

  /** A process has just started: an open gate before an engine at rest, in a state
      some run of the engine, with any crashes before, has reached. */
  ghost predicate Starts(s: State) {
    s.gate == GateState(false, 0, 0) && s.engine.up && s.engine.pending.Idle? && Reachable(s.engine)
  }

  ghost predicate Reachable(e: Engine.State) {
    exists run: seq<Engine.State>, mode :: EngineRuns.IsRun(run, mode) && run[|run| - 1] == e
  }

  lemma StartInv(s: State)
    requires Starts(s)
    ensures Inv(s)
  {
    var run: seq<Engine.State>, mode :| EngineRuns.IsRun(run, mode) && run[|run| - 1] == s.engine;
    EngineRuns.RunInv(run, mode, |run| - 1);
  }

  /** A running process, from its start to some moment before its next crash. */
  ghost predicate IsRun(run: seq<State>) {
    && |run| > 0 && Starts(run[0])
    && forall i :: 0 < i < |run| ==> StepsTo(run, i)
  }

  lemma IsStepInv(s: State, s': State)
    requires Inv(s) && IsStep(s, s')
    ensures Inv(s')
    ensures Shut(s.gate) ==> Shut(s'.gate) && s'.engine.acked == s.engine.acked
  {
    var t :| Enabled(s, t) && s' == Next(s, t);
    StepInv(s, t);
    if Shut(s.gate) { ShutStays(s, t); }
  }

  lemma {:induction false} RunInv(run: seq<State>, i: nat)
    requires IsRun(run) && i < |run|
    ensures Inv(run[i])
  {
    if i == 0 {
      StartInv(run[0]);
    } else {
      RunInv(run, i - 1);
      assert StepsTo(run, i);
      IsStepInv(run[i - 1], run[i]);
    }
  }

  /** The idle channel is closed at most once, and exactly when the gate is shut. */
  lemma ClosedOnce(run: seq<State>, i: nat)
    requires IsRun(run) && i < |run|
    ensures run[i].gate.closes == (if Shut(run[i].gate) then 1 else 0)
  {
    RunInv(run, i);
  }

  /** After Close returned nil no append is in flight or admitted ever again. */
  lemma {:induction false} ShutForGood(run: seq<State>, i: nat, j: nat)
    requires IsRun(run) && i <= j < |run| && Shut(run[i].gate)
    ensures Shut(run[j].gate) && run[j].engine.pending.Idle? && run[j].engine.acked == run[i].engine.acked
  {
    if i == j {
      RunInv(run, j);
      ShutIsIdle(run[j]);
    } else {
      ShutForGood(run, i, j - 1);
      RunShutStep(run, j);
    }
  }

  lemma ShutIsIdle(s: State)
    requires Inv(s) && Shut(s.gate)
    ensures s.engine.pending.Idle?
  {
  }

  lemma RunShutStep(run: seq<State>, j: nat)
    requires IsRun(run) && 0 < j < |run| && Shut(run[j - 1].gate)
    ensures Shut(run[j].gate) && run[j].engine.pending.Idle? && run[j].engine.acked == run[j - 1].engine.acked
  {
    RunInv(run, j - 1);
    assert StepsTo(run, j);
    IsStepInv(run[j - 1], run[j]);
    ShutIsIdle(run[j]);
  }

  /** Drain completeness: once Close and then Drain have returned nil, whose last check
      is that the head holds no chunk, everything acknowledged before, then or at any
      later time is in the blocks the sink took. */
  lemma DrainIsComplete(run: seq<State>, i: nat, j: nat, k: nat)
    requires IsRun(run) && i <= j <= k < |run|
    requires Shut(run[i].gate) && IsOldest(run[j].engine.head, -1)
    ensures run[k].engine.acked == run[j].engine.acked
    ensures CoversAll(AllHeld(run[j].engine.live), run[k].engine.acked)
  {
    ShutForGood(run, i, j);
    ShutForGood(run, i, k);
    RunInv(run, j);
    EngineRuns.EmptyHeadIsAllShipped(run[j].engine);
  }
}
