/** The replicated deployment as a state machine: pushes reach ingesters one by one,
    a client is acknowledged at a write quorum, ingesters flush to stores one by one
    and drop only at a store quorum, anything may restart, and a query reads the
    ingesters and then the stores, skipping a few of each. The no-gap theorem: what
    was acknowledged before a query began is in its answer, or outranked there. */
module Replication {
  import opened Sets
  import opened Samples
  import opened Answers

  /** A majority of n replicas. */
  function Quorum(n: nat): nat { n / 2 + 1 }

  /** That many is exactly more than half, and one more than the rest exactly half. */
  lemma MajorityIff(n: nat, a: nat)
    ensures a >= Quorum(n) <==> 2 * a > n
    ensures a > n - Quorum(n) <==> 2 * a >= n
  {
  }

  /** Two majorities of the same replicas have one in common. */
  lemma MajoritiesMeet(all: set<nat>, a: set<nat>, b: set<nat>)
    requires a <= all && b <= all && 2 * |a| > |all| && 2 * |b| > |all|
    ensures exists i :: i in a && i in b
  {
    SubsetSize(a + b, all);
    assert |a * b| == |a| + |b| - |a + b|;
    var i :| i in a * b;
    assert i in a && i in b;
  }

  /** The two rings: who replicates each series a run writes. */
  datatype Cluster = Cluster(ingesters: set<nat>, stores: set<nat>, rf: nat, storeRf: nat,
                             headRing: map<nat, set<nat>>, storeRing: map<nat, set<nat>>)

  function HeadsOf(c: Cluster, id: nat): set<nat> { if id in c.headRing then c.headRing[id] else {} }

  function StoresOf(c: Cluster, id: nat): set<nat> { if id in c.storeRing then c.storeRing[id] else {} }

  ghost predicate ValidCluster(c: Cluster) {
    && c.rf > 0 && c.storeRf > 0
    && (forall id :: HeadsOf(c, id) <= c.ingesters)
    && (forall id :: StoresOf(c, id) <= c.stores)
  }

  /** A flush in progress: the batch it sends, and the stores that acknowledged. */
  datatype Flight = Flight(batch: set<Sample>, ok: set<nat>)

  datatype Phase = ReadingHeads | ReadingStores | Finished

  /** must is what was acknowledged before the query began, and by whom; seen is all
      that the sources read so far held when they were read. */
  datatype Query =
    | NoQuery
    | Query(p: Params, must: set<Sample>, ackedBy: map<Sample, set<nat>>, phase: Phase, read: set<nat>, seen: set<Sample>)

  datatype State = State(
    heads: map<nat, set<Sample>>, stores: map<nat, set<Sample>>, flights: map<nat, Flight>,
    pushed: set<Sample>, acks: map<Sample, set<nat>>, acked: set<Sample>, query: Query)

  datatype Step =
    | Push(x: Sample)                        // the gateway stamps and sends a sample
    | Land(i: nat, x: Sample, ack: bool)     // an ingester takes it; its answer may get lost
    | AckClient(x: Sample)                   // every key of the batch has its quorum
    | StartFlush(i: nat, batch: set<Sample>)
    | Deliver(i: nat, m: nat, ack: bool)     // a store registers its part
    | Drop(i: nat, dropped: set<Sample>)     // the flush met its quorum
    | FailFlush(i: nat)
    | Straggle(m: nat, late: set<Sample>)    // a queued body reaches a store later
    | Restart(i: nat, replayed: set<Sample>) // replay may bring dropped samples back
    | CompactStore(m: nat, after: set<Sample>)
    | BeginQuery(p: Params)
    | ReadHead(i: nat)
    | HeadsDone
    | ReadStore(m: nat)
    | StoresDone
    | EndQuery

  function Part(c: Cluster, batch: set<Sample>, m: nat): set<Sample> {
    set x | x in batch && m in StoresOf(c, x.series)
  }

  /** replicateFlush's decision: each key of the batch has W_s acknowledgements. */
  predicate FlushOk(c: Cluster, fl: Flight) {
    forall x :: x in fl.batch ==> |fl.ok * StoresOf(c, x.series)| >= Quorum(c.storeRf)
  }

  ghost predicate Init(c: Cluster, s: State) {
    && s.heads == (map i | i in c.ingesters :: {})
    && s.stores == (map m | m in c.stores :: {})
    && s.flights == map[] && s.pushed == {} && s.acks == map[] && s.acked == {} && s.query.NoQuery?
  }

  function AcksOf(acks: map<Sample, set<nat>>, x: Sample): set<nat> {
    if x in acks then acks[x] else {}
  }

  predicate In(s: State, phase: Phase) {
    s.query.Query? && s.query.phase == phase
  }

  ghost predicate Enabled(c: Cluster, s: State, t: Step) {
    match t
    case Push(x) => true
    case Land(i, x, ack) => i in s.heads && x in s.pushed && i in HeadsOf(c, x.series)
    case AckClient(x) => |AcksOf(s.acks, x)| >= Quorum(c.rf)
    case StartFlush(i, batch) => i in s.heads && i !in s.flights && batch <= s.heads[i]
    case Deliver(i, m, ack) => i in s.flights && m in s.stores
    case Drop(i, dropped) => i in s.flights && i in s.heads && FlushOk(c, s.flights[i]) && dropped <= s.flights[i].batch
    case FailFlush(i) => i in s.flights
    case Straggle(m, late) => m in s.stores && late <= s.pushed
    case Restart(i, replayed) => i in s.heads && s.heads[i] <= replayed <= s.pushed
    case CompactStore(m, after) => m in s.stores && View(after) == View(s.stores[m]) && after <= s.stores[m]
    case BeginQuery(p) => s.query.NoQuery?
    case ReadHead(i) => In(s, ReadingHeads) && i in s.heads
    case HeadsDone => In(s, ReadingHeads) && |c.ingesters - s.query.read| <= Quorum(c.rf) - 1
    case ReadStore(m) => In(s, ReadingStores) && m in s.stores
    case StoresDone => In(s, ReadingStores) && |c.stores - s.query.read| <= Quorum(c.storeRf) - 1
    case EndQuery => In(s, Finished)
  }

  ghost function Next(c: Cluster, s: State, t: Step): State
    requires Enabled(c, s, t)
  {
    match t
    case Push(x) => s.(pushed := s.pushed + {x})
    case Land(i, x, ack) =>
      s.(heads := s.heads[i := s.heads[i] + {x}], acks := if ack then s.acks[x := AcksOf(s.acks, x) + {i}] else s.acks)
    case AckClient(x) => s.(acked := s.acked + {x})
    case StartFlush(i, batch) => s.(flights := s.flights[i := Flight(batch, {})])
    case Deliver(i, m, ack) =>
      var fl := s.flights[i];
      s.(stores := s.stores[m := s.stores[m] + Part(c, fl.batch, m)],
         flights := s.flights[i := if ack then fl.(ok := fl.ok + {m}) else fl])
    case Drop(i, dropped) => s.(heads := s.heads[i := s.heads[i] - dropped], flights := s.flights - {i})
    case FailFlush(i) => s.(flights := s.flights - {i})
    case Straggle(m, late) => s.(stores := s.stores[m := s.stores[m] + late])
    case Restart(i, replayed) => s.(heads := s.heads[i := replayed], flights := s.flights - {i})
    case CompactStore(m, after) => s.(stores := s.stores[m := after])
    case BeginQuery(p) => s.(query := Query(p, s.acked, s.acks, ReadingHeads, {}, {}))
    case ReadHead(i) => s.(query := s.query.(read := s.query.read + {i}, seen := s.query.seen + s.heads[i]))
    case HeadsDone => s.(query := s.query.(phase := ReadingStores, read := {}))
    case ReadStore(m) => s.(query := s.query.(read := s.query.read + {m}, seen := s.query.seen + s.stores[m]))
    case StoresDone => s.(query := s.query.(phase := Finished))
    case EndQuery => s.(query := NoQuery)
  }

  // ---- the invariant ----

  /** W_s of x's stores hold x or something that outranks it. */
  ghost predicate OnStores(c: Cluster, stores: map<nat, set<Sample>>, Q: set<nat>, x: Sample) {
    && Q <= StoresOf(c, x.series) && |Q| >= Quorum(c.storeRf)
    && forall m :: m in Q ==> m in stores && Covers(stores[m], x)
  }

  ghost predicate Stored(c: Cluster, stores: map<nat, set<Sample>>, x: Sample) {
    exists Q :: OnStores(c, stores, Q, x)
  }

  /** A replica that acknowledged x still has it, unless the stores do. */
  ghost predicate Kept(c: Cluster, heads: map<nat, set<Sample>>, stores: map<nat, set<Sample>>, i: nat, x: Sample) {
    (i in heads && x in heads[i]) || Stored(c, stores, x)
  }

  ghost predicate AcksOk(c: Cluster, s: State) {
    && (forall x, i :: x in s.acks && i in s.acks[x] ==> i in c.ingesters && Kept(c, s.heads, s.stores, i, x))
    && (forall x :: x in s.acked ==> |AcksOf(s.acks, x)| >= Quorum(c.rf))
  }

  ghost predicate FlightOk(c: Cluster, stores: map<nat, set<Sample>>, fl: Flight) {
    forall m, x :: m in fl.ok && x in fl.batch && m in StoresOf(c, x.series) ==> m in stores && Covers(stores[m], x)
  }

  ghost predicate FlightsOk(c: Cluster, s: State) {
    forall i :: i in s.flights ==> FlightOk(c, s.stores, s.flights[i]) && s.flights[i].batch <= s.pushed
  }

  ghost predicate OnlyPushed(s: State) {
    && (forall i :: i in s.heads ==> s.heads[i] <= s.pushed)
    && (forall m :: m in s.stores ==> s.stores[m] <= s.pushed)
    && (s.query.Query? ==> s.query.seen <= s.pushed)
  }

  /** Found, or still waiting at a store quorum none of whose members was read. */
  ghost predicate Pending(c: Cluster, stores: map<nat, set<Sample>>, read: set<nat>, x: Sample) {
    exists Q :: OnStores(c, stores, Q, x) && Q !! read
  }

  ghost predicate MustOk(c: Cluster, heads: map<nat, set<Sample>>, stores: map<nat, set<Sample>>, q: Query, x: Sample)
    requires q.Query?
  {
    match q.phase
    case ReadingHeads =>
      x in q.ackedBy && |q.ackedBy[x]| >= Quorum(c.rf) && q.ackedBy[x] <= c.ingesters
      && forall i :: i in q.ackedBy[x] ==> if i in q.read then Covers(q.seen, x) || Stored(c, stores, x) else Kept(c, heads, stores, i, x)
    case ReadingStores => Covers(q.seen, x) || Pending(c, stores, q.read, x)
    case Finished => Covers(q.seen, x)
  }

  ghost predicate QueryOk(c: Cluster, s: State) {
    s.query.Query? ==> forall x :: x in s.query.must ==> MustOk(c, s.heads, s.stores, s.query, x)
  }

  ghost predicate Inv(c: Cluster, s: State) {
    && s.heads.Keys == c.ingesters && s.stores.Keys == c.stores
    && AcksOk(c, s) && FlightsOk(c, s) && OnlyPushed(s) && QueryOk(c, s)
  }

  lemma InitInv(c: Cluster, s: State)
    requires Init(c, s)
    ensures Inv(c, s)
  {
  }

  // ---- stores only gain ----

  ghost predicate StoresGain(before: map<nat, set<Sample>>, after: map<nat, set<Sample>>) {
    before.Keys == after.Keys && forall m :: m in before ==> CoversAll(after[m], before[m])
  }

  lemma OnStoresGain(c: Cluster, before: map<nat, set<Sample>>, after: map<nat, set<Sample>>, Q: set<nat>, x: Sample)
    requires StoresGain(before, after) && OnStores(c, before, Q, x)
    ensures OnStores(c, after, Q, x)
  {
    forall m | m in Q ensures m in after && Covers(after[m], x) {
      CoversOne(after[m], before[m], x);
    }
  }

  /** Steps that only enlarge what stores hold keep every obligation. */
  lemma StoreStepInv(c: Cluster, s: State, s': State)
    requires Inv(c, s) && StoresGain(s.stores, s'.stores)
    requires s' == s.(stores := s'.stores)
    requires forall m :: m in s'.stores ==> s'.stores[m] <= s.pushed
    ensures Inv(c, s')
  {
    forall x | Stored(c, s.stores, x) ensures Stored(c, s'.stores, x) {
      var Q :| OnStores(c, s.stores, Q, x);
      OnStoresGain(c, s.stores, s'.stores, Q, x);
    }
    forall x | s.query.Query? && Pending(c, s.stores, s.query.read, x) ensures Pending(c, s'.stores, s'.query.read, x) {
      var Q :| OnStores(c, s.stores, Q, x) && Q !! s.query.read;
      OnStoresGain(c, s.stores, s'.stores, Q, x);
    }
    forall i | i in s.flights ensures FlightOk(c, s'.stores, s.flights[i]) {
      assert FlightOk(c, s.stores, s.flights[i]);
      FlightGains(c, s, s', s.flights[i]);
    }
    assert AcksOk(c, s') by {
      forall x, i | x in s.acks && i in s.acks[x] ensures Kept(c, s'.heads, s'.stores, i, x) { assert Kept(c, s.heads, s.stores, i, x); }
    }
    assert QueryOk(c, s') by {
      if s.query.Query? {
        forall x | x in s.query.must ensures MustOk(c, s'.heads, s'.stores, s'.query, x) { assert MustOk(c, s.heads, s.stores, s.query, x); }
      }
    }
  }

  lemma FlightGains(c: Cluster, s: State, s': State, fl: Flight)
    requires FlightOk(c, s.stores, fl) && StoresGain(s.stores, s'.stores)
    ensures FlightOk(c, s'.stores, fl)
  {
    forall m, x | m in fl.ok && x in fl.batch && m in StoresOf(c, x.series) ensures m in s'.stores && Covers(s'.stores[m], x) {
      CoversOne(s'.stores[m], s.stores[m], x);
    }
  }

  lemma GrowStore(c: Cluster, s: State, m: nat, more: set<Sample>)
    requires Inv(c, s) && m in s.stores && more <= s.pushed
    ensures Inv(c, s.(stores := s.stores[m := s.stores[m] + more]))
  {
    var s' := s.(stores := s.stores[m := s.stores[m] + more]);
    forall n | n in s.stores ensures CoversAll(s'.stores[n], s.stores[n]) { CoversSelf(s'.stores[n], s.stores[n]); }
    StoreStepInv(c, s, s');
  }

  lemma CompactInv(c: Cluster, s: State, m: nat, after: set<Sample>)
    requires Inv(c, s) && Enabled(c, s, CompactStore(m, after))
    ensures Inv(c, Next(c, s, CompactStore(m, after)))
  {
    var s' := Next(c, s, CompactStore(m, after));
    SameViewIff(after, s.stores[m]);
    forall n | n in s.stores ensures CoversAll(s'.stores[n], s.stores[n]) {
      if n != m { CoversSelf(s'.stores[n], s.stores[n]); }
    }
    StoreStepInv(c, s, s');
  }

  // ---- pushes, flushes, restarts ----

  /** Steps that keep the stores, every acknowledged replica and the query. */
  lemma HeadStepInv(c: Cluster, s: State, s': State)
    requires Inv(c, s) && s'.stores == s.stores && s'.query == s.query && s'.heads.Keys == s.heads.Keys
    requires s.pushed <= s'.pushed && (forall i :: i in s'.heads ==> s'.heads[i] <= s'.pushed)
    requires FlightsOk(c, s')
    requires forall i, x :: i in s.heads && x in s.heads[i] ==> x in s'.heads[i] || Stored(c, s.stores, x)
    requires forall x, i :: x in s'.acks && i in s'.acks[x] ==> i in AcksOf(s.acks, x) || (i in c.ingesters && x in s'.heads[i])
    requires forall x :: x in s'.acked ==> |AcksOf(s'.acks, x)| >= Quorum(c.rf)
    ensures Inv(c, s')
  {
    forall i, x | Kept(c, s.heads, s.stores, i, x) ensures Kept(c, s'.heads, s'.stores, i, x) {
    }
    assert QueryOk(c, s') by {
      if s.query.Query? {
        forall x | x in s.query.must ensures MustOk(c, s'.heads, s'.stores, s'.query, x) {
          assert MustOk(c, s.heads, s.stores, s.query, x);
        }
      }
    }
  }

  lemma SameFlight(c: Cluster, s: State, s': State)
    requires FlightsOk(c, s) && s'.stores == s.stores && s.pushed <= s'.pushed
    requires forall i :: i in s'.flights ==> i in s.flights && s'.flights[i] == s.flights[i]
    ensures FlightsOk(c, s')
  {
    forall i | i in s'.flights ensures FlightOk(c, s'.stores, s'.flights[i]) {
      assert FlightOk(c, s.stores, s.flights[i]);
    }
  }

  lemma AcksGrow(s: State, s': State, i: nat, x: Sample)
    requires s'.acks == s.acks[x := AcksOf(s.acks, x) + {i}]
    ensures forall y :: |AcksOf(s'.acks, y)| >= |AcksOf(s.acks, y)|
  {
    forall y ensures |AcksOf(s'.acks, y)| >= |AcksOf(s.acks, y)| {
      if y == x {
        assert AcksOf(s'.acks, x) == AcksOf(s.acks, x) + {i};
        assert i in AcksOf(s.acks, x) ==> AcksOf(s'.acks, x) == AcksOf(s.acks, x);
      } else {
        assert AcksOf(s'.acks, y) == AcksOf(s.acks, y);
      }
    }
  }

  lemma LandInv(c: Cluster, s: State, i: nat, x: Sample, ack: bool)
    requires Inv(c, s) && Enabled(c, s, Land(i, x, ack))
    ensures Inv(c, Next(c, s, Land(i, x, ack)))
  {
    var s' := Next(c, s, Land(i, x, ack));
    SameFlight(c, s, s');
    if ack { AcksGrow(s, s', i, x); }
    assert forall y :: y in s'.acked ==> |AcksOf(s.acks, y)| >= Quorum(c.rf);
    HeadStepInv(c, s, s');
  }

  lemma FlownIsStored(c: Cluster, s: State, fl: Flight, x: Sample)
    requires FlightOk(c, s.stores, fl) && FlushOk(c, fl) && x in fl.batch
    ensures Stored(c, s.stores, x)
  {
    assert OnStores(c, s.stores, fl.ok * StoresOf(c, x.series), x);
  }

  /** What a drop removes is on a store quorum: the batch met it. */
  lemma DropInv(c: Cluster, s: State, i: nat, dropped: set<Sample>)
    requires Inv(c, s) && Enabled(c, s, Drop(i, dropped))
    ensures Inv(c, Next(c, s, Drop(i, dropped)))
  {
    var s' := Next(c, s, Drop(i, dropped));
    var fl := s.flights[i];
    assert FlightOk(c, s.stores, fl);
    forall x | x in dropped ensures Stored(c, s.stores, x) { FlownIsStored(c, s, fl, x); }
    SameFlight(c, s, s');
    HeadStepInv(c, s, s');
  }

  /** Only the flights changed. */
  lemma FlightStepInv(c: Cluster, s: State, s': State)
    requires Inv(c, s) && s' == s.(flights := s'.flights) && FlightsOk(c, s')
    ensures Inv(c, s')
  {
  }

  /** One flight replaced by another that is in order. */
  lemma OneFlight(c: Cluster, s: State, i: nat, fl: Flight)
    requires FlightsOk(c, s) && FlightOk(c, s.stores, fl) && fl.batch <= s.pushed
    ensures FlightsOk(c, s.(flights := s.flights[i := fl]))
  {
    var s' := s.(flights := s.flights[i := fl]);
    forall k | k in s'.flights ensures FlightOk(c, s'.stores, s'.flights[k]) {
      if k != i { assert FlightOk(c, s.stores, s.flights[k]); }
    }
  }

  lemma StartFlushInv(c: Cluster, s: State, i: nat, batch: set<Sample>)
    requires Inv(c, s) && Enabled(c, s, StartFlush(i, batch))
    ensures Inv(c, Next(c, s, StartFlush(i, batch)))
  {
    var fl := Flight(batch, {});
    OneFlight(c, s, i, fl);
    FlightStepInv(c, s, s.(flights := s.flights[i := fl]));
  }

  lemma PushInv(c: Cluster, s: State, x: Sample)
    requires Inv(c, s)
    ensures Inv(c, Next(c, s, Push(x)))
  {
    var s' := s.(pushed := s.pushed + {x});
    SameFlight(c, s, s');
    HeadStepInv(c, s, s');
  }

  lemma AckInv(c: Cluster, s: State, x: Sample)
    requires Inv(c, s) && Enabled(c, s, AckClient(x))
    ensures Inv(c, Next(c, s, AckClient(x)))
  {
    var s' := Next(c, s, AckClient(x));
    SameFlight(c, s, s');
    assert forall y :: y in s'.acked ==> |AcksOf(s.acks, y)| >= Quorum(c.rf);
    HeadStepInv(c, s, s');
  }

  lemma FailFlushInv(c: Cluster, s: State, i: nat)
    requires Inv(c, s) && Enabled(c, s, FailFlush(i))
    ensures Inv(c, Next(c, s, FailFlush(i)))
  {
    var s' := s.(flights := s.flights - {i});
    SameFlight(c, s, s');
    FlightStepInv(c, s, s');
  }

  lemma RestartInv(c: Cluster, s: State, i: nat, replayed: set<Sample>)
    requires Inv(c, s) && Enabled(c, s, Restart(i, replayed))
    ensures Inv(c, Next(c, s, Restart(i, replayed)))
  {
    var s' := s.(heads := s.heads[i := replayed], flights := s.flights - {i});
    assert s' == Next(c, s, Restart(i, replayed));
    forall k | k in s.heads ensures s.heads[k] <= s'.heads[k] <= s.pushed { }
    HeadsGainInv(c, s, s');
  }

  /** Heads only gained, and flights were only abandoned. */
  lemma HeadsGainInv(c: Cluster, s: State, s': State)
    requires Inv(c, s) && s' == s.(heads := s'.heads, flights := s'.flights) && s'.heads.Keys == s.heads.Keys
    requires forall i :: i in s.heads ==> s.heads[i] <= s'.heads[i] <= s.pushed
    requires forall i :: i in s'.flights ==> i in s.flights && s'.flights[i] == s.flights[i]
    ensures Inv(c, s')
  {
    SameFlight(c, s, s');
    HeadStepInv(c, s, s');
  }

  lemma DeliveredOk(c: Cluster, s: State, fl: Flight, m: nat)
    requires FlightOk(c, s.stores, fl) && m in s.stores && Part(c, fl.batch, m) <= s.stores[m]
    ensures FlightOk(c, s.stores, fl.(ok := fl.ok + {m}))
  {
    forall x | x in fl.batch && m in StoresOf(c, x.series) ensures Covers(s.stores[m], x) {
      assert x in Part(c, fl.batch, m) && AtLeast(x, x);
    }
  }

  lemma DeliverInv(c: Cluster, s: State, i: nat, m: nat, ack: bool)
    requires Inv(c, s) && Enabled(c, s, Deliver(i, m, ack))
    ensures Inv(c, Next(c, s, Deliver(i, m, ack)))
  {
    var fl := s.flights[i];
    var mid := s.(stores := s.stores[m := s.stores[m] + Part(c, fl.batch, m)]);
    GrowStore(c, s, m, Part(c, fl.batch, m));
    AckFlight(c, mid, i, m, ack);
  }

  lemma AckFlight(c: Cluster, s: State, i: nat, m: nat, ack: bool)
    requires Inv(c, s) && i in s.flights && m in s.stores && Part(c, s.flights[i].batch, m) <= s.stores[m]
    ensures Inv(c, s.(flights := s.flights[i := if ack then s.flights[i].(ok := s.flights[i].ok + {m}) else s.flights[i]]))
  {
    var fl := s.flights[i];
    DeliveredOk(c, s, fl, m);
    var fl' := if ack then fl.(ok := fl.ok + {m}) else fl;
    OneFlight(c, s, i, fl');
    FlightStepInv(c, s, s.(flights := s.flights[i := fl']));
  }

  // ---- the query ----

  lemma CoversMore(S: set<Sample>, T: set<Sample>, x: Sample)
    requires Covers(S, x)
    ensures Covers(S + T, x) && Covers(T + S, x)
  {
    var y :| y in S && AtLeast(y, x);
    assert y in S + T && y in T + S;
  }

  lemma BeginInv(c: Cluster, s: State, p: Params)
    requires ValidCluster(c) && Inv(c, s) && Enabled(c, s, BeginQuery(p))
    ensures Inv(c, Next(c, s, BeginQuery(p)))
  {
    var q := Query(p, s.acked, s.acks, ReadingHeads, {}, {});
    forall x | x in s.acked ensures MustOk(c, s.heads, s.stores, q, x) { AckedOk(c, s, x, q); }
    QueryStepInv(c, s, s.(query := q));
  }

  /** At the start nothing was read, and every acknowledging replica keeps its word. */
  lemma AckedOk(c: Cluster, s: State, x: Sample, q: Query)
    requires AcksOk(c, s) && x in s.acked && q.Query? && q.phase == ReadingHeads && q.ackedBy == s.acks && q.read == {}
    ensures MustOk(c, s.heads, s.stores, q, x)
  {
    assert x in s.acks;
    forall i | i in s.acks[x] ensures i in c.ingesters && Kept(c, s.heads, s.stores, i, x) {
    }
  }

  /** Only the query changed; its obligations are the argument. */
  lemma QueryStepInv(c: Cluster, s: State, s': State)
    requires Inv(c, s) && s' == s.(query := s'.query)
    requires s'.query.Query? ==> s'.query.seen <= s.pushed
    requires QueryOk(c, s')
    ensures Inv(c, s')
  {
    forall x, i | x in s.acks && i in s.acks[x] ensures Kept(c, s'.heads, s'.stores, i, x) { assert Kept(c, s.heads, s.stores, i, x); }
    forall i | i in s.flights ensures FlightOk(c, s'.stores, s.flights[i]) { assert FlightOk(c, s.stores, s.flights[i]); }
  }

  lemma ReadHeadInv(c: Cluster, s: State, i: nat)
    requires Inv(c, s) && Enabled(c, s, ReadHead(i))
    ensures Inv(c, Next(c, s, ReadHead(i)))
  {
    var s' := Next(c, s, ReadHead(i));
    var q := s.query;
    forall x | x in q.must ensures MustOk(c, s'.heads, s'.stores, s'.query, x) {
      assert MustOk(c, s.heads, s.stores, s.query, x);
      if Covers(q.seen, x) { CoversMore(q.seen, s.heads[i], x); }
      if x in s.heads[i] {
        assert AtLeast(x, x);
        CoversMore(s.heads[i], q.seen, x);
      }
      forall k | k in q.ackedBy[x] && k !in s'.query.read ensures Kept(c, s'.heads, s'.stores, k, x) { assert Kept(c, s.heads, s.stores, k, x); }
      assert i in q.ackedBy[x] && i !in q.read ==> Kept(c, s.heads, s.stores, i, x);
    }
    QueryStepInv(c, s, s');
  }

  /** At least one acknowledging replica is not among W-1 skipped ones. */
  lemma SomeReplicaRead(all: set<nat>, ackers: set<nat>, read: set<nat>, w: nat)
    requires ackers <= all && |ackers| >= w && |all - read| <= w - 1
    ensures exists i :: i in ackers && i in read
  {
    if ackers !! read {
      assert ackers <= all - read;
      SubsetSize(ackers, all - read);
    } else {
      var i :| i in ackers && i in read;
    }
  }

  lemma HeadsDoneInv(c: Cluster, s: State)
    requires Inv(c, s) && Enabled(c, s, HeadsDone)
    ensures Inv(c, Next(c, s, HeadsDone))
  {
    var s' := Next(c, s, HeadsDone);
    var q := s.query;
    forall x | x in q.must ensures MustOk(c, s'.heads, s'.stores, s'.query, x) {
      assert MustOk(c, s.heads, s.stores, s.query, x);
      SomeReplicaRead(c.ingesters, q.ackedBy[x], q.read, Quorum(c.rf));
      var i :| i in q.ackedBy[x] && i in q.read;
      if !Covers(q.seen, x) {
        var Q :| OnStores(c, s.stores, Q, x);
        assert Pending(c, s'.stores, s'.query.read, x);
      }
    }
    QueryStepInv(c, s, s');
  }

  lemma ReadStoreInv(c: Cluster, s: State, m: nat)
    requires Inv(c, s) && Enabled(c, s, ReadStore(m))
    ensures Inv(c, Next(c, s, ReadStore(m)))
  {
    var s' := Next(c, s, ReadStore(m));
    var q := s.query;
    forall x | x in q.must ensures MustOk(c, s'.heads, s'.stores, s'.query, x) {
      assert MustOk(c, s.heads, s.stores, s.query, x);
      if Covers(q.seen, x) {
        CoversMore(q.seen, s.stores[m], x);
      } else {
        var Q :| OnStores(c, s.stores, Q, x) && Q !! q.read;
        if m in Q {
          CoversMore(s.stores[m], q.seen, x);
        } else {
          assert OnStores(c, s'.stores, Q, x) && Q !! s'.query.read;
        }
      }
    }
    QueryStepInv(c, s, s');
  }

  lemma StoresDoneInv(c: Cluster, s: State)
    requires ValidCluster(c) && Inv(c, s) && Enabled(c, s, StoresDone)
    ensures Inv(c, Next(c, s, StoresDone))
  {
    var s' := Next(c, s, StoresDone);
    var q := s.query;
    forall x | x in q.must ensures MustOk(c, s'.heads, s'.stores, s'.query, x) {
      assert MustOk(c, s.heads, s.stores, s.query, x);
      AllStoresRead(c, s.stores, q.read, q.seen, x);
    }
    QueryStepInv(c, s, s');
  }

  /** A store quorum cannot have been skipped whole. */
  lemma AllStoresRead(c: Cluster, stores: map<nat, set<Sample>>, read: set<nat>, seen: set<Sample>, x: Sample)
    requires ValidCluster(c) && |c.stores - read| <= Quorum(c.storeRf) - 1
    requires Covers(seen, x) || Pending(c, stores, read, x)
    ensures Covers(seen, x)
  {
    if Pending(c, stores, read, x) {
      var Q :| OnStores(c, stores, Q, x) && Q !! read;
      SomeReplicaRead(c.stores, Q, read, Quorum(c.storeRf));
    }
  }

  /** Every step of the cluster keeps the invariant. */
  lemma StepInv(c: Cluster, s: State, t: Step)
    requires ValidCluster(c) && Inv(c, s) && Enabled(c, s, t)
    ensures Inv(c, Next(c, s, t))
  {
    match t
    case Land(i, x, ack) => LandInv(c, s, i, x, ack);
    case StartFlush(i, batch) => StartFlushInv(c, s, i, batch);
    case Deliver(i, m, ack) => DeliverInv(c, s, i, m, ack);
    case Drop(i, dropped) => DropInv(c, s, i, dropped);
    case Straggle(m, late) => GrowStore(c, s, m, late);
    case CompactStore(m, after) => CompactInv(c, s, m, after);
    case BeginQuery(p) => BeginInv(c, s, p);
    case ReadHead(i) => ReadHeadInv(c, s, i);
    case HeadsDone => HeadsDoneInv(c, s);
    case ReadStore(m) => ReadStoreInv(c, s, m);
    case StoresDone => StoresDoneInv(c, s);
    case EndQuery => QueryStepInv(c, s, Next(c, s, t));
    case Push(x) => PushInv(c, s, x);
    case AckClient(x) => AckInv(c, s, x);
    case FailFlush(i) => FailFlushInv(c, s, i);
    case Restart(i, replayed) => RestartInv(c, s, i, replayed);
  }

  // ---- runs ----

  ghost predicate IsStep(c: Cluster, s: State, s': State) {
    exists t :: Enabled(c, s, t) && s' == Next(c, s, t)
  }

  ghost predicate StepsTo(c: Cluster, run: seq<State>, i: int) {
    0 < i < |run| && IsStep(c, run[i - 1], run[i])
  }

  ghost predicate IsRun(c: Cluster, run: seq<State>) {
    && |run| > 0 && Init(c, run[0])
    && forall i :: 0 < i < |run| ==> StepsTo(c, run, i)
  }

  lemma IsStepInv(c: Cluster, s: State, s': State)
    requires ValidCluster(c) && Inv(c, s) && IsStep(c, s, s')
    ensures Inv(c, s')
  {
    var t :| Enabled(c, s, t) && s' == Next(c, s, t);
    StepInv(c, s, t);
  }

  lemma {:induction false} RunInv(c: Cluster, run: seq<State>, i: nat)
    requires ValidCluster(c) && IsRun(c, run) && i < |run|
    ensures Inv(c, run[i])
  {
    if i == 0 {
      InitInv(c, run[0]);
    } else {
      RunInv(c, run, i - 1);
      assert StepsTo(c, run, i);
      IsStepInv(c, run[i - 1], run[i]);
    }
  }

  lemma IsStepKeepsQuestion(c: Cluster, s: State, s': State)
    requires IsStep(c, s, s') && s.query.Query? && s'.query.Query?
    ensures s'.query.must == s.query.must && s'.query.p == s.query.p
  {
    var t :| Enabled(c, s, t) && s' == Next(c, s, t);
    StepKeepsQuestion(c, s, t);
  }

  lemma StepKeepsQuestion(c: Cluster, s: State, t: Step)
    requires Enabled(c, s, t) && s.query.Query? && Next(c, s, t).query.Query?
    ensures Next(c, s, t).query.must == s.query.must && Next(c, s, t).query.p == s.query.p
  {
  }

  /** Between a query's begin and its answer its question stays the same. */
  lemma {:induction false} SameQuestion(c: Cluster, run: seq<State>, b: nat, e: nat)
    requires IsRun(c, run) && b <= e < |run|
    requires In(run[b], ReadingHeads) && run[b].query.must == run[b].acked
    requires forall k :: b <= k <= e ==> run[k].query.Query?
    ensures run[e].query.must == run[b].query.must && run[e].query.p == run[b].query.p
  {
    if b < e {
      SameQuestion(c, run, b, e - 1);
      assert StepsTo(c, run, e);
      IsStepKeepsQuestion(c, run[e - 1], run[e]);
    }
  }

  lemma BeginsWithAcked(c: Cluster, s: State, s': State)
    requires IsStep(c, s, s') && s.query.NoQuery? && In(s', ReadingHeads)
    ensures s'.query.must == s'.acked
  {
  }

  lemma FinishedCovers(c: Cluster, s: State)
    requires Inv(c, s) && In(s, Finished)
    ensures CoversAll(s.query.seen, s.query.must) && s.query.seen <= s.pushed
  {
    forall x | x in s.query.must ensures Covers(s.query.seen, x) {
      assert MustOk(c, s.heads, s.stores, s.query, x);
    }
  }

  /** Entry i of an answer answers for x: with x or one that outranks it among its
      samples when x is in range, and with an anchor no earlier than x when x is before. */
  predicate AnswersFor(out: seq<SeriesData>, i: nat, x: Sample, p: Params) {
    && i < |out| && out[i].series == x.series
    && (p.InRange(x.ts) ==> Covers(SetOf(out[i].answer.samples), x))
    && (p.Wants() && x.ts < p.minT ==> out[i].answer.anchor.Some? && !Later(x, out[i].answer.anchor.value))
  }

  predicate Asked(x: Sample, p: Params) { p.InRange(x.ts) || (p.Wants() && x.ts < p.minT) }

  lemma OneSeriesAnswer(a: Answer, S: set<Sample>, x: Sample, p: Params)
    requires IsAnswer(a, S, p) && Covers(S, x)
    ensures p.InRange(x.ts) ==> Covers(SetOf(a.samples), x)
    ensures p.Wants() && x.ts < p.minT ==> a.anchor.Some? && !Later(x, a.anchor.value)
  {
    var y :| y in S && AtLeast(y, x);
    if p.InRange(x.ts) {
      ViewCovers(InRange(S, p), y);
      var w :| w in View(InRange(S, p)) && AtLeast(w, y);
      assert AtLeast(w, x);
    }
  }

  lemma CoveredIsAnswered(out: seq<SeriesData>, S: set<Sample>, p: Params, x: Sample)
    requires Represents(out, S, p) && Covers(S, x) && Asked(x, p)
    ensures exists i :: AnswersFor(out, i, x, p)
  {
    var y :| y in S && AtLeast(y, x);
    var mine := OfSeries(S, x.series);
    assert y in mine;
    if i :| 0 <= i < |out| && out[i].series == x.series {
      OneSeriesAnswer(out[i].answer, mine, x, p);
      assert AnswersFor(out, i, x, p);
    } else {
      assert y.series == x.series;
      UnlistedIsEmpty(out, S, p, x.series);
      OneSeriesAnswer(EMPTY, mine, x, p);
      assert false;
    }
  }

  lemma AnswerIsHeld(out: seq<SeriesData>, S: set<Sample>, p: Params, i: nat)
    requires Represents(out, S, p) && i < |out|
    ensures SetOf(out[i].answer.samples) <= S && (out[i].answer.anchor.Some? ==> out[i].answer.anchor.value in S)
  {
  }

  /** The no-gap theorem. In every interleaving, a query that began at b and was
      answered at e, by whatever answers over what its sources held, gives for each
      sample acknowledged before it began that sample or one that outranks it, and an
      anchor no earlier than any acknowledged one; and only samples somebody pushed. */
  lemma NoGap(c: Cluster, run: seq<State>, b: nat, e: nat, out: seq<SeriesData>)
    requires ValidCluster(c) && IsRun(c, run) && 0 < b <= e < |run|
    requires run[b - 1].query.NoQuery? && In(run[b], ReadingHeads)
    requires (forall k :: b <= k <= e ==> run[k].query.Query?) && In(run[e], Finished)
    requires Represents(out, run[e].query.seen, run[e].query.p)
    ensures forall x :: x in run[b].acked && Asked(x, run[b].query.p) ==> exists i :: AnswersFor(out, i, x, run[b].query.p)
    ensures forall i :: 0 <= i < |out| ==> SetOf(out[i].answer.samples) <= run[e].pushed
    ensures forall i :: 0 <= i < |out| && out[i].answer.anchor.Some? ==> out[i].answer.anchor.value in run[e].pushed
  {
    RunInv(c, run, e);
    assert StepsTo(c, run, b);
    BeginsWithAcked(c, run[b - 1], run[b]);
    SameQuestion(c, run, b, e);
    FinishedCovers(c, run[e]);
    var seen, p := run[e].query.seen, run[b].query.p;
    forall x | x in run[b].acked && Asked(x, p) ensures exists i :: AnswersFor(out, i, x, p) {
      assert Covers(seen, x);
      CoveredIsAnswered(out, seen, p, x);
    }
    forall i | 0 <= i < |out|
      ensures SetOf(out[i].answer.samples) <= run[e].pushed && (out[i].answer.anchor.Some? ==> out[i].answer.anchor.value in run[e].pushed)
    {
      AnswerIsHeld(out, seen, p, i);
    }
  }

  /** At every instant, what a client was told is stored is on a store quorum or in
      the memory or log of every replica that acknowledged it, W of them. */
  lemma AckedIsReplicated(c: Cluster, run: seq<State>, j: nat, x: Sample)
    requires ValidCluster(c) && IsRun(c, run) && j < |run| && x in run[j].acked
    ensures 2 * |AcksOf(run[j].acks, x)| > c.rf
    ensures Stored(c, run[j].stores, x) || forall i :: i in AcksOf(run[j].acks, x) ==> i in run[j].heads && x in run[j].heads[i]
  {
    RunInv(c, run, j);
    assert forall i :: i in AcksOf(run[j].acks, x) ==> Kept(c, run[j].heads, run[j].stores, i, x);
  }
}
