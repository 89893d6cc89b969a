/** The querier's read of a group of heads that may skip a few, the ingester's flush
    decision, and the gateway's stamping. */
module Reads {
  import opened Sets
  import opened Options
  import opened Samples
  import opened Chunks
  import opened Answers
  import Replication

  // ---- gather and collect ----

  /** A head's reply: its data, a failure nothing may skip, or an outage. */
  datatype Reply = Got(data: seq<SeriesData>) | Fatal(error: nat) | Outage(error: nat)

  datatype HeadResult = HeadResult(head: nat, reply: Reply)

  function Skipped(results: seq<HeadResult>): set<nat> {
    set i | 0 <= i < |results| && results[i].reply.Outage? :: results[i].head
  }

  predicate AnyFatal(results: seq<HeadResult>) {
    exists i :: 0 <= i < |results| && results[i].reply.Fatal?
  }

  /** One result per head, in some order of arrival. */
  predicate OnePerHead(results: seq<HeadResult>, n: nat) {
    && |results| == n
    && (forall i :: 0 <= i < n ==> results[i].head < n)
    && (forall i, j :: 0 <= i < j < n ==> results[i].head != results[j].head)
  }

  datatype Taken = Taken(answers: seq<Option<seq<SeriesData>>>, skipped: set<nat>, lastOutage: Option<nat>, fatal: Option<nat>)

  /** The state after taking a prefix of the results. */
  predicate TakenOk(t: Taken, results: seq<HeadResult>, n: nat) {
    && |t.answers| == n && t.skipped == Skipped(results)
    && (t.fatal.Some? <==> AnyFatal(results))
    && (t.fatal.Some? ==> exists i :: 0 <= i < |results| && results[i].reply == Fatal(t.fatal.value))
    && (t.lastOutage.Some? <==> t.skipped != {})
    && (t.lastOutage.Some? ==> exists i :: 0 <= i < |results| && results[i].reply == Outage(t.lastOutage.value))
    && (forall i :: 0 <= i < |results| && results[i].reply.Got? && results[i].head < n ==> t.answers[results[i].head] == Some(results[i].reply.data))
    && (forall h :: 0 <= h < n && t.answers[h].Some? ==> exists i :: 0 <= i < |results| && results[i] == HeadResult(h, Got(t.answers[h].value)))
  }

  function Take(t: Taken, r: HeadResult): Taken
    requires r.head < |t.answers|
  {
    match r.reply
    case Got(data) => t.(answers := t.answers[r.head := Some(data)])
    case Fatal(e) => if t.fatal.None? then t.(fatal := Some(e)) else t
    case Outage(e) => t.(skipped := t.skipped + {r.head}, lastOutage := Some(e))
  }

  lemma SkippedAppend(results: seq<HeadResult>, r: HeadResult)
    ensures Skipped(results + [r]) == Skipped(results) + (if r.reply.Outage? then {r.head} else {})
    ensures AnyFatal(results + [r]) <==> AnyFatal(results) || r.reply.Fatal?
  {
    var all := results + [r];
    assert all[|results|] == r;
    forall h | h in Skipped(results) + (if r.reply.Outage? then {r.head} else {}) ensures h in Skipped(all) {
      if h in Skipped(results) {
        var i :| 0 <= i < |results| && results[i].reply.Outage? && results[i].head == h;
        assert all[i] == results[i];
      }
    }
    if i :| 0 <= i < |results| && results[i].reply.Fatal? { assert all[i].reply.Fatal?; }
  }

  lemma TakeOk(t: Taken, results: seq<HeadResult>, i: nat, n: nat)
    requires OnePerHead(results, n) && i < n && TakenOk(t, results[..i], n)
    ensures TakenOk(Take(t, results[i]), results[..i + 1], n)
  {
    var before, r := results[..i], results[i];
    assert results[..i + 1] == before + [r];
    assert forall j :: 0 <= j < i ==> before[j].head != r.head;
    TakeOne(t, before, r, n, before + [r]);
  }

  lemma TakeOne(t: Taken, before: seq<HeadResult>, r: HeadResult, n: nat, all: seq<HeadResult>)
    requires TakenOk(t, before, n) && r.head < n && all == before + [r] && forall j :: 0 <= j < |before| ==> before[j].head != r.head
    ensures TakenOk(Take(t, r), all, n)
  {
    SkippedAppend(before, r);
    var t', i := Take(t, r), |before|;
    assert all[i] == r;
    assert forall j :: 0 <= j < i ==> all[j] == before[j];
    forall h | 0 <= h < n && t'.answers[h].Some? ensures exists k :: 0 <= k < |all| && all[k] == HeadResult(h, Got(t'.answers[h].value)) {
      if h == r.head && r.reply.Got? {
        assert all[i] == HeadResult(h, Got(t'.answers[h].value));
      } else {
        var k :| 0 <= k < |before| && before[k] == HeadResult(h, Got(t.answers[h].value));
        assert all[k] == before[k];
      }
    }
  }

  lemma SkippedGrows(results: seq<HeadResult>, i: nat)
    requires i <= |results|
    ensures |Skipped(results[..i])| <= |Skipped(results)| && (AnyFatal(results[..i]) ==> AnyFatal(results))
  {
    assert Skipped(results[..i]) <= Skipped(results) by {
      forall h | h in Skipped(results[..i]) ensures h in Skipped(results) {
        var k :| 0 <= k < i && results[..i][k].reply.Outage? && results[..i][k].head == h;
        assert results[k].head == h;
      }
    }
    SubsetSize(Skipped(results[..i]), Skipped(results));
    if k :| 0 <= k < i && results[..i][k].reply.Fatal? { assert results[k].reply.Fatal?; }
  }

  /** The error of a read decided by the first d results: a fatal one if any came. */
  predicate ErrorIn(results: seq<HeadResult>, d: nat, e: nat)
    requires d <= |results|
  {
    exists i :: 0 <= i < d && results[i].reply == (if AnyFatal(results[..d]) then Fatal(e) else Outage(e))
  }

  lemma ErrorOk(t: Taken, end: Taken, results: seq<HeadResult>, i: nat, d: nat, n: nat)
    requires i <= d <= |results| && TakenOk(t, results[..i], n) && TakenOk(end, results[..d], n)
    requires t.fatal.Some? || t.skipped != {}
    ensures end.fatal.Some? || t.lastOutage.Some?
    ensures ErrorIn(results, d, if end.fatal.Some? then end.fatal.value else t.lastOutage.value)
  {
    if end.fatal.Some? {
      var k :| 0 <= k < d && results[..d][k].reply == Fatal(end.fatal.value);
      assert results[k].reply == Fatal(end.fatal.value);
    } else {
      forall k | 0 <= k < i ensures !results[..i][k].reply.Fatal? { assert results[..i][k] == results[..d][k]; }
      var k :| 0 <= k < i && results[..i][k].reply == Outage(t.lastOutage.value);
      assert results[k].reply == Outage(t.lastOutage.value);
    }
  }

  /** Takes the results already queued when a read is decided. */
  method TakeQueued(t0: Taken, results: seq<HeadResult>, n: nat, i0: nat, queued: nat) returns (t: Taken, ghost d: nat)
    requires OnePerHead(results, n) && i0 <= n && TakenOk(t0, results[..i0], n)
    ensures i0 <= d <= n && TakenOk(t, results[..d], n)
  {
    t := t0;
    var i := i0;
    while i < n && i - i0 < queued
      invariant i0 <= i <= n && TakenOk(t, results[..i], n)
    {
      TakeOk(t, results, i, n);
      t := Take(t, results[i]);
      i := i + 1;
    }
    d := i;
  }

  /** Takes results until the read is decided, then those already queued. It succeeds
      exactly when nothing fatal came and no more than tolerate heads were out; and a
      fatal error that is in wins over the outage that decided. */
  method Gather(results: seq<HeadResult>, n: nat, tolerate: nat, queued: nat)
    returns (answers: seq<Option<seq<SeriesData>>>, skipped: set<nat>, lastOutage: Option<nat>, err: Option<nat>, ghost d: nat)
    requires OnePerHead(results, n)
    ensures err.None? <==> !AnyFatal(results) && |Skipped(results)| <= tolerate
    ensures err.None? ==> TakenOk(Taken(answers, skipped, lastOutage, None), results, n)
    ensures err.Some? ==> d <= n && ErrorIn(results, d, err.value)
  {
    var t := Taken(seq(n, i => None), {}, None, None);
    d := n;
    var i := 0;
    while i < n
      invariant 0 <= i <= n && d == n && TakenOk(t, results[..i], n)
      invariant t.fatal.None? && |t.skipped| <= tolerate
    {
      TakeOk(t, results, i, n);
      t := Take(t, results[i]);
      i := i + 1;
      if t.fatal.None? && |t.skipped| <= tolerate {
        continue;
      }
      SkippedGrows(results, i);
      var end;
      end, d := TakeQueued(t, results, n, i, queued);
      ErrorOk(t, end, results, i, d, n);
      return [], {}, None, if end.fatal.Some? then end.fatal else t.lastOutage, d;
    }
    assert results[..i] == results;
    return t.answers, t.skipped, t.lastOutage, None, d;
  }

  /** Merge(h0, Merge(h1, ...)) over the answers, in head order. */
  method FoldHeads(parts: seq<seq<SeriesData>>, ghost held: seq<set<Sample>>, p: Params) returns (out: seq<SeriesData>)
    requires |parts| == |held| > 0 && forall i :: 0 <= i < |parts| ==> Represents(parts[i], held[i], p)
    ensures Represents(out, UnionOf(held), p)
  {
    var i := |parts| - 1;
    out := parts[i];
    assert UnionOf(held[i..]) == held[i];
    while i > 0
      invariant 0 <= i < |parts| && Represents(out, UnionOf(held[i..]), p)
    {
      i := i - 1;
      out := MergeSelect(parts[i], out, held[i], UnionOf(held[i + 1..]), p);
      UnionStep(held, i);
    }
    assert held[0..] == held;
  }

  lemma UnionStep(held: seq<set<Sample>>, i: nat)
    requires i < |held|
    ensures UnionOf(held[i..]) == held[i] + UnionOf(held[i + 1..])
  {
    var a, b := held[i..], held[i + 1..];
    forall x | x in UnionOf(a) ensures x in held[i] + UnionOf(b) {
      var k :| 0 <= k < |a| && x in a[k];
      if k > 0 { assert x in b[k - 1]; }
    }
    forall x | x in held[i] + UnionOf(b) ensures x in UnionOf(a) {
      if x in held[i] {
        assert x in a[0];
      } else {
        var k :| 0 <= k < |b| && x in b[k];
        assert x in a[k + 1];
      }
    }
  }

  datatype ReadResult = ReadOk(out: seq<SeriesData>, skipped: set<nat>) | ReadFailed(error: nat)

  /** What the heads that answered hold. */
  function HeldBy(results: seq<HeadResult>, held: seq<set<Sample>>): set<Sample> {
    set i, x | 0 <= i < |results| && results[i].reply.Got? && results[i].head < |held| && x in held[results[i].head] :: x
  }

  /** A read that skipped fewer heads than acknowledge a write, W - 1 of them for the
      least majority W, is one the no-gap argument allows; of rf replicas a majority is
      then left even of the smallest one. */
  lemma SkipsAllowTheNextPhase(c: Replication.Cluster, s: Replication.State, skipped: set<nat>)
    requires Replication.In(s, Replication.ReadingHeads) && c.ingesters - s.query.read <= skipped && 2 * |skipped| <= c.rf
    ensures Replication.Enabled(c, s, Replication.HeadsDone)
  {
    SubsetSize(c.ingesters - s.query.read, skipped);
    Replication.MajorityIff(c.rf, |skipped|);
  }

  /** And alike of the stores. */
  lemma SkippedStoresAllowTheEnd(c: Replication.Cluster, s: Replication.State, skipped: set<nat>)
    requires Replication.In(s, Replication.ReadingStores) && c.stores - s.query.read <= skipped && 2 * |skipped| <= c.storeRf
    ensures Replication.Enabled(c, s, Replication.StoresDone)
  {
    SubsetSize(c.stores - s.query.read, skipped);
    Replication.MajorityIff(c.storeRf, |skipped|);
  }

  /** Each reply answers p over what its head holds. */
  predicate RepliesOk(results: seq<HeadResult>, held: seq<set<Sample>>, p: Params) {
    forall i :: 0 <= i < |results| && results[i].reply.Got? && results[i].head < |held| ==> Represents(results[i].reply.data, held[results[i].head], p)
  }

  /** The answers that came, in head order. */
  method Compact(answers: seq<Option<seq<SeriesData>>>, ghost held: seq<set<Sample>>, p: Params)
    returns (parts: seq<seq<SeriesData>>, ghost sets: seq<set<Sample>>)
    requires |answers| == |held| && forall h :: 0 <= h < |held| && answers[h].Some? ==> Represents(answers[h].value, held[h], p)
    ensures |parts| == |sets| && forall i :: 0 <= i < |parts| ==> Represents(parts[i], sets[i], p)
    ensures UnionOf(sets) == set h, x | 0 <= h < |answers| && answers[h].Some? && x in held[h] :: x
    ensures parts == [] <==> forall h :: 0 <= h < |answers| ==> answers[h].None?
  {
    parts, sets := [], [];
    var h := 0;
    while h < |answers|
      invariant 0 <= h <= |answers| && |parts| == |sets|
      invariant forall i :: 0 <= i < |parts| ==> Represents(parts[i], sets[i], p)
      invariant UnionOf(sets) == set k, x | 0 <= k < h && answers[k].Some? && x in held[k] :: x
      invariant parts == [] <==> forall k :: 0 <= k < h ==> answers[k].None?
    {
      if answers[h].Some? {
        UnionAppend(sets, held[h]);
        parts, sets := parts + [answers[h].value], sets + [held[h]];
      }
      h := h + 1;
    }
  }

  lemma UnionAppend(sets: seq<set<Sample>>, S: set<Sample>)
    ensures UnionOf(sets + [S]) == UnionOf(sets) + S
  {
    var all := sets + [S];
    assert all[|sets|] == S;
    forall x | x in UnionOf(sets) ensures x in UnionOf(all) {
      var k :| 0 <= k < |sets| && x in sets[k];
      assert x in all[k];
    }
  }

  lemma AnsweredHeld(t: Taken, results: seq<HeadResult>, held: seq<set<Sample>>, n: nat)
    requires OnePerHead(results, n) && TakenOk(t, results, n) && |held| == n
    ensures (set h, x | 0 <= h < n && t.answers[h].Some? && x in held[h] :: x) == HeldBy(results, held)
  {
    forall x | x in HeldBy(results, held) ensures exists h :: 0 <= h < n && t.answers[h].Some? && x in held[h] {
      var i :| 0 <= i < n && results[i].reply.Got? && x in held[results[i].head];
      assert t.answers[results[i].head].Some?;
    }
    forall h, x | 0 <= h < n && t.answers[h].Some? && x in held[h] ensures x in HeldBy(results, held) {
      var i :| 0 <= i < n && results[i] == HeadResult(h, Got(t.answers[h].value));
    }
  }

  lemma NoneAnswered(t: Taken, results: seq<HeadResult>, n: nat)
    requires OnePerHead(results, n) && TakenOk(t, results, n) && n > 0 && !AnyFatal(results)
    requires forall h :: 0 <= h < n ==> t.answers[h].None?
    ensures t.lastOutage.Some?
  {
    assert !results[0].reply.Fatal? && results[0].head < n;
    assert results[0].reply.Outage?;
    assert results[0].head in Skipped(results);
  }

  /** A read of the heads with up to tolerate of them out: in whatever order they
      answer, the outcome is the merge of everything the answering heads hold, and the
      read fails exactly when something fatal came, too many were out, or all were. */
  method Collect(results: seq<HeadResult>, n: nat, tolerate: nat, queued: nat, ghost held: seq<set<Sample>>, p: Params) returns (r: ReadResult)
    requires OnePerHead(results, n) && n > 0 && |held| == n && RepliesOk(results, held, p)
    ensures r.ReadOk? ==> Represents(r.out, HeldBy(results, held), p)
    ensures r.ReadOk? ==> r.skipped == Skipped(results) && |r.skipped| <= tolerate && !AnyFatal(results)
    ensures r.ReadFailed? <==> AnyFatal(results) || |Skipped(results)| > tolerate || forall i :: 0 <= i < n ==> results[i].reply.Outage?
  {
    var answers, skipped, lastOutage, err, d := Gather(results, n, tolerate, queued);
    if err.Some? { return ReadFailed(err.value); }
    ghost var t := Taken(answers, skipped, lastOutage, None);
    assert forall h :: 0 <= h < n && answers[h].Some? ==> Represents(answers[h].value, held[h], p) by {
      forall h | 0 <= h < n && answers[h].Some? ensures Represents(answers[h].value, held[h], p) {
        var i :| 0 <= i < n && results[i] == HeadResult(h, Got(answers[h].value));
      }
    }
    var parts, sets := Compact(answers, held, p);
    AnsweredHeld(t, results, held, n);
    SilentMeansOutages(t, results, n);
    if parts == [] {
      NoneAnswered(t, results, n);
      return ReadFailed(lastOutage.value);
    }
    var out := FoldHeads(parts, sets, p);
    r := ReadOk(out, skipped);
  }

  datatype MergedResult =
    | MergedOk(out: seq<SeriesData>, skippedHeads: set<nat>, skippedStores: set<nat>)
    | MergedFailed(error: nat)

  /** When a read of one group of heads fails. */
  predicate ReadFails(results: seq<HeadResult>, tolerate: nat) {
    AnyFatal(results) || |Skipped(results)| > tolerate || forall i :: 0 <= i < |results| ==> results[i].reply.Outage?
  }

  /** The querier's whole select: the ingesters to completion, then the stores, then the
      merge. It fails exactly when either side does, and otherwise answers over all that
      the sources it read held: the answer Replication.NoGap is about. */
  method SelectMerged(heads: seq<HeadResult>, tolerate: nat, stores: seq<HeadResult>, storeTolerate: nat, queued: nat, storeQueued: nat,
                      ghost heldHeads: seq<set<Sample>>, ghost heldStores: seq<set<Sample>>, p: Params) returns (r: MergedResult)
    requires OnePerHead(heads, |heads|) && |heads| > 0 && |heldHeads| == |heads| && RepliesOk(heads, heldHeads, p)
    requires OnePerHead(stores, |stores|) && |stores| > 0 && |heldStores| == |stores| && RepliesOk(stores, heldStores, p)
    ensures r.MergedFailed? <==> ReadFails(heads, tolerate) || ReadFails(stores, storeTolerate)
    ensures r.MergedOk? ==> Represents(r.out, HeldBy(heads, heldHeads) + HeldBy(stores, heldStores), p)
    ensures r.MergedOk? ==> r.skippedHeads == Skipped(heads) && r.skippedStores == Skipped(stores)
  {
    var a := Collect(heads, |heads|, tolerate, queued, heldHeads, p);
    if a.ReadFailed? { return MergedFailed(a.error); }
    var b := Collect(stores, |stores|, storeTolerate, storeQueued, heldStores, p);
    if b.ReadFailed? { return MergedFailed(b.error); }
    var out := MergeSelect(a.out, b.out, HeldBy(heads, heldHeads), HeldBy(stores, heldStores), p);
    r := MergedOk(out, a.skipped, b.skipped);
  }

  lemma SilentMeansOutages(t: Taken, results: seq<HeadResult>, n: nat)
    requires OnePerHead(results, n) && TakenOk(t, results, n) && !AnyFatal(results)
    ensures (forall h :: 0 <= h < n ==> t.answers[h].None?) <==> forall i :: 0 <= i < n ==> results[i].reply.Outage?
  {
    if i :| 0 <= i < n && !results[i].reply.Outage? {
      assert results[i].reply.Got?;
      assert t.answers[results[i].head].Some?;
    }
    if h :| 0 <= h < n && t.answers[h].Some? {
      var i :| 0 <= i < n && results[i] == HeadResult(h, Got(t.answers[h].value));
    }
  }

  // ---- replicateFlush ----

  /** A flush batch is accepted exactly when every key has enough owners that took it:
      a majority, or all of them for a handoff. */
  method ReplicateFlush(replicasOf: seq<seq<nat>>, failedStore: set<nat>, rf: nat, requireAll: bool) returns (failedKeys: nat)
    requires forall k :: 0 <= k < |replicasOf| ==> IsReplicas(replicasOf[k], rf)
    ensures failedKeys == |FailedKeys(replicasOf, failedStore, if requireAll then rf else Replication.Quorum(rf))|
    ensures !requireAll ==> failedKeys == |set k | 0 <= k < |replicasOf| && 2 * |Owners(replicasOf[k]) - failedStore| <= rf|
    ensures requireAll ==> failedKeys == |set k | 0 <= k < |replicasOf| && !(Owners(replicasOf[k]) !! failedStore)|
    ensures requireAll ==> (failedKeys == 0 <==> forall k :: 0 <= k < |replicasOf| ==> Owners(replicasOf[k]) !! failedStore)
  {
    var need := Replication.Quorum(rf);
    if requireAll { need := rf; }
    failedKeys := CountFailed(replicasOf, failedStore, rf, need);
    if requireAll { RequireAllIff(replicasOf, failedStore, rf); } else { MinorityTook(replicasOf, failedStore, rf); }
  }

  /** A key fails a plain flush exactly when at most half of its owners took it. */
  lemma MinorityTook(replicasOf: seq<seq<nat>>, failedStore: set<nat>, rf: nat)
    ensures FailedKeys(replicasOf, failedStore, Replication.Quorum(rf)) == set k | 0 <= k < |replicasOf| && 2 * |Owners(replicasOf[k]) - failedStore| <= rf
  {
    forall k | 0 <= k < |replicasOf| ensures TooFew(replicasOf[k], failedStore, Replication.Quorum(rf)) <==> 2 * |Owners(replicasOf[k]) - failedStore| <= rf {
      Replication.MajorityIff(rf, |Owners(replicasOf[k]) - failedStore|);
    }
  }

  method CountFailed(replicasOf: seq<seq<nat>>, failedStore: set<nat>, rf: nat, need: nat) returns (failedKeys: nat)
    requires forall k :: 0 <= k < |replicasOf| ==> IsReplicas(replicasOf[k], rf)
    ensures failedKeys == |FailedKeys(replicasOf, failedStore, need)|
  {
    failedKeys := 0;
    var k := 0;
    while k < |replicasOf|
      invariant 0 <= k <= |replicasOf| && failedKeys == |FailedKeys(replicasOf[..k], failedStore, need)|
    {
      var acks := CountAcks(replicasOf[k], failedStore);
      assert replicasOf[..k + 1] == replicasOf[..k] + [replicasOf[k]];
      FailedKeysAppend(replicasOf[..k], replicasOf[k], failedStore, need);
      if acks < need { failedKeys := failedKeys + 1; }
      k := k + 1;
    }
    assert replicasOf[..k] == replicasOf;
  }

  lemma FailedKeysAppend(replicasOf: seq<seq<nat>>, replicas: seq<nat>, failedStore: set<nat>, need: nat)
    ensures |FailedKeys(replicasOf + [replicas], failedStore, need)|
         == |FailedKeys(replicasOf, failedStore, need)| + (if TooFew(replicas, failedStore, need) then 1 else 0)
  {
    var all := replicasOf + [replicas];
    var F := FailedKeys(replicasOf, failedStore, need);
    assert FailedKeys(all, failedStore, need) == F + (if TooFew(replicas, failedStore, need) then {|replicasOf|} else {});
  }

  /** The keys that too few of their owners took. */
  function FailedKeys(replicasOf: seq<seq<nat>>, failedStore: set<nat>, need: nat): set<int> {
    set k | 0 <= k < |replicasOf| && TooFew(replicasOf[k], failedStore, need)
  }

  predicate TooFew(replicas: seq<nat>, failedStore: set<nat>, need: nat) {
    |Owners(replicas) - failedStore| < need
  }

  function Owners(replicas: seq<nat>): set<nat> { set s | s in replicas }

  predicate IsReplicas(replicas: seq<nat>, rf: nat) {
    |replicas| == rf && forall i, j :: 0 <= i < j < rf ==> replicas[i] != replicas[j]
  }

  /** How many of the first i owners took the batch. */
  function Acks(replicas: seq<nat>, failedStore: set<nat>, i: nat): nat
    requires i <= |replicas|
  {
    if i == 0 then 0 else Acks(replicas, failedStore, i - 1) + (if replicas[i - 1] in failedStore then 0 else 1)
  }

  lemma {:induction false} AcksAre(replicas: seq<nat>, failedStore: set<nat>, i: nat)
    requires IsReplicas(replicas, |replicas|) && i <= |replicas|
    ensures Acks(replicas, failedStore, i) == |Owners(replicas[..i]) - failedStore|
  {
    if i == 0 {
      assert Owners([]) - failedStore == {};
    } else {
      var p, s, q := replicas[..i - 1], replicas[i - 1], replicas[..i];
      AcksAre(replicas, failedStore, i - 1);
      NotBefore(replicas, i - 1, p, s, q);
      OwnersNext(p, s, q, failedStore);
    }
  }

  lemma NotBefore(replicas: seq<nat>, i: nat, p: seq<nat>, s: nat, q: seq<nat>)
    requires IsReplicas(replicas, |replicas|) && i < |replicas| && p == replicas[..i] && s == replicas[i] && q == replicas[..i + 1]
    ensures s !in p && q == p + [s]
  {
    forall k | 0 <= k < i ensures p[k] != s { assert p[k] == replicas[k]; }
  }

  method CountAcks(replicas: seq<nat>, failedStore: set<nat>) returns (acks: nat)
    requires IsReplicas(replicas, |replicas|)
    ensures acks == |Owners(replicas) - failedStore|
  {
    acks := 0;
    var i := 0;
    while i < |replicas|
      invariant 0 <= i <= |replicas| && acks == Acks(replicas, failedStore, i)
    {
      if replicas[i] !in failedStore { acks := acks + 1; }
      i := i + 1;
    }
    AcksAre(replicas, failedStore, |replicas|);
    SliceAll(replicas);
  }

  lemma OwnersNext(p: seq<nat>, s: nat, q: seq<nat>, failedStore: set<nat>)
    requires q == p + [s] && s !in p
    ensures |Owners(q) - failedStore| == |Owners(p) - failedStore| + (if s in failedStore then 0 else 1)
  {
    assert Owners(q) == Owners(p) + {s};
    assert Owners(q) - failedStore == Owners(p) - failedStore + (if s in failedStore then {} else {s});
  }

  lemma {:induction false} OwnersSize(replicas: seq<nat>)
    requires IsReplicas(replicas, |replicas|)
    ensures |Owners(replicas)| == |replicas|
  {
    if replicas == [] {
      assert Owners(replicas) == {};
    } else {
      var n := |replicas| - 1;
      OwnersSize(replicas[..n]);
      assert replicas[n] !in replicas[..n];
      assert Owners(replicas) == Owners(replicas[..n]) + {replicas[n]};
    }
  }

  lemma RequireAllIff(replicasOf: seq<seq<nat>>, failedStore: set<nat>, rf: nat)
    requires forall k :: 0 <= k < |replicasOf| ==> IsReplicas(replicasOf[k], rf)
    ensures FailedKeys(replicasOf, failedStore, rf) == set k | 0 <= k < |replicasOf| && !(Owners(replicasOf[k]) !! failedStore)
    ensures |FailedKeys(replicasOf, failedStore, rf)| == 0 <==> forall k :: 0 <= k < |replicasOf| ==> Owners(replicasOf[k]) !! failedStore
  {
    var failed := FailedKeys(replicasOf, failedStore, rf);
    forall k | 0 <= k < |replicasOf| ensures k in failed <==> !(Owners(replicasOf[k]) !! failedStore) {
      var O := Owners(replicasOf[k]);
      OwnersSize(replicasOf[k]);
      if O !! failedStore {
        assert O - failedStore == O;
      } else {
        var s :| s in O && s in failedStore;
        assert O - failedStore <= O - {s};
        SubsetSize(O - failedStore, O - {s});
      }
    }
    if failed != {} {
      var k :| k in failed;
    }
  }

  /** The decision is the one the no-gap argument needs: with no failed key, what the
      batch holds may be dropped. */
  lemma AcceptedFlushMayDrop(c: Replication.Cluster, s: Replication.State, i: nat, dropped: set<Sample>, failedStore: set<nat>)
    requires i in s.flights && i in s.heads && dropped <= s.flights[i].batch
    requires forall x :: x in s.flights[i].batch ==> 2 * |Replication.StoresOf(c, x.series) - failedStore| > c.storeRf
    requires forall x :: x in s.flights[i].batch ==> Replication.StoresOf(c, x.series) - failedStore <= s.flights[i].ok
    ensures Replication.Enabled(c, s, Replication.Drop(i, dropped))
  {
    var ok := s.flights[i].ok;
    forall x | x in s.flights[i].batch ensures |ok * Replication.StoresOf(c, x.series)| >= Replication.Quorum(c.storeRf) {
      Replication.MajorityIff(c.storeRf, |Replication.StoresOf(c, x.series) - failedStore|);
      SubsetSize(Replication.StoresOf(c, x.series) - failedStore, ok * Replication.StoresOf(c, x.series));
    }
  }

  // ---- the gateway's stamp ----

  /** No later item of the batch has this one's series and timestamp. */
  predicate IsLast(batch: seq<Sample>, i: nat)
    requires i < |batch|
  {
    forall j :: i < j < |batch| ==> !SameKey(batch[i], batch[j])
  }

  function LastIndex(batch: seq<Sample>): map<(nat, int), nat> {
    if batch == [] then map[]
    else
      var n := |batch| - 1;
      LastIndex(batch[..n])[(batch[n].series, batch[n].ts) := n]
  }

  function KeyOf(x: Sample): (nat, int) { (x.series, x.ts) }

  /** m names each key's last position. */
  predicate LastOk(batch: seq<Sample>, m: map<(nat, int), nat>) {
    && (forall i :: 0 <= i < |batch| ==> KeyOf(batch[i]) in m && (m[KeyOf(batch[i])] == i <==> IsLast(batch, i)))
    && (forall k :: k in m ==> m[k] < |batch|)
  }

  lemma StillLast(p: seq<Sample>, x: Sample, batch: seq<Sample>, i: nat)
    requires batch == p + [x] && i < |p|
    ensures IsLast(batch, i) <==> IsLast(p, i) && KeyOf(p[i]) != KeyOf(x)
  {
    assert batch[i] == p[i] && batch[|p|] == x;
    if IsLast(batch, i) {
      forall j | i < j < |p| ensures !SameKey(p[i], p[j]) { assert batch[j] == p[j]; }
    }
    if IsLast(p, i) && KeyOf(p[i]) != KeyOf(x) {
      forall j | i < j < |batch| ensures !SameKey(batch[i], batch[j]) { assert j < |p| ==> batch[j] == p[j]; }
    }
  }

  lemma LastOkNext(p: seq<Sample>, x: Sample, batch: seq<Sample>, m: map<(nat, int), nat>, m': map<(nat, int), nat>)
    requires batch == p + [x] && LastOk(p, m) && m' == m[KeyOf(x) := |p|]
    ensures LastOk(batch, m')
  {
    assert IsLast(batch, |p|) && batch[|p|] == x;
    forall i | 0 <= i < |p| ensures KeyOf(batch[i]) in m' && (m'[KeyOf(batch[i])] == i <==> IsLast(batch, i)) {
      StillLast(p, x, batch, i);
      assert batch[i] == p[i];
    }
  }

  lemma {:induction false} LastIndexIsLast(batch: seq<Sample>)
    ensures LastOk(batch, LastIndex(batch))
  {
    if batch != [] {
      var p, x := batch[..|batch| - 1], batch[|batch| - 1];
      LastIndexIsLast(p);
      LastOkNext(p, x, batch, LastIndex(p), LastIndex(batch));
    }
  }

  /** idx lists, in order, exactly the positions that are their key's last write. */
  predicate IsLastWrites(batch: seq<Sample>, idx: seq<nat>) {
    && (forall a, b :: 0 <= a < b < |idx| ==> idx[a] < idx[b])
    && (forall a :: 0 <= a < |idx| ==> idx[a] < |batch| && IsLast(batch, idx[a]))
    && (forall i :: 0 <= i < |batch| && IsLast(batch, i) ==> i in idx)
  }

  method IndexLast(batch: seq<Sample>) returns (last: map<(nat, int), nat>)
    ensures last == LastIndex(batch)
  {
    last := map[];
    var i := 0;
    while i < |batch|
      invariant 0 <= i <= |batch| && last == LastIndex(batch[..i])
    {
      last := last[(batch[i].series, batch[i].ts) := i];
      assert batch[..i + 1][..i] == batch[..i];
      i := i + 1;
    }
    assert batch[..i] == batch;
  }

  method LastWritePerSample(batch: seq<Sample>) returns (out: seq<Sample>, ghost idx: seq<nat>)
    ensures |out| == |idx| && IsLastWrites(batch, idx)
    ensures forall a :: 0 <= a < |out| ==> out[a] == batch[idx[a]]
  {
    var last := IndexLast(batch);
    LastIndexIsLast(batch);
    out, idx := [], [];
    var i := 0;
    while i < |batch|
      invariant 0 <= i <= |batch| && LastUpTo(batch, out, idx, i)
    {
      if last[(batch[i].series, batch[i].ts)] == i {
        KeepLast(batch, out, idx, i);
        out, idx := out + [batch[i]], idx + [i];
      }
      i := i + 1;
    }
  }

  /** The positions before i that are last at their key, in order, with their samples. */
  ghost predicate LastUpTo(batch: seq<Sample>, out: seq<Sample>, idx: seq<nat>, i: nat)
    requires i <= |batch|
  {
    && |out| == |idx| && (forall a, b :: 0 <= a < b < |idx| ==> idx[a] < idx[b])
    && (forall a :: 0 <= a < |idx| ==> idx[a] < i && IsLast(batch, idx[a]) && out[a] == batch[idx[a]])
    && (forall j :: 0 <= j < i && IsLast(batch, j) ==> j in idx)
  }

  lemma KeepLast(batch: seq<Sample>, out: seq<Sample>, idx: seq<nat>, i: nat)
    requires i < |batch| && LastUpTo(batch, out, idx, i) && IsLast(batch, i)
    ensures LastUpTo(batch, out + [batch[i]], idx + [i], i + 1)
  {
  }

  class Gateway {
    var nextGen: int

    constructor ()
      ensures nextGen == 1
    {
      nextGen := 1;
    }

    /** Keeps each key's last write of the batch, in order, and stamps them with one
        generation: at least the clock, and above all this gateway has used. */
    method Stamp(batch: seq<Sample>, clock: int) returns (out: seq<Sample>, ghost idx: seq<nat>)
      modifies this
      ensures |out| == |idx| && IsLastWrites(batch, idx)
      ensures forall a :: 0 <= a < |out| ==> out[a] == batch[idx[a]].(gen := nextGen - 1)
      ensures nextGen - 1 == Max(old(nextGen), clock)
    {
      var kept;
      kept, idx := LastWritePerSample(batch);
      var gen := Max(nextGen, clock);
      nextGen := gen + 1;
      out := seq(|kept|, a requires 0 <= a < |kept| => kept[a].(gen := gen));
    }
  }

  /** What a stamped batch leaves at a key is the batch's last write there, although
      all share one generation. */
  lemma StampedBatchLastWins(batch: seq<Sample>, out: seq<Sample>, idx: seq<nat>, gen: int, i: nat)
    requires |out| == |idx| && i < |batch| && IsLast(batch, i) && IsLastWrites(batch, idx)
    requires forall a :: 0 <= a < |idx| ==> out[a] == batch[idx[a]].(gen := gen)
    ensures batch[i].(gen := gen) in View(SetOf(out))
    ensures forall y :: y in out && SameKey(y, batch[i]) ==> y == batch[i].(gen := gen)
  {
    var a :| 0 <= a < |idx| && idx[a] == i;
    assert out[a] == batch[i].(gen := gen);
    forall y | y in out && SameKey(y, batch[i]) ensures y == batch[i].(gen := gen) {
      var b :| 0 <= b < |out| && out[b] == y;
      var j := idx[b];
      assert SameKey(batch[j], batch[i]);
      assert IsLast(batch, j) && IsLast(batch, i);
    }
    assert Unbeaten(SetOf(out), out[a]);
  }
}
