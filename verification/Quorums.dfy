/** The decisions a replicated write, flush and read make from their peers' results,
    which arrive in any order. */
module Quorums {
  import opened Sets
  import Samples
  import Replication

  // ---- routing a batch ----

  /** What replicate builds: each key's replicas, and each member's keys. */
  predicate IsMemberKeys(memberKeys: map<nat, seq<nat>>, reps: seq<seq<nat>>) {
    && (forall m :: m in memberKeys ==> IsKeysOf(memberKeys[m], reps, m))
    && (forall k, m :: 0 <= k < |reps| && m in reps[k] ==> m in memberKeys)
  }

  /** The indexes of the keys m replicates, each once. */
  predicate IsKeysOf(keys: seq<nat>, reps: seq<seq<nat>>, m: nat) {
    && (forall i :: 0 <= i < |keys| ==> keys[i] < |reps| && m in reps[keys[i]])
    && (forall k :: 0 <= k < |reps| && m in reps[k] ==> k in keys)
    && (forall i, j :: 0 <= i < j < |keys| ==> keys[i] < keys[j])
  }

  function AddKey(memberKeys: map<nat, seq<nat>>, members: seq<nat>, k: nat): map<nat, seq<nat>> {
    map m | m in memberKeys.Keys + (set x | x in members) ::
      (if m in memberKeys then memberKeys[m] else []) + (if m in members then [k] else [])
  }

  lemma KeysOfNext(before: seq<nat>, reps: seq<seq<nat>>, members: seq<nat>, m: nat)
    requires IsKeysOf(before, reps, m)
    ensures IsKeysOf(before + (if m in members then [|reps|] else []), reps + [members], m)
  {
    var all := reps + [members];
    var keys := before + (if m in members then [|reps|] else []);
    forall k | 0 <= k < |all| && m in all[k] ensures k in keys {
      if k == |reps| {
        assert keys[|before|] == k;
      } else {
        assert all[k] == reps[k] && k in before;
      }
    }
  }

  lemma AddKeyIndexes(memberKeys: map<nat, seq<nat>>, reps: seq<seq<nat>>, members: seq<nat>)
    requires IsMemberKeys(memberKeys, reps)
    ensures IsMemberKeys(AddKey(memberKeys, members, |reps|), reps + [members])
  {
    var mk, all := AddKey(memberKeys, members, |reps|), reps + [members];
    forall m | m in mk ensures IsKeysOf(mk[m], all, m) {
      var before := if m in memberKeys then memberKeys[m] else [];
      assert IsKeysOf(before, reps, m) by {
        if m !in memberKeys { assert forall k :: 0 <= k < |reps| ==> m !in reps[k]; }
      }
      assert mk[m] == before + (if m in members then [|reps|] else []);
      KeysOfNext(before, reps, members, m);
    }
    forall k, m | 0 <= k < |all| && m in all[k] ensures m in mk {
      if k < |reps| { assert m in reps[k]; }
    }
  }

  /** Groups a batch by replica: every item goes to exactly the replicas of its key,
      in batch order; items of one key share an index. */
  method Route(items: seq<nat>, ring: map<nat, seq<nat>>)
    returns (reps: seq<seq<nat>>, memberKeys: map<nat, seq<nat>>, groups: map<nat, seq<nat>>, ghost keys: seq<nat>)
    requires forall i :: 0 <= i < |items| ==> items[i] in ring
    ensures IsMemberKeys(memberKeys, reps)
    ensures |keys| == |reps| && SeqSet(keys) == SeqSet(items)
    ensures forall k :: 0 <= k < |reps| ==> keys[k] in ring && reps[k] == ring[keys[k]]
    ensures forall k, n :: 0 <= k < n < |keys| ==> keys[k] != keys[n]
    ensures GroupsAre(groups, items, ring)
  {
    var keyIdx: map<nat, nat> := map[];
    reps, memberKeys, groups, keys := [], map[], map[], [];
    var i := 0;
    while i < |items|
      invariant 0 <= i <= |items|
      invariant Indexed(keyIdx, keys, ring, reps) && keyIdx.Keys == SeqSet(items[..i])
      invariant IsMemberKeys(memberKeys, reps)
      invariant GroupsAre(groups, items[..i], ring)
    {
      var key := items[i];
      if key !in keyIdx {
        AddKeyIndexes(memberKeys, reps, ring[key]);
        memberKeys := AddKey(memberKeys, ring[key], |reps|);
        keyIdx := keyIdx[key := |reps|];
        reps := reps + [ring[key]];
        SeqSetAppend(keys, key);
        keys := keys + [key];
      }
      SeqSetAppend(items[..i], key);
      assert items[..i + 1] == items[..i] + [key];
      SendOneGroups(groups, items[..i], ring, key);
      groups := SendOne(groups, reps[keyIdx[key]], key);
      i := i + 1;
    }
    assert items[..i] == items;
  }

  /** keyIdx numbers the distinct keys seen, in order of appearance. */
  predicate Indexed(keyIdx: map<nat, nat>, keys: seq<nat>, ring: map<nat, seq<nat>>, reps: seq<seq<nat>>) {
    && |keys| == |reps| && keyIdx.Keys == SeqSet(keys)
    && (forall k :: k in keyIdx ==> keyIdx[k] < |keys| && keys[keyIdx[k]] == k)
    && (forall k :: 0 <= k < |keys| ==> keys[k] in keyIdx && keyIdx[keys[k]] == k)
    && (forall k :: 0 <= k < |reps| ==> keys[k] in ring && reps[k] == ring[keys[k]])
  }

  ghost predicate GroupsAre(groups: map<nat, seq<nat>>, items: seq<nat>, ring: map<nat, seq<nat>>) {
    && (forall m :: m in groups ==> groups[m] == SentTo(items, ring, m))
    && (forall m {:trigger SentTo(items, ring, m)} :: m !in groups ==> SentTo(items, ring, m) == [])
  }

  lemma SendOneGroups(groups: map<nat, seq<nat>>, items: seq<nat>, ring: map<nat, seq<nat>>, key: nat)
    requires key in ring && GroupsAre(groups, items, ring)
    ensures GroupsAre(SendOne(groups, ring[key], key), items + [key], ring)
  {
    assert (items + [key])[..|items|] == items;
    forall m ensures SentTo(items + [key], ring, m) == SentTo(items, ring, m) + (if m in ring[key] then [key] else []) {
    }
  }

  lemma SeqSetAppend(s: seq<nat>, x: nat)
    ensures SeqSet(s + [x]) == SeqSet(s) + {x}
  {
    forall y ensures y in SeqSet(s + [x]) <==> y in SeqSet(s) + {x} {
      assert y in s + [x] <==> y in s || y == x;
    }
  }

  function SendOne(groups: map<nat, seq<nat>>, members: seq<nat>, item: nat): map<nat, seq<nat>> {
    map m | m in groups.Keys + (set x | x in members) ::
      (if m in groups then groups[m] else []) + (if m in members then [item] else [])
  }

  /** The items member m replicates, in order. */
  function SentTo(items: seq<nat>, ring: map<nat, seq<nat>>, m: nat): seq<nat> {
    if items == [] then []
    else
      var n := |items| - 1;
      SentTo(items[..n], ring, m) + (if items[n] in ring && m in ring[items[n]] then [items[n]] else [])
  }

  // ---- the write collector ----

  /** One push's result. */
  datatype Push = Push(member: nat, ok: bool)

  datatype Answer = Nil | QuorumError(failed: nat, total: nat)

  datatype Outcome = Full | Degraded | Failed

  /** How many of the replicas have succeeded (or failed) so far. */
  function Count(arrived: seq<Push>, replicas: seq<nat>, ok: bool): nat {
    if arrived == [] then 0
    else
      var r := arrived[|arrived| - 1];
      Count(arrived[..|arrived| - 1], replicas, ok) + (if r.member in replicas && r.ok == ok then 1 else 0)
  }

  predicate Met(arrived: seq<Push>, reps: seq<seq<nat>>, rf: nat) {
    forall k :: 0 <= k < |reps| ==> Count(arrived, reps[k], true) >= Replication.Quorum(rf)
  }

  predicate PastBudget(arrived: seq<Push>, replicas: seq<nat>, rf: nat) {
    Count(arrived, replicas, false) > rf - Replication.Quorum(rf)
  }

  /** Keys for which a quorum has become impossible. */
  function Lost(arrived: seq<Push>, reps: seq<seq<nat>>, rf: nat): set<nat> {
    set k | 0 <= k < |reps| && PastBudget(arrived, reps[k], rf)
  }

  function Members(arrived: seq<Push>): set<nat> { set i | 0 <= i < |arrived| :: arrived[i].member }

  function SeqSet(s: seq<nat>): set<nat> { set x | x in s }

  /** Every member is pushed to once, and every replica of a key is pushed to. */
  predicate Complete(arrivals: seq<Push>, reps: seq<seq<nat>>, rf: nat) {
    && (forall i, j :: 0 <= i < j < |arrivals| ==> arrivals[i].member != arrivals[j].member)
    && (forall k :: 0 <= k < |reps| ==> |SeqSet(reps[k])| == rf && SeqSet(reps[k]) <= Members(arrivals))
  }

  /** Successes and failures add up to the replicas heard from. */
  lemma {:induction false} CountsAddUp(arrived: seq<Push>, replicas: seq<nat>)
    requires forall i, j :: 0 <= i < j < |arrived| ==> arrived[i].member != arrived[j].member
    ensures Count(arrived, replicas, true) + Count(arrived, replicas, false) == |SeqSet(replicas) * Members(arrived)|
  {
    if arrived == [] {
      assert Members(arrived) == {};
      assert SeqSet(replicas) * {} == {};
    } else {
      var n := |arrived| - 1;
      var p, m := arrived[..n], arrived[n].member;
      CountsAddUp(p, replicas);
      MembersNext(p, arrived[n]);
      assert arrived == p + [arrived[n]];
      assert m !in Members(p);
      MeetOneMore(SeqSet(replicas), Members(p), m);
    }
  }

  lemma MembersNext(p: seq<Push>, r: Push)
    ensures Members(p + [r]) == Members(p) + {r.member}
  {
    var all := p + [r];
    forall m | m in Members(p) + {r.member} ensures m in Members(all) {
      if m == r.member {
        assert all[|p|].member == m;
      } else {
        var i :| 0 <= i < |p| && p[i].member == m;
        assert all[i].member == m;
      }
    }
  }

  lemma MeetOneMore(S: set<nat>, M: set<nat>, m: nat)
    requires m !in M
    ensures |S * (M + {m})| == |S * M| + (if m in S then 1 else 0)
  {
    if m in S {
      assert S * (M + {m}) == S * M + {m};
    } else {
      assert S * (M + {m}) == S * M;
    }
  }

  lemma {:induction false} CountGrows(arrived: seq<Push>, replicas: seq<nat>, ok: bool, d: nat)
    requires d <= |arrived|
    ensures Count(arrived[..d], replicas, ok) <= Count(arrived, replicas, ok)
  {
    if d < |arrived| {
      CountGrows(arrived[..|arrived| - 1], replicas, ok, d);
      assert arrived[..|arrived| - 1][..d] == arrived[..d];
    } else {
      assert arrived[..d] == arrived;
    }
  }

  /** A key never both meets quorum and passes its failure budget, at whatever two
      moments; and once everyone answered it has done one of them. */
  lemma QuorumOrLost(arrivals: seq<Push>, reps: seq<seq<nat>>, rf: nat, k: nat, d: nat, e: nat)
    requires Complete(arrivals, reps, rf) && k < |reps| && d <= |arrivals| && e <= |arrivals|
    ensures !(Count(arrivals[..d], reps[k], true) >= Replication.Quorum(rf) && PastBudget(arrivals[..e], reps[k], rf))
    ensures Count(arrivals, reps[k], true) >= Replication.Quorum(rf) || PastBudget(arrivals, reps[k], rf)
  {
    CountsAddUp(arrivals, reps[k]);
    assert SeqSet(reps[k]) * Members(arrivals) == SeqSet(reps[k]);
    CountGrows(arrivals, reps[k], true, d);
    CountGrows(arrivals, reps[k], false, e);
  }

  /** The replicas that answered ok. */
  function Saying(arrived: seq<Push>, replicas: seq<nat>, ok: bool): set<nat> {
    set i | 0 <= i < |arrived| && arrived[i].ok == ok && arrived[i].member in replicas :: arrived[i].member
  }

  lemma {:induction false} CountIsSaying(arrived: seq<Push>, replicas: seq<nat>, ok: bool)
    requires forall i, j :: 0 <= i < j < |arrived| ==> arrived[i].member != arrived[j].member
    ensures |Saying(arrived, replicas, ok)| == Count(arrived, replicas, ok)
  {
    if arrived == [] {
      assert Saying(arrived, replicas, ok) == {};
    } else {
      var n := |arrived| - 1;
      var p, r := arrived[..n], arrived[n];
      CountIsSaying(p, replicas, ok);
      assert arrived == p + [r];
      SayingNext(p, r, replicas, ok);
      forall i | 0 <= i < n ensures p[i].member != r.member { assert p[i] == arrived[i]; }
    }
  }

  lemma SayingNext(p: seq<Push>, r: Push, replicas: seq<nat>, ok: bool)
    ensures Saying(p + [r], replicas, ok) == Saying(p, replicas, ok) + (if r.ok == ok && r.member in replicas then {r.member} else {})
  {
    var all := p + [r];
    assert all[|p|] == r;
    forall m | m in Saying(p, replicas, ok) ensures m in Saying(all, replicas, ok) {
      var i :| 0 <= i < |p| && p[i].ok == ok && p[i].member in replicas && p[i].member == m;
      assert all[i] == p[i];
    }
  }

  /** A majority of the key's replicas has taken the batch. */
  predicate MostTook(arrived: seq<Push>, replicas: seq<nat>, rf: nat) {
    2 * |Saying(arrived, replicas, true)| > rf
  }

  /** So many of the key's replicas have refused it that no majority is left. */
  predicate HalfRefused(arrived: seq<Push>, replicas: seq<nat>, rf: nat) {
    2 * |Saying(arrived, replicas, false)| >= rf
  }

  lemma InPlainTerms(arrived: seq<Push>, reps: seq<seq<nat>>, rf: nat)
    requires forall i, j :: 0 <= i < j < |arrived| ==> arrived[i].member != arrived[j].member
    ensures Met(arrived, reps, rf) <==> forall k :: 0 <= k < |reps| ==> MostTook(arrived, reps[k], rf)
    ensures Lost(arrived, reps, rf) == set k | 0 <= k < |reps| && HalfRefused(arrived, reps[k], rf)
  {
    forall k | 0 <= k < |reps|
      ensures Count(arrived, reps[k], true) >= Replication.Quorum(rf) <==> MostTook(arrived, reps[k], rf)
      ensures PastBudget(arrived, reps[k], rf) <==> HalfRefused(arrived, reps[k], rf)
    {
      CountIsSaying(arrived, reps[k], true);
      CountIsSaying(arrived, reps[k], false);
      Replication.MajorityIff(rf, Count(arrived, reps[k], true));
      Replication.MajorityIff(rf, Count(arrived, reps[k], false));
    }
  }

  /** Two batches that were both answered nil share, at every key, a replica that took
      both: what one acknowledged the other's replicas have seen. */
  lemma AcknowledgersMeet(a: seq<Push>, b: seq<Push>, replicas: seq<nat>, rf: nat)
    requires |SeqSet(replicas)| == rf && MostTook(a, replicas, rf) && MostTook(b, replicas, rf)
    ensures exists m :: m in Saying(a, replicas, true) && m in Saying(b, replicas, true)
  {
    Replication.MajoritiesMeet(SeqSet(replicas), Saying(a, replicas, true), Saying(b, replicas, true));
  }

  /** When the collector answers nil, every key may be acknowledged to the client: if
      the replicas that said yes hold x, the deployment's acknowledgement step is
      enabled. */
  lemma NilAllowsAck(c: Replication.Cluster, s: Replication.State, x: Samples.Sample, arrived: seq<Push>, reps: seq<seq<nat>>, k: nat)
    requires forall i, j :: 0 <= i < j < |arrived| ==> arrived[i].member != arrived[j].member
    requires Met(arrived, reps, c.rf) && k < |reps| && Saying(arrived, reps[k], true) <= Replication.AcksOf(s.acks, x)
    ensures Replication.Enabled(c, s, Replication.AckClient(x))
  {
    CountIsSaying(arrived, reps[k], true);
    SubsetSize(Saying(arrived, reps[k], true), Replication.AcksOf(s.acks, x));
  }

  /** The moment the batch is decided: the first at which some key is lost or all
      have their quorum. */
  predicate DecidedAt(arrivals: seq<Push>, reps: seq<seq<nat>>, rf: nat, d: nat) {
    && d <= |arrivals|
    && !Undecided(arrivals[..d], reps, rf)
    && forall e :: 0 <= e < d ==> Undecided(arrivals[..e], reps, rf)
  }

  predicate Undecided(arrived: seq<Push>, reps: seq<seq<nat>>, rf: nat) {
    !Met(arrived, reps, rf) && Lost(arrived, reps, rf) == {}
  }

  function AnswerAt(arrived: seq<Push>, reps: seq<seq<nat>>, rf: nat): Answer {
    if Lost(arrived, reps, rf) != {} then QuorumError(|Lost(arrived, reps, rf)|, |reps|) else Nil
  }

  /** What has been sent on the decided channel after i results. */
  predicate AnsweredBy(arrivals: seq<Push>, reps: seq<seq<nat>>, rf: nat, decided: seq<Answer>, d: nat, i: nat) {
    i <= |arrivals| && d <= i
    && if decided == [] then forall e :: 0 <= e <= i ==> Undecided(arrivals[..e], reps, rf)
       else DecidedAt(arrivals, reps, rf, d) && decided == [AnswerAt(arrivals[..d], reps, rf)]
  }

  lemma AnsweredStep(arrivals: seq<Push>, reps: seq<seq<nat>>, rf: nat, before: seq<Answer>, d0: nat, decided: seq<Answer>, d: nat, i: nat)
    requires i < |arrivals| && AnsweredBy(arrivals, reps, rf, before, d0, i)
    requires before != [] ==> decided == before && d == d0
    requires before == [] ==> decided == if Undecided(arrivals[..i + 1], reps, rf) then [] else [AnswerAt(arrivals[..i + 1], reps, rf)]
    requires before == [] ==> d == if Undecided(arrivals[..i + 1], reps, rf) then d0 else i + 1
    ensures AnsweredBy(arrivals, reps, rf, decided, d, i + 1)
  {
  }

  function ShortOf(acks: seq<nat>, need: nat): set<nat> {
    set k | 0 <= k < |acks| && acks[k] < need
  }

  /** One result counted into its member's keys. */
  method TakeResult(r: Push, keys: seq<nat>, acks0: seq<nat>, fails0: seq<nat>, pending0: nat, need: nat, maxFail: nat)
    returns (acks: seq<nat>, fails: seq<nat>, pending: nat, keyFailed: bool)
    requires |acks0| == |fails0| && forall i :: 0 <= i < |keys| ==> keys[i] < |acks0|
    requires forall i, j :: 0 <= i < j < |keys| ==> keys[i] < keys[j]
    requires pending0 == |ShortOf(acks0, need)|
    ensures |acks| == |fails| == |acks0|
    ensures forall k :: 0 <= k < |acks| ==> acks[k] == acks0[k] + (if r.ok && k in keys then 1 else 0)
    ensures forall k :: 0 <= k < |acks| ==> fails[k] == fails0[k] + (if !r.ok && k in keys then 1 else 0)
    ensures pending == |ShortOf(acks, need)|
    ensures keyFailed <==> exists k :: 0 <= k < |fails| && fails0[k] == maxFail && fails[k] == maxFail + 1
  {
    acks, fails, pending, keyFailed := acks0, fails0, pending0, false;
    var j := 0;
    while j < |keys|
      invariant 0 <= j <= |keys| && |acks| == |fails| == |acks0|
      invariant forall k :: 0 <= k < |acks| ==> acks[k] == acks0[k] + (if r.ok && k in keys[..j] then 1 else 0)
      invariant forall k :: 0 <= k < |acks| ==> fails[k] == fails0[k] + (if !r.ok && k in keys[..j] then 1 else 0)
      invariant pending == |ShortOf(acks, need)|
      invariant keyFailed <==> exists k :: 0 <= k < |fails| && fails0[k] == maxFail && fails[k] == maxFail + 1
    {
      var ki := keys[j];
      assert ki !in keys[..j];
      assert keys[..j + 1] == keys[..j] + [ki];
      if !r.ok {
        fails := fails[ki := fails[ki] + 1];
        if fails[ki] == maxFail + 1 { keyFailed := true; }
      } else {
        OneMoreAck(acks, ki, need);
        acks := acks[ki := acks[ki] + 1];
        if acks[ki] == need { pending := pending - 1; }
      }
      j := j + 1;
    }
    assert keys[..j] == keys;
  }

  lemma OneMoreAck(acks: seq<nat>, ki: nat, need: nat)
    requires ki < |acks|
    ensures |ShortOf(acks[ki := acks[ki] + 1], need)| == |ShortOf(acks, need)| - (if acks[ki] + 1 == need then 1 else 0)
  {
    var after := acks[ki := acks[ki] + 1];
    assert ShortOf(acks, need) == ShortOf(after, need) + (if acks[ki] + 1 == need then {ki} else {});
  }

  /** The collector's tallies and its answer after some results. */
  datatype Collector = Collector(acks: seq<nat>, fails: seq<nat>, pending: nat, decided: seq<Answer>)

  ghost predicate CollectorOk(col: Collector, arrivals: seq<Push>, i: nat, reps: seq<seq<nat>>, rf: nat, d: nat) {
    && i <= |arrivals| && Tallied(arrivals[..i], reps, col.acks, col.fails)
    && col.pending == |ShortOf(col.acks, Replication.Quorum(rf))|
    && AnsweredBy(arrivals, reps, rf, col.decided, d, i)
  }

  method CollectOne(col0: Collector, arrivals: seq<Push>, i: nat, reps: seq<seq<nat>>, keys: seq<nat>, rf: nat, ghost d0: nat)
    returns (col: Collector, ghost d: nat)
    requires rf > 0 && i < |arrivals| && IsKeysOf(keys, reps, arrivals[i].member)
    requires CollectorOk(col0, arrivals, i, reps, rf, d0)
    ensures CollectorOk(col, arrivals, i + 1, reps, rf, d)
  {
    var need, maxFail := Replication.Quorum(rf), rf - Replication.Quorum(rf);
    var acks, fails, pending, keyFailed := TakeResult(arrivals[i], keys, col0.acks, col0.fails, col0.pending, need, maxFail);
    TallyStep(arrivals, i, reps, keys, col0.acks, col0.fails, acks, fails);
    LostByTally(arrivals[..i + 1], reps, rf, acks, fails);
    var decided := col0.decided;
    d := d0;
    if decided == [] {
      assert Undecided(arrivals[..i], reps, rf);
      DecidesHere(arrivals, i + 1, reps, rf, acks, col0.fails, fails, keyFailed);
      if keyFailed {
        d := i + 1;
        decided := decided + [QuorumError(|LostOf(fails, maxFail)|, |reps|)];
      } else if pending == 0 {
        d := i + 1;
        decided := decided + [Nil];
      }
    }
    AnsweredStep(arrivals, reps, rf, col0.decided, d0, decided, d, i);
    col := Collector(acks, fails, pending, decided);
  }

  method CollectAll(arrivals: seq<Push>, reps: seq<seq<nat>>, memberKeys: map<nat, seq<nat>>, rf: nat)
    returns (col: Collector, anyFailure: bool, ghost d: nat)
    requires rf > 0 && |reps| > 0 && IsMemberKeys(memberKeys, reps)
    requires forall i :: 0 <= i < |arrivals| ==> arrivals[i].member in memberKeys
    ensures CollectorOk(col, arrivals, |arrivals|, reps, rf, d)
    ensures anyFailure <==> exists j :: 0 <= j < |arrivals| && !arrivals[j].ok
  {
    var zero := seq(|reps|, i => 0);
    AllShort(zero, Replication.Quorum(rf));
    col, anyFailure, d := Collector(zero, zero, |reps|, []), false, 0;
    NothingYet(arrivals, reps, rf);
    var i := 0;
    while i < |arrivals|
      invariant 0 <= i <= |arrivals|
      invariant CollectorOk(col, arrivals, i, reps, rf, d)
      invariant anyFailure <==> exists j :: 0 <= j < i && !arrivals[j].ok
    {
      anyFailure := anyFailure || !arrivals[i].ok;
      assert IsKeysOf(memberKeys[arrivals[i].member], reps, arrivals[i].member);
      col, d := CollectOne(col, arrivals, i, reps, memberKeys[arrivals[i].member], rf, d);
      i := i + 1;
    }
  }

  /** The collector. It answers exactly once, at the first moment the outcome is
      certain: nil when every key has its quorum, an error when some key cannot reach
      it; one of the two always happens. The final report, made when every push has
      ended, is "failed" exactly when the answer was an error. */
  method Collect(arrivals: seq<Push>, reps: seq<seq<nat>>, memberKeys: map<nat, seq<nat>>, rf: nat)
    returns (decided: seq<Answer>, report: Outcome, ghost d: nat)
    requires rf > 0 && |reps| > 0
    requires Complete(arrivals, reps, rf) && IsMemberKeys(memberKeys, reps)
    requires forall i :: 0 <= i < |arrivals| ==> arrivals[i].member in memberKeys
    ensures |decided| == 1 && DecidedAt(arrivals, reps, rf, d)
    ensures decided[0] == Nil <==> Met(arrivals[..d], reps, rf)
    ensures decided[0] != Nil <==> Lost(arrivals[..d], reps, rf) != {}
    ensures decided[0] != Nil ==> decided[0] == QuorumError(|Lost(arrivals[..d], reps, rf)|, |reps|)
    ensures decided[0] == Nil <==> forall k :: 0 <= k < |reps| ==> MostTook(arrivals[..d], reps[k], rf)
    ensures decided[0] != Nil <==> exists k :: 0 <= k < |reps| && HalfRefused(arrivals[..d], reps[k], rf)
    ensures decided[0] != Nil ==> decided[0] == QuorumError(|set k | 0 <= k < |reps| && HalfRefused(arrivals[..d], reps[k], rf)|, |reps|)
    ensures forall e :: 0 <= e < d ==> StillOpen(arrivals[..e], reps, rf)
    ensures report == Failed <==> decided[0] != Nil
    ensures report == Full <==> forall i :: 0 <= i < |arrivals| ==> arrivals[i].ok
  {
    var col, anyFailure;
    col, anyFailure, d := CollectAll(arrivals, reps, memberKeys, rf);
    assert arrivals[..|arrivals|] == arrivals;
    LostByTally(arrivals, reps, rf, col.acks, col.fails);
    Finale(arrivals, reps, rf, d, col.decided);
    decided := col.decided;
    report := if LostOf(col.fails, rf - Replication.Quorum(rf)) != {} then Failed else if anyFailure then Degraded else Full;
    LostMeansFailure(arrivals, reps, rf);
    DecidedPlainly(arrivals, reps, rf, d, Lost(arrivals[..d], reps, rf));
  }

  /** Some key has no majority yet, and none has lost the chance of one. */
  predicate StillOpen(arrived: seq<Push>, reps: seq<seq<nat>>, rf: nat) {
    && (exists k :: 0 <= k < |reps| && !MostTook(arrived, reps[k], rf))
    && (forall k :: 0 <= k < |reps| ==> !HalfRefused(arrived, reps[k], rf))
  }

  /** The moment of the decision and its reason, by counting replicas. */
  lemma DecidedPlainly(arrivals: seq<Push>, reps: seq<seq<nat>>, rf: nat, d: nat, lost: set<nat>)
    requires Complete(arrivals, reps, rf) && DecidedAt(arrivals, reps, rf, d) && lost == Lost(arrivals[..d], reps, rf)
    ensures lost == set k | 0 <= k < |reps| && HalfRefused(arrivals[..d], reps[k], rf)
    ensures Met(arrivals[..d], reps, rf) <==> forall k :: 0 <= k < |reps| ==> MostTook(arrivals[..d], reps[k], rf)
    ensures lost != {} <==> exists k :: 0 <= k < |reps| && HalfRefused(arrivals[..d], reps[k], rf)
    ensures forall e :: 0 <= e < d ==> StillOpen(arrivals[..e], reps, rf)
  {
    InPlainTerms(arrivals[..d], reps, rf);
    if k :| 0 <= k < |reps| && HalfRefused(arrivals[..d], reps[k], rf) { assert k in lost; }
    if k :| k in lost { assert HalfRefused(arrivals[..d], reps[k], rf); }
    forall e | 0 <= e < d ensures StillOpen(arrivals[..e], reps, rf) {
      InPlainTerms(arrivals[..e], reps, rf);
      assert Undecided(arrivals[..e], reps, rf);
      NoneLost(arrivals[..e], reps, rf);
    }
  }

  lemma NoneLost(arrived: seq<Push>, reps: seq<seq<nat>>, rf: nat)
    requires Lost(arrived, reps, rf) == {} == set k | 0 <= k < |reps| && HalfRefused(arrived, reps[k], rf)
    ensures forall k :: 0 <= k < |reps| ==> !HalfRefused(arrived, reps[k], rf)
  {
    forall k | 0 <= k < |reps| ensures !HalfRefused(arrived, reps[k], rf) { assert k !in Lost(arrived, reps, rf); }
  }

  lemma NothingYet(arrivals: seq<Push>, reps: seq<seq<nat>>, rf: nat)
    requires rf > 0 && |reps| > 0
    ensures Undecided(arrivals[..0], reps, rf)
  {
    assert Count(arrivals[..0], reps[0], true) == 0;
  }

  lemma LostMeansFailure(arrivals: seq<Push>, reps: seq<seq<nat>>, rf: nat)
    requires rf > 0
    ensures Lost(arrivals, reps, rf) != {} ==> exists i :: 0 <= i < |arrivals| && !arrivals[i].ok
  {
    if k :| k in Lost(arrivals, reps, rf) { SomeFailure(arrivals, reps[k]); }
  }

  function LostOf(fails: seq<nat>, maxFail: nat): set<nat> {
    set k | 0 <= k < |fails| && fails[k] > maxFail
  }

  predicate Tallied(arrived: seq<Push>, reps: seq<seq<nat>>, acks: seq<nat>, fails: seq<nat>) {
    && |acks| == |fails| == |reps|
    && forall k :: 0 <= k < |reps| ==> acks[k] == Count(arrived, reps[k], true) && fails[k] == Count(arrived, reps[k], false)
  }

  lemma TallyStep(arrivals: seq<Push>, i: nat, reps: seq<seq<nat>>, keys: seq<nat>, acks0: seq<nat>, fails0: seq<nat>, acks: seq<nat>, fails: seq<nat>)
    requires i < |arrivals| && IsKeysOf(keys, reps, arrivals[i].member)
    requires Tallied(arrivals[..i], reps, acks0, fails0) && |acks| == |fails| == |reps|
    requires forall k :: 0 <= k < |acks| ==> acks[k] == acks0[k] + (if arrivals[i].ok && k in keys then 1 else 0)
    requires forall k :: 0 <= k < |fails| ==> fails[k] == fails0[k] + (if !arrivals[i].ok && k in keys then 1 else 0)
    ensures Tallied(arrivals[..i + 1], reps, acks, fails)
  {
    assert arrivals[..i + 1][..i] == arrivals[..i];
    forall k | 0 <= k < |reps|
      ensures acks[k] == Count(arrivals[..i + 1], reps[k], true) && fails[k] == Count(arrivals[..i + 1], reps[k], false)
    {
      assert k in keys <==> arrivals[i].member in reps[k];
    }
  }

  lemma LostByTally(arrived: seq<Push>, reps: seq<seq<nat>>, rf: nat, acks: seq<nat>, fails: seq<nat>)
    requires rf > 0 && |fails| == |reps| && forall k :: 0 <= k < |reps| ==> fails[k] == Count(arrived, reps[k], false)
    ensures LostOf(fails, rf - Replication.Quorum(rf)) == Lost(arrived, reps, rf)
  {
  }

  lemma {:induction false} AllShort(acks: seq<nat>, need: nat)
    requires forall k :: 0 <= k < |acks| ==> acks[k] < need
    ensures |ShortOf(acks, need)| == |acks|
  {
    if acks == [] {
      assert ShortOf(acks, need) == {};
    } else {
      var n := |acks| - 1;
      AllShort(acks[..n], need);
      assert ShortOf(acks, need) == ShortOf(acks[..n], need) + {n};
    }
  }

  /** A result decides the batch exactly when it makes the first key lose, or the
      last one meet its quorum. */
  lemma DecidesHere(arrivals: seq<Push>, i: nat, reps: seq<seq<nat>>, rf: nat, acks: seq<nat>, fails0: seq<nat>, fails: seq<nat>, keyFailed: bool)
    requires rf > 0 && 0 < i <= |arrivals| && |fails0| == |reps| && Tallied(arrivals[..i], reps, acks, fails)
    requires forall k :: 0 <= k < |reps| ==> fails0[k] == Count(arrivals[..i - 1], reps[k], false) && fails[k] <= fails0[k] + 1
    requires Lost(arrivals[..i - 1], reps, rf) == {}
    requires keyFailed <==> exists k :: 0 <= k < |fails| && fails0[k] == rf - Replication.Quorum(rf) && fails[k] == rf - Replication.Quorum(rf) + 1
    ensures keyFailed <==> Lost(arrivals[..i], reps, rf) != {}
    ensures |ShortOf(acks, Replication.Quorum(rf))| == 0 <==> Met(arrivals[..i], reps, rf)
  {
    if keyFailed {
      var k :| 0 <= k < |fails| && fails0[k] == rf - Replication.Quorum(rf) && fails[k] == rf - Replication.Quorum(rf) + 1;
      assert k in Lost(arrivals[..i], reps, rf);
    }
    if k :| k in Lost(arrivals[..i], reps, rf) {
      assert k !in Lost(arrivals[..i - 1], reps, rf);
      assert fails0[k] == rf - Replication.Quorum(rf);
    }
    if Met(arrivals[..i], reps, rf) {
      assert ShortOf(acks, Replication.Quorum(rf)) == {};
    } else {
      var k :| 0 <= k < |reps| && Count(arrivals[..i], reps[k], true) < Replication.Quorum(rf);
      assert k in ShortOf(acks, Replication.Quorum(rf));
    }
  }

  lemma {:induction false} SomeFailure(arrived: seq<Push>, replicas: seq<nat>)
    requires Count(arrived, replicas, false) > 0
    ensures exists i :: 0 <= i < |arrived| && !arrived[i].ok
  {
    var n := |arrived| - 1;
    if arrived[n].ok {
      SomeFailure(arrived[..n], replicas);
      var i :| 0 <= i < n && !arrived[..n][i].ok;
      assert !arrived[i].ok;
    }
  }

  lemma DecidedInTheEnd(arrivals: seq<Push>, reps: seq<seq<nat>>, rf: nat)
    requires Complete(arrivals, reps, rf)
    ensures !Undecided(arrivals, reps, rf)
  {
    if k :| 0 <= k < |reps| && Count(arrivals, reps[k], true) < Replication.Quorum(rf) {
      QuorumOrLost(arrivals, reps, rf, k, 0, 0);
      assert k in Lost(arrivals, reps, rf);
    }
  }

  /** By the end the batch was decided, and later results cannot contradict it. */
  lemma Finale(arrivals: seq<Push>, reps: seq<seq<nat>>, rf: nat, d: nat, decided: seq<Answer>)
    requires Complete(arrivals, reps, rf) && |reps| > 0 && d <= |arrivals|
    requires AnsweredBy(arrivals, reps, rf, decided, d, |arrivals|)
    ensures decided != []
    ensures Lost(arrivals, reps, rf) != {} <==> Lost(arrivals[..d], reps, rf) != {}
    ensures Met(arrivals[..d], reps, rf) <==> Lost(arrivals[..d], reps, rf) == {}
  {
    assert arrivals[..|arrivals|] == arrivals;
    DecidedInTheEnd(arrivals, reps, rf);
    if k :| k in Lost(arrivals[..d], reps, rf) {
      CountGrows(arrivals, reps[k], false, d);
      assert k in Lost(arrivals, reps, rf);
      QuorumOrLost(arrivals, reps, rf, k, d, d);
    }
    if Met(arrivals[..d], reps, rf) {
      forall k | 0 <= k < |reps| ensures k !in Lost(arrivals, reps, rf) {
        QuorumOrLost(arrivals, reps, rf, k, d, |arrivals|);
      }
    }
  }
}
