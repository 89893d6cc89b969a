/** Start-up reclamation of compaction sources: which blocks a restart may delete
    on the word of other blocks' Sources lists, however those lists were written. */
module Reclaim {
  import opened Samples

  /** A block that present and validated: per series, its samples in the order its
      chunks decode. Validation binds every chunk to its series. */
  datatype Block = Block(tenant: string, level: nat, sources: seq<string>,
                         labels: map<nat, string>, series: map<nat, seq<Sample>>)

  predicate WellFormed(b: Block) {
    && b.labels.Keys == b.series.Keys
    && forall id :: id in b.series ==> OneSeries(SetOf(b.series[id]), id)
  }

  predicate AllWellFormed(bs: map<string, Block>) {
    forall n :: n in bs ==> WellFormed(bs[n])
  }

  function Held(b: Block): set<Sample> {
    set id, x | id in b.series && x in b.series[id] :: x
  }

  function AllHeld(bs: map<string, Block>): set<Sample> {
    set n, x | n in bs && x in Held(bs[n]) :: x
  }

  // ---- decodeBlockGens ----

  /** The winning generation and value bits at one series and timestamp. */
  datatype GV = GV(gen: int, bits: nat)

  type Gens = map<nat, map<int, GV>>

  function GVOf(x: Sample): GV { GV(x.gen, x.bits) }

  predicate GVOutranks(a: GV, b: GV) {
    if a.gen != b.gen then a.gen > b.gen else a.bits > b.bits
  }

  /** The loop's effect on one series: a later write, or a tie's larger value,
      replaces what its timestamp holds. */
  function SeriesGens(s: seq<Sample>): map<int, GV> {
    if s == [] then map[]
    else
      var m := SeriesGens(s[..|s| - 1]);
      var x := s[|s| - 1];
      if x.ts !in m || GVOutranks(GVOf(x), m[x.ts]) then m[x.ts := GVOf(x)] else m
  }

  /** The ground truth that proves one block supersedes another. */
  function BlockGens(b: Block): Gens {
    map id | id in b.series :: SeriesGens(b.series[id])
  }

  ghost predicate IsWinnerAt(s: seq<Sample>, ts: int, w: Sample) {
    w in s && w.ts == ts && forall y :: y in s && y.ts == ts ==> !Outranks(y, w)
  }

  /** Each timestamp of the series maps to its last-write-wins winner. */
  lemma {:induction false} SeriesGensAreWinners(s: seq<Sample>)
    ensures forall x :: x in s ==> x.ts in SeriesGens(s)
    ensures forall ts :: ts in SeriesGens(s) ==> exists w :: IsWinnerAt(s, ts, w) && SeriesGens(s)[ts] == GVOf(w)
  {
    if s != [] {
      var p, x := s[..|s| - 1], s[|s| - 1];
      assert s == p + [x];
      SeriesGensAreWinners(p);
      assert forall y :: y in s <==> y in p || y == x;
      forall ts | ts in SeriesGens(s) ensures exists w :: IsWinnerAt(s, ts, w) && SeriesGens(s)[ts] == GVOf(w) {
        if ts in SeriesGens(p) {
          var w :| IsWinnerAt(p, ts, w) && SeriesGens(p)[ts] == GVOf(w);
          assert IsWinnerAt(s, ts, if ts == x.ts && Outranks(x, w) then x else w);
        } else {
          assert IsWinnerAt(s, ts, x);
        }
      }
    }
  }

  method DecodeSeriesGens(s: seq<Sample>) returns (m: map<int, GV>)
    ensures m == SeriesGens(s)
  {
    m := map[];
    var i := 0;
    while i < |s|
      invariant 0 <= i <= |s|
      invariant m == SeriesGens(s[..i])
    {
      var x := s[i];
      assert s[..i + 1][..i] == s[..i];
      if x.ts !in m || GVOutranks(GVOf(x), m[x.ts]) {
        m := m[x.ts := GVOf(x)];
      }
      i := i + 1;
    }
    assert s[..i] == s;
  }

  method DecodeBlockGens(b: Block) returns (g: Gens)
    ensures g == BlockGens(b)
  {
    g := map[];
    var todo := b.series.Keys;
    while todo != {}
      invariant todo <= b.series.Keys && g.Keys == b.series.Keys - todo
      invariant forall id :: id in g ==> g[id] == SeriesGens(b.series[id])
      decreases todo
    {
      var id :| id in todo;
      var m := DecodeSeriesGens(b.series[id]);
      g := g[id := m];
      todo := todo - {id};
    }
  }

  // ---- survivorSupersedesSource ----

  /** Some other block holds exactly gv as its winner at (series, ts). */
  predicate Attested(others: set<Gens>, series: nat, ts: int, gv: GV) {
    exists g :: g in others && series in g && ts in g[series] && g[series][ts] == gv
  }

  /** The survivor holds this source sample faithfully, or a later write, or the
      rightful winner of an equal-generation tie. */
  predicate SampleSuperseded(survivor: Gens, others: set<Gens>, x: Sample) {
    && x.series in survivor && x.ts in survivor[x.series]
    && var sv := survivor[x.series][x.ts];
    && sv.gen >= x.gen
    && (sv.gen == x.gen && sv.bits != x.bits ==> sv.bits > x.bits && Attested(others, x.series, x.ts, sv))
  }

  predicate Supersedes(survivorId: string, survivor: Gens, others: set<Gens>, sourceId: string, source: Block) {
    && survivorId != sourceId
    && forall id :: id in source.series ==> id in survivor && forall x :: x in source.series[id] ==> SampleSuperseded(survivor, others, x)
  }

  method SurvivorSupersedesSource(survivorId: string, survivor: Gens, others: set<Gens>, sourceId: string, source: Block)
    returns (ok: bool)
    requires WellFormed(source)
    ensures ok <==> Supersedes(survivorId, survivor, others, sourceId, source)
  {
    if survivorId == sourceId { return false; }
    var todo := source.series.Keys;
    while todo != {}
      invariant todo <= source.series.Keys
      invariant forall id :: id in source.series && id !in todo ==>
        id in survivor && forall x :: x in source.series[id] ==> SampleSuperseded(survivor, others, x)
      decreases todo
    {
      var id :| id in todo;
      if id !in survivor { return false; }
      var s := source.series[id];
      var i := 0;
      while i < |s|
        invariant 0 <= i <= |s|
        invariant forall k :: 0 <= k < i ==> SampleSuperseded(survivor, others, s[k])
      {
        var x := s[i];
        assert x in SetOf(s);
        if x.ts !in survivor[id] || survivor[id][x.ts].gen < x.gen { return false; }
        var sv := survivor[id][x.ts];
        if sv.gen == x.gen && sv.bits != x.bits {
          if !GVOutranks(sv, GVOf(x)) || !Attested(others, id, x.ts, sv) { return false; }
        }
        i := i + 1;
      }
      todo := todo - {id};
    }
    ok := true;
  }

  /** A verified superseder replaces every sample of its source. */
  lemma SupersederCovers(svId: string, sv: Block, others: set<Gens>, srcId: string, src: Block)
    requires WellFormed(sv) && WellFormed(src)
    requires Supersedes(svId, BlockGens(sv), others, srcId, src)
    ensures CoversAll(Held(sv), Held(src))
  {
    forall x | x in Held(src) ensures Covers(Held(sv), x) {
      var id :| id in src.series && x in src.series[id];
      assert x in SetOf(src.series[id]);
      assert SampleSuperseded(BlockGens(sv), others, x);
      SeriesGensAreWinners(sv.series[id]);
      var w :| IsWinnerAt(sv.series[id], x.ts, w) && SeriesGens(sv.series[id])[x.ts] == GVOf(w);
      assert w in SetOf(sv.series[id]);
      assert w in Held(sv) && AtLeast(w, x);
    }
  }

  // ---- the supersession graph ----

  /** Who verifiably supersedes whom. A name that is no key is a retention root. */
  type VerifiedBy = map<string, set<string>>

  /** The blocks whose samples may attest a survivor's tie winners: its own listed
      sources that present, or that an interrupted retirement left aside. */
  function OthersOf(present: map<string, Block>, witnesses: map<string, Block>, sv: string): set<Gens>
    requires sv in present
  {
    set n | n in present[sv].sources && n != sv && (n in present || n in witnesses) ::
      BlockGens(if n in present then present[n] else witnesses[n])
  }

  /** An edge of the graph: sv lists src and was verified against it. */
  predicate Edge(present: map<string, Block>, witnesses: map<string, Block>, sv: string, src: string) {
    && sv in present && src in present && src in present[sv].sources
    && Supersedes(sv, BlockGens(present[sv]), OthersOf(present, witnesses, sv), src, present[src])
  }

  /** The verified superseders recorded for n. */
  function EdgesTo(vb: VerifiedBy, n: string): set<string> {
    if n in vb then vb[n] else {}
  }

  /** vb records the edges out of the survivors svs, and nothing else. */
  ghost predicate Records(present: map<string, Block>, witnesses: map<string, Block>, vb: VerifiedBy, svs: set<string>) {
    && (forall n :: n in vb ==> n in present && vb[n] != {})
    && (forall n, sv :: sv in EdgesTo(vb, n) <==> sv in svs && Edge(present, witnesses, sv, n))
  }

  ghost predicate IsVerifiedBy(present: map<string, Block>, witnesses: map<string, Block>, vb: VerifiedBy) {
    Records(present, witnesses, vb, present.Keys)
  }

  predicate Supported(vb: VerifiedBy, C: set<string>, n: string)
    requires n in vb
  {
    exists sv :: sv in vb[n] && (sv !in vb || sv in C)
  }

  /** Closed under: a verified superseder that is a root or already in C. */
  ghost predicate Closed(vb: VerifiedBy, C: set<string>) {
    forall n :: n in vb && Supported(vb, C, n) ==> n in C
  }

  ghost predicate LeastClosed(vb: VerifiedBy, R: set<string>) {
    R <= vb.Keys && Closed(vb, R) && forall C :: Closed(vb, C) ==> R <= C
  }

  /** The fixpoint: propagates outward from the roots until nothing changes. The
      keys are visited in an arbitrary order, and the outcome is the least closed
      set whatever that order is. */
  method ReclaimFixpoint(vb: VerifiedBy) returns (R: set<string>)
    ensures LeastClosed(vb, R)
  {
    R := {};
    var changed := true;
    while changed
      invariant R <= vb.Keys
      invariant forall C :: Closed(vb, C) ==> R <= C
      invariant !changed ==> Closed(vb, R)
      decreases vb.Keys - R, changed
    {
      changed := false;
      var todo := vb.Keys;
      ghost var before := R;
      while todo != {}
        invariant todo <= vb.Keys && before <= R <= vb.Keys
        invariant forall C :: Closed(vb, C) ==> R <= C
        invariant changed ==> before < R
        invariant !changed ==> R == before && forall n :: n in vb && n !in todo && Supported(vb, R, n) ==> n in R
        decreases todo
      {
        var n :| n in todo;
        todo := todo - {n};
        if n !in R && Supported(vb, R, n) {
          forall C | Closed(vb, C) ensures n in C {
            var sv :| sv in vb[n] && (sv !in vb || sv in R);
            assert Supported(vb, C, n);
          }
          R := R + {n};
          changed := true;
        }
      }
    }
  }

  /** The order of iteration cannot matter: there is only one least closed set. */
  lemma LeastClosedUnique(vb: VerifiedBy, R: set<string>, R': set<string>)
    requires LeastClosed(vb, R) && LeastClosed(vb, R')
    ensures R == R'
  {
    assert R <= R' && R' <= R;
  }

  lemma EdgeCovers(present: map<string, Block>, witnesses: map<string, Block>, sv: string, src: string)
    requires AllWellFormed(present) && Edge(present, witnesses, sv, src)
    ensures CoversAll(Held(present[sv]), Held(present[src]))
  {
    SupersederCovers(sv, present[sv], OthersOf(present, witnesses, sv), src, present[src]);
  }

  /** Some root of the graph replaces every sample of n. */
  ghost predicate RootCovers(present: map<string, Block>, vb: VerifiedBy, n: string)
    requires n in present
  {
    exists r :: r in present && r !in vb && CoversAll(Held(present[r]), Held(present[n]))
  }

  /** Every reclaimed block is replaced, sample by sample, by one retained root. */
  lemma ReclaimedIsCovered(present: map<string, Block>, witnesses: map<string, Block>, vb: VerifiedBy, R: set<string>)
    requires AllWellFormed(present) && IsVerifiedBy(present, witnesses, vb) && LeastClosed(vb, R)
    ensures forall n :: n in R ==> n in present && RootCovers(present, vb, n)
  {
    var D := set n | n in vb && RootCovers(present, vb, n);
    forall n | n in vb && Supported(vb, D, n) ensures n in D {
      var sv :| sv in vb[n] && (sv !in vb || sv in D);
      EdgeCovers(present, witnesses, sv, n);
      if sv in vb {
        var r :| r in present && r !in vb && CoversAll(Held(present[r]), Held(present[sv]));
        CoversTrans(Held(present[r]), Held(present[sv]), Held(present[n]));
      }
    }
    assert Closed(vb, D);
  }

  function Without(bs: map<string, Block>, M: set<string>): map<string, Block> {
    map n | n in bs && n !in M :: bs[n]
  }

  /** Deleting any part of the reclaimed set, as a crash part way through retirement
      does, leaves the last-write-wins view of the block directory unchanged. */
  lemma ReclaimKeepsView(present: map<string, Block>, witnesses: map<string, Block>, vb: VerifiedBy, R: set<string>, M: set<string>)
    requires AllWellFormed(present) && IsVerifiedBy(present, witnesses, vb) && LeastClosed(vb, R) && M <= R
    ensures View(AllHeld(Without(present, M))) == View(AllHeld(present))
  {
    ReclaimedIsCovered(present, witnesses, vb, R);
    var kept := Without(present, M);
    forall x | x in AllHeld(present) ensures Covers(AllHeld(kept), x) {
      var n :| n in present && x in Held(present[n]);
      if n in M {
        var r :| r in present && r !in vb && CoversAll(Held(present[r]), Held(present[n]));
        assert Covers(Held(present[r]), x);
        var y :| y in Held(present[r]) && AtLeast(y, x);
        assert r in kept && y in AllHeld(kept);
      } else {
        assert n in kept && AtLeast(x, x);
        assert x in AllHeld(kept);
      }
    }
    assert AllHeld(kept) <= AllHeld(present);
    DroppingCoveredKeepsView(AllHeld(present), AllHeld(kept));
  }

  /** A survivor that claims a tie must have a witness: where its winner shares the
      generation of a source's sample but not its value, one of the other blocks it lists,
      opened or set aside, has that very winner. */
  lemma TieNeedsWitness(present: map<string, Block>, witnesses: map<string, Block>, sv: string, src: string, id: nat, x: Sample, w: Sample)
    requires Edge(present, witnesses, sv, src) && id in present[src].series && x in present[src].series[id] && x.series == id
    requires id in present[sv].series && IsWinnerAt(present[sv].series[id], x.ts, w) && w.series == id
    requires w.gen == x.gen && w.bits != x.bits
    requires forall y :: y in present[sv].series[id] ==> y.series == id
    ensures exists n, v :: n in present[sv].sources && n != sv && HasWinner(present, witnesses, n, id, v) && v.ts == x.ts && v.gen == w.gen && v.bits == w.bits
  {
    var g := BlockGens(present[sv]);
    assert SampleSuperseded(g, OthersOf(present, witnesses, sv), x);
    SeriesGensAreWinners(present[sv].series[id]);
    var u :| IsWinnerAt(present[sv].series[id], x.ts, u) && g[id][x.ts] == GVOf(u);
    assert !Outranks(u, w) && !Outranks(w, u);
    assert GVOf(u) == GVOf(w);
    var o :| o in OthersOf(present, witnesses, sv) && id in o && x.ts in o[id] && o[id][x.ts] == GVOf(w);
    var n :| n in present[sv].sources && n != sv && (n in present || n in witnesses)
      && o == BlockGens(if n in present then present[n] else witnesses[n]);
    var b := if n in present then present[n] else witnesses[n];
    SeriesGensAreWinners(b.series[id]);
    var v :| IsWinnerAt(b.series[id], x.ts, v) && SeriesGens(b.series[id])[x.ts] == GVOf(v);
    assert HasWinner(present, witnesses, n, id, v);
  }

  /** Block n, opened or set aside, has v as the winner of its timestamp. */
  ghost predicate HasWinner(present: map<string, Block>, witnesses: map<string, Block>, n: string, id: nat, v: Sample) {
    && (n in present || n in witnesses)
    && var b := if n in present then present[n] else witnesses[n]; id in b.series && IsWinnerAt(b.series[id], v.ts, v)
  }

  // ---- what is reclaimed ----

  /** No block verifiably supersedes n. */
  ghost predicate IsRoot(present: map<string, Block>, witnesses: map<string, Block>, n: string) {
    forall sv :: sv in present ==> !Edge(present, witnesses, sv, n)
  }

  /** A chain of verified supersessions, from a block nobody supersedes down to n. */
  ghost predicate Chain(present: map<string, Block>, witnesses: map<string, Block>, path: seq<string>, n: string) {
    && |path| >= 2 && path[|path| - 1] == n && IsRoot(present, witnesses, path[0])
    && forall i :: 0 < i < |path| ==> Edge(present, witnesses, path[i - 1], path[i])
  }

  ghost predicate Chained(present: map<string, Block>, witnesses: map<string, Block>, n: string) {
    exists path :: Chain(present, witnesses, path, n)
  }

  lemma InGraphIff(present: map<string, Block>, witnesses: map<string, Block>, vb: VerifiedBy, n: string)
    requires IsVerifiedBy(present, witnesses, vb)
    ensures n in vb <==> !IsRoot(present, witnesses, n)
  {
    if n in vb {
      var sv :| sv in vb[n];
      assert sv in EdgesTo(vb, n);
      assert Edge(present, witnesses, sv, n);
    }
    if !IsRoot(present, witnesses, n) {
      var sv :| sv in present && Edge(present, witnesses, sv, n);
      assert sv in EdgesTo(vb, n);
    }
  }

  lemma LongerChain(present: map<string, Block>, witnesses: map<string, Block>, path: seq<string>, sv: string, n: string)
    requires Chain(present, witnesses, path, sv) && Edge(present, witnesses, sv, n)
    ensures Chain(present, witnesses, path + [n], n)
  {
    var longer := path + [n];
    forall i | 0 < i < |longer| ensures Edge(present, witnesses, longer[i - 1], longer[i]) {
      if i < |path| { assert longer[i - 1] == path[i - 1] && longer[i] == path[i]; }
    }
  }

  lemma RootIsUnchained(present: map<string, Block>, witnesses: map<string, Block>, n: string)
    requires IsRoot(present, witnesses, n)
    ensures !Chained(present, witnesses, n)
  {
    forall path ensures !Chain(present, witnesses, path, n) {
      var sv := if |path| >= 2 then path[|path| - 2] else n;
      assert Chain(present, witnesses, path, n) ==> Edge(present, witnesses, sv, n);
    }
  }

  /** Following a chain down from its root, every block on the way is reclaimed. */
  lemma {:induction false} ChainIsReclaimed(present: map<string, Block>, witnesses: map<string, Block>, vb: VerifiedBy, R: set<string>, path: seq<string>, n: string)
    requires IsVerifiedBy(present, witnesses, vb) && LeastClosed(vb, R) && Chain(present, witnesses, path, n)
    ensures n in R
    decreases |path|
  {
    var p := path[..|path| - 1];
    var sv := p[|p| - 1];
    assert Edge(present, witnesses, sv, n) && sv in EdgesTo(vb, n);
    if |p| >= 2 {
      assert Chain(present, witnesses, p, sv);
      ChainIsReclaimed(present, witnesses, vb, R, p, sv);
    } else {
      InGraphIff(present, witnesses, vb, sv);
    }
    assert Supported(vb, R, n);
  }

  /** Exactly the blocks at the end of a chain are reclaimed, for any graph, cyclic or
      forged. */
  lemma ReclaimedIffChained(present: map<string, Block>, witnesses: map<string, Block>, vb: VerifiedBy, R: set<string>)
    requires IsVerifiedBy(present, witnesses, vb) && LeastClosed(vb, R)
    ensures forall n :: n in R <==> Chained(present, witnesses, n)
  {
    var D := set n | n in vb && Chained(present, witnesses, n);
    forall n | n in vb && Supported(vb, D, n) ensures n in D {
      var sv :| sv in vb[n] && (sv !in vb || sv in D);
      assert sv in EdgesTo(vb, n);
      InGraphIff(present, witnesses, vb, sv);
      if sv in D {
        var path :| Chain(present, witnesses, path, sv);
        LongerChain(present, witnesses, path, sv, n);
      } else {
        assert Chain(present, witnesses, [sv, n], n);
      }
    }
    assert Closed(vb, D);
    forall n | Chained(present, witnesses, n) ensures n in R {
      var path :| Chain(present, witnesses, path, n);
      ChainIsReclaimed(present, witnesses, vb, R, path, n);
    }
  }

  /** What start-up keeps: the blocks at the end of no chain. */
  ghost predicate KeepsUnchained(present: map<string, Block>, witnesses: map<string, Block>, kept: map<string, Block>) {
    forall n :: n in kept <==> n in present && !Chained(present, witnesses, n)
  }

  /** A block that one nobody supersedes verifiably supersedes is not kept. */
  lemma SupersededGoes(present: map<string, Block>, witnesses: map<string, Block>, kept: map<string, Block>, sv: string, n: string)
    requires KeepsUnchained(present, witnesses, kept) && Edge(present, witnesses, sv, n) && IsRoot(present, witnesses, sv)
    ensures n !in kept
  {
    assert Chain(present, witnesses, [sv, n], n);
  }

  /** The graph has no cycle: a survivor ranks above what it supersedes. */
  ghost predicate Ranked(present: map<string, Block>, witnesses: map<string, Block>, rank: map<string, nat>, top: nat) {
    && (forall n :: n in present ==> n in rank && rank[n] <= top)
    && forall sv, n :: sv in present && n in present && Edge(present, witnesses, sv, n) ==> rank[sv] > rank[n]
  }

  lemma {:induction false} RankedIsChained(present: map<string, Block>, witnesses: map<string, Block>, rank: map<string, nat>, top: nat, n: string)
    requires Ranked(present, witnesses, rank, top) && n in present && !IsRoot(present, witnesses, n)
    ensures Chained(present, witnesses, n)
    decreases top - rank[n]
  {
    var sv :| sv in present && Edge(present, witnesses, sv, n);
    if IsRoot(present, witnesses, sv) {
      assert Chain(present, witnesses, [sv, n], n);
    } else {
      RankedIsChained(present, witnesses, rank, top, sv);
      var path :| Chain(present, witnesses, path, sv);
      LongerChain(present, witnesses, path, sv, n);
    }
  }

  /** Without cycles exactly the blocks nobody supersedes are kept. */
  lemma AcyclicKeepsRoots(present: map<string, Block>, witnesses: map<string, Block>, kept: map<string, Block>, rank: map<string, nat>, top: nat)
    requires KeepsUnchained(present, witnesses, kept) && Ranked(present, witnesses, rank, top)
    ensures forall n :: n in kept <==> n in present && IsRoot(present, witnesses, n)
  {
    forall n | n in present ensures Chained(present, witnesses, n) <==> !IsRoot(present, witnesses, n) {
      if IsRoot(present, witnesses, n) {
        RootIsUnchained(present, witnesses, n);
      } else {
        RankedIsChained(present, witnesses, rank, top, n);
      }
    }
  }

  // ---- NewBlockStore ----

  function AllSources(present: map<string, Block>): set<string> {
    set n, src | n in present && src in present[n].sources :: src
  }

  lemma ListedIff(present: map<string, Block>)
    ensures forall n :: n !in AllSources(present) <==> forall m :: m in present ==> n !in present[m].sources
  {
  }

  /** One survivor's listed sources, each checked against its samples. */
  method VerifySurvivor(present: map<string, Block>, witnesses: map<string, Block>, sv: string) returns (good: set<string>)
    requires AllWellFormed(present) && sv in present
    ensures forall n :: n in good <==> Edge(present, witnesses, sv, n)
  {
    good := {};
    var g := DecodeBlockGens(present[sv]);
    var others := OthersOf(present, witnesses, sv);
    var i := 0;
    while i < |present[sv].sources|
      invariant 0 <= i <= |present[sv].sources|
      invariant forall n :: n in good <==> n in present[sv].sources[..i] && Edge(present, witnesses, sv, n)
    {
      var src := present[sv].sources[i];
      if src in present {
        var ok := SurvivorSupersedesSource(sv, g, others, src, present[src]);
        if ok { good := good + {src}; }
      }
      i := i + 1;
    }
  }

  function AddEdges(vb: VerifiedBy, sv: string, good: set<string>): VerifiedBy {
    map n | n in vb.Keys + good :: EdgesTo(vb, n) + (if n in good then {sv} else {})
  }

  lemma AddEdgesRecords(present: map<string, Block>, witnesses: map<string, Block>, vb: VerifiedBy, svs: set<string>, sv: string, good: set<string>)
    requires Records(present, witnesses, vb, svs)
    requires forall n :: n in good <==> Edge(present, witnesses, sv, n)
    ensures Records(present, witnesses, AddEdges(vb, sv, good), svs + {sv})
  {
    var vb' := AddEdges(vb, sv, good);
    forall n ensures EdgesTo(vb', n) == EdgesTo(vb, n) + (if n in good then {sv} else {}) {
    }
    forall n | n in vb' ensures n in present && vb'[n] != {} {
      if n in good { assert sv in vb'[n]; }
    }
  }

  /** Phase 1: for each listed source that opened, the survivors that verifiably
      supersede it, with every reader still open. */
  method VerifyGraph(present: map<string, Block>, witnesses: map<string, Block>) returns (vb: VerifiedBy)
    requires AllWellFormed(present)
    ensures IsVerifiedBy(present, witnesses, vb)
  {
    vb := map[];
    var svs := present.Keys;
    while svs != {}
      invariant svs <= present.Keys
      invariant Records(present, witnesses, vb, present.Keys - svs)
      decreases svs
    {
      var sv :| sv in svs;
      var good := VerifySurvivor(present, witnesses, sv);
      AddEdgesRecords(present, witnesses, vb, present.Keys - svs, sv, good);
      vb := AddEdges(vb, sv, good);
      assert present.Keys - svs + {sv} == present.Keys - (svs - {sv});
      svs := svs - {sv};
    }
    assert present.Keys - svs == present.Keys;
  }

  datatype Startup = Refused(block: string) | Opened(kept: map<string, Block>, floor: int)

  function MaxGen(S: set<Sample>): (g: int)
    ensures g >= 0
    ensures forall x :: x in S ==> x.gen <= g
    ensures g == 0 || exists x :: x in S && x.gen == g
  {
    if S == {} then 0
    else
      var x :| x in S;
      var r := MaxGen(S - {x});
      assert forall y :: y in S ==> y == x || y in S - {x};
      if x.gen > r then x.gen else r
  }

  /** Start-up: refuses when a damaged block is replaced by no validated survivor;
      otherwise reclaims and seeds the generation counter past every kept block. */
  method NewBlockStore(present: map<string, Block>, failed: set<string>, witnesses: map<string, Block>) returns (r: Startup)
    requires AllWellFormed(present) && failed !! present.Keys
    ensures r.Refused? <==> exists n :: n in failed && forall m :: m in present ==> n !in present[m].sources
    ensures r.Refused? ==> r.block in failed && forall m :: m in present ==> r.block !in present[m].sources
    ensures r.Opened? ==> r.kept.Keys <= present.Keys && (forall n :: n in r.kept ==> r.kept[n] == present[n])
    ensures r.Opened? ==> View(AllHeld(r.kept)) == View(AllHeld(present))
    ensures r.Opened? ==> forall x :: x in AllHeld(present) ==> x.gen < r.floor
    ensures r.Opened? ==> r.floor == 1 || exists x :: x in AllHeld(r.kept) && r.floor == x.gen + 1
    ensures r.Opened? ==> KeepsUnchained(present, witnesses, r.kept)
    ensures r.Opened? ==> forall n :: n in present && n !in r.kept ==> exists sv :: sv in present && Edge(present, witnesses, sv, n)
    ensures r.Opened? ==> exists vb, R :: IsVerifiedBy(present, witnesses, vb) && LeastClosed(vb, R) && r.kept == Without(present, R)
  {
    var superseded := AllSources(present);
    ListedIff(present);
    if n :| n in failed && n !in superseded {
      return Refused(n);
    }
    var vb := VerifyGraph(present, witnesses);
    var R := ReclaimFixpoint(vb);
    var kept := Without(present, R);
    ReclaimKeepsView(present, witnesses, vb, R, R);
    ReclaimedIffChained(present, witnesses, vb, R);
    FloorCovers(AllHeld(present), AllHeld(kept));
    forall n | n in present && n !in kept ensures exists sv :: sv in present && Edge(present, witnesses, sv, n) {
      var sv :| sv in vb[n];
      assert sv in EdgesTo(vb, n) && Edge(present, witnesses, sv, n);
    }
    r := Opened(kept, MaxGen(AllHeld(kept)) + 1);
  }

  /** A counter seeded from the kept blocks is past every generation on disk. */
  lemma FloorCovers(all: set<Sample>, kept: set<Sample>)
    requires View(kept) == View(all)
    ensures forall x :: x in all ==> x.gen < MaxGen(kept) + 1
  {
    SameViewIff(kept, all);
    forall x | x in all ensures x.gen < MaxGen(kept) + 1 {
      assert Covers(kept, x);
      var y :| y in kept && AtLeast(y, x);
    }
  }

  /** Two blocks that name each other as sources are never both deleted: with no
      third superseder, neither is. */
  lemma MutualSupersessionKeepsBoth(vb: VerifiedBy, R: set<string>, a: string, b: string)
    requires LeastClosed(vb, R) && a in vb && b in vb && vb[a] == {b} && vb[b] == {a}
    ensures a !in R && b !in R
  {
    var C := vb.Keys - {a, b};
    forall n | n in vb && Supported(vb, C, n) ensures n in C {
      var sv :| sv in vb[n] && (sv !in vb || sv in C);
    }
    assert Closed(vb, C);
  }
}
