/** The in-memory inverted index: for every label pair the sorted series that carry
    it, kept through additions and deletions, and answered by intersecting lists. */
module Postings {
  import BitStreams

  type Text = seq<BitStreams.Byte>

  datatype Pair = Pair(name: Text, value: Text)

  // ---- the order of texts ----

  /** Byte by byte, a proper prefix first. */
  predicate TextLess(a: Text, b: Text) {
    b != [] && (a == [] || a[0] < b[0] || (a[0] == b[0] && TextLess(a[1..], b[1..])))
  }

  lemma {:induction false} TextOrder(a: Text, b: Text)
    ensures !(TextLess(a, b) && TextLess(b, a)) && !TextLess(a, a)
    ensures a == b || TextLess(a, b) || TextLess(b, a)
  {
    if a != [] { TextOrder(a[1..], a[1..]); }
    if a != [] && b != [] && a[0] == b[0] {
      TextOrder(a[1..], b[1..]);
      assert a == [a[0]] + a[1..] && b == [b[0]] + b[1..];
    }
  }

  /** a comes before b exactly when, after their longest common beginning, a ends or has
      the smaller byte. */
  lemma {:induction false} TextLessIff(a: Text, b: Text, k: nat)
    requires k <= |a| && k <= |b| && a[..k] == b[..k] && (k < |a| && k < |b| ==> a[k] != b[k])
    ensures TextLess(a, b) <==> k < |b| && (k == |a| || a[k] < b[k])
  {
    if k > 0 {
      assert a[0] == a[..k][0] == b[0];
      assert a[1..][..k - 1] == a[..k][1..] == b[1..][..k - 1];
      TextLessIff(a[1..], b[1..], k - 1);
    }
  }

  lemma {:induction false} TextTrans(a: Text, b: Text, c: Text)
    requires TextLess(a, b) && TextLess(b, c)
    ensures TextLess(a, c)
  {
    if a != [] && a[0] == b[0] == c[0] { TextTrans(a[1..], b[1..], c[1..]); }
  }

  /** By name, then by value. */
  predicate PairLess(a: Pair, b: Pair) {
    TextLess(a.name, b.name) || (a.name == b.name && TextLess(a.value, b.value))
  }

  lemma PairOrder(a: Pair, b: Pair)
    ensures !(PairLess(a, b) && PairLess(b, a)) && !PairLess(a, a)
    ensures a == b || PairLess(a, b) || PairLess(b, a)
  {
    TextOrder(a.name, b.name);
    TextOrder(a.value, b.value);
  }

  lemma PairTrans(a: Pair, b: Pair, c: Pair)
    requires PairLess(a, b) && PairLess(b, c)
    ensures PairLess(a, c)
  {
    TextOrder(a.name, b.name);
    TextOrder(b.name, c.name);
    if TextLess(a.name, b.name) && TextLess(b.name, c.name) { TextTrans(a.name, b.name, c.name); }
    if a.name == b.name == c.name { TextTrans(a.value, b.value, c.value); }
  }

  predicate AscendingTexts(s: seq<Text>) {
    forall i, j :: 0 <= i < j < |s| ==> TextLess(s[i], s[j])
  }

  /** s is S in order. */
  ghost predicate Sorts(s: seq<Text>, S: set<Text>) {
    AscendingTexts(s) && forall t :: t in s <==> t in S
  }

  function InsertText(s: seq<Text>, t: Text): seq<Text> {
    if s == [] || TextLess(s[|s| - 1], t) then s + [t] else InsertText(s[..|s| - 1], t) + [s[|s| - 1]]
  }

  lemma {:induction false} InsertTextSorts(s: seq<Text>, t: Text)
    requires AscendingTexts(s) && t !in s
    ensures AscendingTexts(InsertText(s, t)) && forall u :: u in InsertText(s, t) <==> u in s || u == t
  {
    if s != [] {
      var p, last := s[..|s| - 1], s[|s| - 1];
      assert s == p + [last];
      TextOrder(last, t);
      if TextLess(last, t) {
        forall i | 0 <= i < |p| ensures TextLess(p[i], t) { TextTrans(s[i], last, t); }
      } else {
        InsertTextSorts(p, t);
        var r := InsertText(p, t);
        forall i | 0 <= i < |r| ensures TextLess(r[i], last) {
          assert r[i] in r;
          if r[i] in p { var k :| 0 <= k < |p| && p[k] == r[i]; assert TextLess(s[k], last); }
        }
      }
    }
  }

  /** The keys of a map, in order, in whatever order the map yields them. */
  method SortedKeys<V>(m: map<Text, V>) returns (r: seq<Text>)
    ensures Sorts(r, m.Keys)
  {
    r := [];
    var todo := m.Keys;
    while todo != {}
      invariant todo <= m.Keys && Sorts(r, m.Keys - todo)
      decreases todo
    {
      var t :| t in todo;
      InsertTextSorts(r, t);
      r := InsertText(r, t);
      todo := todo - {t};
    }
  }

  /** What the index is about: each series with the labels of its first Add. */
  type Forward = map<nat, set<Pair>>

  /** The naive filter. */
  function Having(held: Forward, pair: Pair): set<nat> {
    set id | id in held && pair in held[id]
  }

  function Matching(held: Forward, matchers: seq<Pair>): set<nat> {
    set id | id in held && forall i :: 0 <= i < |matchers| ==> matchers[i] in held[id]
  }

  function PairSet(labels: seq<Pair>): set<Pair> { set l | l in labels }

  predicate Ascending(s: seq<nat>) {
    forall i, j :: 0 <= i < j < |s| ==> s[i] < s[j]
  }

  /** s lists exactly the members of S, ascending. */
  ghost predicate Lists(s: seq<nat>, S: set<nat>) {
    Ascending(s) && forall x :: x in s <==> x in S
  }

  lemma EmptyIff(s: seq<nat>, S: set<nat>)
    requires Lists(s, S)
    ensures s == [] <==> S == {}
  {
    if s != [] { assert s[0] in s; }
    if x :| x in S { assert x in s; }
  }

  /** So there is one answer. */
  lemma {:induction false} ListsUnique(s: seq<nat>, t: seq<nat>, S: set<nat>)
    requires Lists(s, S) && Lists(t, S)
    ensures s == t
  {
    EmptyIff(s, S);
    EmptyIff(t, S);
    if s != [] {
      var x := s[|s| - 1];
      assert x in s && x in t;
      var y := t[|t| - 1];
      assert y in t && y in s;
      assert x == y;
      var p, q := s[..|s| - 1], t[..|t| - 1];
      assert s == p + [x] && t == q + [x];
      assert Lists(p, S - {x}) by { ListsButLast(s, S); }
      assert Lists(q, S - {x}) by { ListsButLast(t, S); }
      ListsUnique(p, q, S - {x});
    }
  }

  lemma ListsButLast(s: seq<nat>, S: set<nat>)
    requires Lists(s, S) && s != []
    ensures Lists(s[..|s| - 1], S - {s[|s| - 1]})
  {
    var p, x := s[..|s| - 1], s[|s| - 1];
    assert s == p + [x];
    forall y ensures y in p <==> y in S && y != x {
      if y in p {
        var k :| 0 <= k < |p| && p[k] == y;
        assert s[k] == y;
        assert y in s;
      }
      if y in S && y != x { assert y in s; }
    }
  }

  // ---- sorted lists ----

  /** sort.Search: the first position at or after id. */
  method Search(s: seq<nat>, id: nat) returns (i: nat)
    requires Ascending(s)
    ensures i <= |s| && (forall k :: 0 <= k < i ==> s[k] < id) && (forall k :: i <= k < |s| ==> s[k] >= id)
  {
    var lo, hi := 0, |s|;
    while lo < hi
      invariant 0 <= lo <= hi <= |s|
      invariant (forall k :: 0 <= k < lo ==> s[k] < id) && (forall k :: hi <= k < |s| ==> s[k] >= id)
    {
      var mid := (lo + hi) / 2;
      if s[mid] >= id { hi := mid; } else { lo := mid + 1; }
    }
    i := lo;
  }

  method ContainsSorted(s: seq<nat>, id: nat) returns (b: bool)
    requires Ascending(s)
    ensures b <==> id in s
  {
    var i := Search(s, id);
    b := i < |s| && s[i] == id;
  }

  method InsertSorted(s: seq<nat>, id: nat, ghost S: set<nat>) returns (r: seq<nat>)
    requires Lists(s, S)
    ensures Lists(r, S + {id})
  {
    var i := Search(s, id);
    if i < |s| && s[i] == id {
      assert id in s && id in S && S + {id} == S;
      return s;
    }
    r := s[..i] + [id] + s[i..];
    assert s == s[..i] + s[i..];
    forall x ensures x in r <==> x in S + {id} {
      assert x in r <==> x in s[..i] || x == id || x in s[i..];
      assert x in s <==> x in s[..i] || x in s[i..];
    }
  }

  method RemoveSorted(s: seq<nat>, id: nat, ghost S: set<nat>) returns (r: seq<nat>)
    requires Lists(s, S)
    ensures Lists(r, S - {id})
  {
    var i := Search(s, id);
    if i < |s| && s[i] == id {
      r := s[..i] + s[i + 1..];
      assert s == s[..i] + [id] + s[i + 1..];
      forall x ensures x in r <==> x in S - {id} {
        assert x in r <==> x in s[..i] || x in s[i + 1..];
        assert x in s <==> x in s[..i] || x == id || x in s[i + 1..];
        if x in s[..i] { var k :| 0 <= k < i && s[k] == x; }
        if x in s[i + 1..] { var k :| i + 1 <= k < |s| && s[k] == x; }
      }
      return;
    }
    assert forall k :: 0 <= k < |s| ==> s[k] != id;
    assert S - {id} == S;
    r := s;
  }

  /** The two-pointer intersection. */
  method IntersectSorted(a: seq<nat>, b: seq<nat>, ghost A: set<nat>, ghost B: set<nat>) returns (out: seq<nat>)
    requires Lists(a, A) && Lists(b, B)
    ensures Lists(out, A * B)
  {
    out := [];
    var i, j := 0, 0;
    while i < |a| && j < |b|
      invariant 0 <= i <= |a| && 0 <= j <= |b| && Ascending(out)
      invariant forall x :: x in out <==> x in a[..i] && x in b[..j]
      invariant forall k :: 0 <= k < |out| ==> (i < |a| ==> out[k] < a[i]) && (j < |b| ==> out[k] < b[j])
      invariant i < |a| ==> forall k :: 0 <= k < j ==> b[k] < a[i]
      invariant j < |b| ==> forall k :: 0 <= k < i ==> a[k] < b[j]
      decreases |a| - i + |b| - j
    {
      assert a[..i + 1] == a[..i] + [a[i]] && b[..j + 1] == b[..j] + [b[j]];
      if a[i] == b[j] {
        out := out + [a[i]];
        i, j := i + 1, j + 1;
      } else if a[i] < b[j] {
        assert a[i] !in b[..j];
        i := i + 1;
      } else {
        assert b[j] !in a[..i];
        j := j + 1;
      }
    }
    IntersectionEnds(a, b, i, j);
  }

  /** Past the end of one list there is nothing in common left. */
  lemma IntersectionEnds(a: seq<nat>, b: seq<nat>, i: nat, j: nat)
    requires Ascending(a) && Ascending(b) && i <= |a| && j <= |b| && (i == |a| || j == |b|)
    requires i < |a| ==> forall k :: 0 <= k < j ==> b[k] < a[i]
    requires j < |b| ==> forall k :: 0 <= k < i ==> a[k] < b[j]
    ensures forall x :: x in a && x in b ==> x in a[..i] && x in b[..j]
  {
    forall x | x in a && x in b ensures x in a[..i] && x in b[..j] {
      var p :| 0 <= p < |a| && a[p] == x;
      var q :| 0 <= q < |b| && b[q] == x;
      assert p < i && q < j;
      assert a[..i][p] == x && b[..j][q] == x;
    }
  }

  // ---- the nested map ----

  type Index = map<Text, map<Text, seq<nat>>>

  function Get(m: Index, l: Pair): seq<nat> {
    if l.name in m && l.value in m[l.name] then m[l.name][l.value] else []
  }

  predicate Listed(m: Index, l: Pair) { l.name in m && l.value in m[l.name] }

  /** Every listed pair has its exact, non-empty list, every carried pair is listed,
      and no name is left without values. */
  ghost predicate Indexes(m: Index, held: Forward) {
    && (forall l :: Lists(Get(m, l), Having(held, l)))
    && (forall l {:trigger Listed(m, l)} :: Listed(m, l) ==> Get(m, l) != [])
    && (forall n :: n in m ==> m[n] != map[])
  }

  lemma ListedIff(m: Index, held: Forward, l: Pair)
    requires Indexes(m, held)
    ensures Listed(m, l) <==> Having(held, l) != {}
  {
    assert Lists(Get(m, l), Having(held, l));
    if Listed(m, l) { assert Get(m, l)[0] in Get(m, l); }
  }

  lemma IndexesNew(m: Index, held: Forward, id: nat)
    requires Indexes(m, held) && id !in held
    ensures Indexes(m, held[id := {}])
  {
    forall l ensures Lists(Get(m, l), Having(held[id := {}], l)) {
      assert Having(held[id := {}], l) == Having(held, l);
      assert Lists(Get(m, l), Having(held, l));
    }
  }

  lemma HavingMore(held: Forward, id: nat, l: Pair, k: Pair)
    requires id in held
    ensures Having(held[id := held[id] + {l}], k) == Having(held, k) + (if k == l then {id} else {})
  {
  }

  lemma HavingLess(held: Forward, id: nat, l: Pair, k: Pair)
    requires id in held
    ensures Having(held[id := held[id] - {l}], k) == Having(held, k) - (if k == l then {id} else {})
  {
  }

  function WithList(m: Index, l: Pair, list: seq<nat>): Index {
    m[l.name := (if l.name in m then m[l.name] else map[])[l.value := list]]
  }

  lemma GetWithList(m: Index, l: Pair, list: seq<nat>, k: Pair)
    ensures Get(WithList(m, l, list), k) == if k == l then list else Get(m, k)
    ensures Listed(WithList(m, l, list), k) <==> k == l || Listed(m, k)
  {
    assert k == Pair(k.name, k.value) && l == Pair(l.name, l.value);
  }

  lemma IndexesMore(m: Index, held: Forward, id: nat, l: Pair, list: seq<nat>)
    requires Indexes(m, held) && id in held && Lists(list, Having(held, l) + {id})
    ensures Indexes(WithList(m, l, list), held[id := held[id] + {l}])
  {
    var m', held' := WithList(m, l, list), held[id := held[id] + {l}];
    forall k ensures Lists(Get(m', k), Having(held', k)) {
      GetWithList(m, l, list, k);
      HavingMore(held, id, l, k);
      assert Lists(Get(m, k), Having(held, k));
    }
    forall k | Listed(m', k) ensures Get(m', k) != [] {
      GetWithList(m, l, list, k);
      assert id in list;
      assert Listed(m, k) ==> Get(m, k) != [];
    }
    assert l.value in m'[l.name];
  }

  /** Delete's effect on one list: an empty one goes, and a name left without any. */
  function WithoutList(m: Index, l: Pair): Index
    requires l.name in m
  {
    var vals := map v | v in m[l.name] && v != l.value :: m[l.name][v];
    if vals == map[] then map n | n in m && n != l.name :: m[n] else m[l.name := vals]
  }

  lemma GetWithoutList(m: Index, l: Pair, k: Pair)
    requires l.name in m
    ensures Get(WithoutList(m, l), k) == if k == l then [] else Get(m, k)
    ensures Listed(WithoutList(m, l), k) ==> Listed(m, k) && k != l
  {
    assert k == Pair(k.name, k.value) && l == Pair(l.name, l.value);
    var vals := map v | v in m[l.name] && v != l.value :: m[l.name][v];
    if k.name == l.name && k.value in m[l.name] && k.value != l.value { assert k.value in vals; }
  }

  /** What the index must describe after the pair is taken from id. */
  function Less(held: Forward, id: nat, l: Pair): Forward {
    if id in held then held[id := held[id] - {l}] else held
  }

  lemma IndexesLess(m: Index, held: Forward, id: nat, l: Pair, list: seq<nat>)
    requires Indexes(m, held) && Lists(list, Having(held, l) - {id})
    ensures list != [] ==> Indexes(WithList(m, l, list), Less(held, id, l))
    ensures list == [] && l.name in m ==> Indexes(WithoutList(m, l), Less(held, id, l))
    ensures l.name !in m ==> Indexes(m, Less(held, id, l))
  {
    var held' := Less(held, id, l);
    forall k ensures Having(held', k) == Having(held, k) - (if k == l then {id} else {}) && Lists(Get(m, k), Having(held, k)) {
      if id in held { HavingLess(held, id, l, k); }
    }
    if list != [] {
      forall k ensures Lists(Get(WithList(m, l, list), k), Having(held', k)) && (Listed(WithList(m, l, list), k) ==> Get(WithList(m, l, list), k) != []) {
        GetWithList(m, l, list, k);
        assert Listed(m, k) ==> Get(m, k) != [];
      }
      assert l.value in WithList(m, l, list)[l.name];
    } else if l.name in m {
      forall k ensures Lists(Get(WithoutList(m, l), k), Having(held', k)) && (Listed(WithoutList(m, l), k) ==> Get(WithoutList(m, l), k) != []) {
        GetWithoutList(m, l, k);
        assert Listed(m, k) ==> Get(m, k) != [];
      }
    } else {
      assert Get(m, l) == [] && Having(held, l) == {} by { assert Lists(Get(m, l), Having(held, l)); EmptyIff(Get(m, l), Having(held, l)); }
    }
  }

  /** A series without labels can leave the forward index unnoticed. */
  lemma IndexesGone(m: Index, held: Forward, id: nat)
    requires Indexes(m, held) && (id in held ==> held[id] == {})
    ensures Indexes(m, map k | k in held && k != id :: held[k])
  {
    var held' := map k | k in held && k != id :: held[k];
    forall l ensures Lists(Get(m, l), Having(held', l)) {
      assert Having(held', l) == Having(held, l);
      assert Lists(Get(m, l), Having(held, l));
    }
  }

  // ---- intersecting all lists ----

  /** The ids in all of the lists. */
  function Common(sets: seq<set<nat>>): set<nat>
    requires sets != []
  {
    if |sets| == 1 then sets[0] else Common(sets[..|sets| - 1]) * sets[|sets| - 1]
  }

  lemma {:induction false} CommonHas(sets: seq<set<nat>>, x: nat)
    requires sets != []
    ensures x in Common(sets) <==> forall i :: 0 <= i < |sets| ==> x in sets[i]
  {
    if |sets| > 1 {
      CommonHas(sets[..|sets| - 1], x);
      assert forall i :: 0 <= i < |sets| - 1 ==> sets[..|sets| - 1][i] == sets[i];
    }
  }

  ghost predicate AllListed(lists: seq<seq<nat>>, sets: seq<set<nat>>) {
    |lists| == |sets| && forall i :: 0 <= i < |lists| ==> Lists(lists[i], sets[i])
  }

  /** Shortest first: position of the least length among the lists from i on. */
  method Shortest(lists: seq<seq<nat>>, i: nat) returns (k: nat)
    requires i < |lists|
    ensures i <= k < |lists| && forall j :: i <= j < |lists| ==> |lists[k]| <= |lists[j]|
  {
    k := i;
    var j := i + 1;
    while j < |lists|
      invariant i < j <= |lists| && i <= k < j && forall n :: i <= n < j ==> |lists[k]| <= |lists[n]|
    {
      if |lists[j]| < |lists[k]| { k := j; }
      j := j + 1;
    }
  }

  // ---- MemPostings ----

  class MemPostings {
    var m: map<Text, map<Text, seq<nat>>>
    var allRefs: seq<nat>
    ghost var held: Forward

    /** Every pair some series carries is listed, with exactly those series; no list,
        and no name, is empty. */
    ghost predicate Valid() reads this {
      Lists(allRefs, held.Keys) && Indexes(m, held)
    }

    constructor ()
      ensures Valid() && held == map[]
    {
      m, allRefs, held := map[], [], map[];
    }

    /** An id already present is a no-op: a series keeps the labels of its first Add. */
    method Add(id: nat, labels: seq<Pair>)
      requires Valid()
      modifies this
      ensures Valid()
      ensures held == if id in old(held) then old(held) else old(held)[id := PairSet(labels)]
    {
      var present := ContainsSorted(allRefs, id);
      if present { return; }
      assert id !in held;
      allRefs := InsertSorted(allRefs, id, held.Keys);
      held := held[id := {}];
      IndexesNew(m, old(held), id);
      var i := 0;
      assert PairSet(labels[..0]) == {};
      while i < |labels|
        invariant 0 <= i <= |labels|
        invariant Lists(allRefs, held.Keys) && Indexes(m, held)
        invariant held == old(held)[id := PairSet(labels[..i])]
      {
        AddPair(id, labels[i]);
        assert labels[..i + 1] == labels[..i] + [labels[i]];
        assert PairSet(labels[..i + 1]) == PairSet(labels[..i]) + {labels[i]};
        i := i + 1;
      }
      assert labels[..i] == labels;
    }

    method AddPair(id: nat, l: Pair)
      requires Indexes(m, held) && id in held
      modifies this`m, this`held
      ensures Indexes(m, held) && held == old(held)[id := old(held)[id] + {l}]
    {
      var vals := if l.name in m then m[l.name] else map[];
      assert Lists(Get(m, l), Having(held, l));
      var list := InsertSorted(if l.value in vals then vals[l.value] else [], id, Having(held, l));
      IndexesMore(m, held, id, l, list);
      m := m[l.name := vals[l.value := list]];
      held := held[id := held[id] + {l}];
    }

    /** Removes a series with its labels, and every list and name that leaves empty. */
    method Delete(id: nat, labels: seq<Pair>)
      requires Valid() && (id in held ==> held[id] == PairSet(labels))
      modifies this
      ensures Valid()
      ensures held == map k | k in old(held) && k != id :: old(held)[k]
    {
      allRefs := RemoveSorted(allRefs, id, held.Keys);
      var i := 0;
      ghost var all := PairSet(labels);
      assert PairSet(labels[..0]) == {};
      assert all - {} == all;
      while i < |labels|
        invariant 0 <= i <= |labels| && Indexes(m, held)
        invariant held == if id in old(held) then old(held)[id := all - PairSet(labels[..i])] else old(held)
        invariant Lists(allRefs, old(held).Keys - {id})
      {
        DeletePair(id, labels[i]);
        assert labels[..i + 1] == labels[..i] + [labels[i]];
        assert PairSet(labels[..i + 1]) == PairSet(labels[..i]) + {labels[i]};
        assert all - PairSet(labels[..i + 1]) == all - PairSet(labels[..i]) - {labels[i]};
        i := i + 1;
      }
      assert labels[..i] == labels;
      IndexesGone(m, held, id);
      held := map k | k in held && k != id :: held[k];
      assert held.Keys == old(held).Keys - {id};
    }

    method DeletePair(id: nat, l: Pair)
      requires Indexes(m, held)
      modifies this`m, this`held
      ensures Indexes(m, held) && held == Less(old(held), id, l)
    {
      assert Lists(Get(m, l), Having(held, l));
      if l.name !in m {
        EmptyIff(Get(m, l), Having(held, l));
        IndexesLess(m, held, id, l, []);
        held := Less(held, id, l);
        return;
      }
      var vals := m[l.name];
      var list := RemoveSorted(if l.value in vals then vals[l.value] else [], id, Having(held, l));
      IndexesLess(m, held, id, l, list);
      vals := if list == [] then map v | v in vals && v != l.value :: vals[v] else vals[l.value := list];
      m := if vals == map[] then map n | n in m && n != l.name :: m[n] else m[l.name := vals];
      held := Less(held, id, l);
    }

    /** The sorted series that carry every matcher: exactly the naive filter. */
    method Select(matchers: seq<Pair>) returns (r: seq<nat>)
      requires Valid()
      ensures Lists(r, Matching(held, matchers))
    {
      if |matchers| == 0 {
        assert Matching(held, matchers) == held.Keys;
        return allRefs;
      }
      var lists: seq<seq<nat>> := [];
      ghost var sets: seq<set<nat>> := [];
      var i := 0;
      while i < |matchers|
        invariant 0 <= i <= |matchers| && |sets| == i && AllListed(lists, sets)
        invariant forall k :: 0 <= k < i ==> sets[k] == Having(held, matchers[k])
      {
        assert Lists(Get(m, matchers[i]), Having(held, matchers[i]));
        if matchers[i].name !in m || matchers[i].value !in m[matchers[i].name] || m[matchers[i].name][matchers[i].value] == [] {
          EmptyIff(Get(m, matchers[i]), Having(held, matchers[i]));
          NoMatch(held, matchers, i);
          return [];
        }
        lists, sets := lists + [m[matchers[i].name][matchers[i].value]], sets + [Having(held, matchers[i])];
        i := i + 1;
      }
      r := IntersectAll(lists, sets);
      MatchingIsCommon(held, matchers, sets);
    }

    /** Copies of one list, or of all series for the empty pair. */
    method PostingsOf(l: Pair) returns (r: seq<nat>)
      requires Valid()
      ensures Lists(r, if l == Pair([], []) then held.Keys else Having(held, l))
    {
      assert Lists(Get(m, l), Having(held, l));
      if l.name == [] && l.value == [] { return allRefs; }
      r := if l.name in m && l.value in m[l.name] then m[l.name][l.value] else [];
    }
  }

  lemma NoMatch(held: Forward, matchers: seq<Pair>, i: nat)
    requires i < |matchers| && Having(held, matchers[i]) == {}
    ensures Matching(held, matchers) == {}
  {
    if id :| id in Matching(held, matchers) { assert id in Having(held, matchers[i]); }
  }

  lemma MatchingIsCommon(held: Forward, matchers: seq<Pair>, sets: seq<set<nat>>)
    requires matchers != [] && |sets| == |matchers| && forall k :: 0 <= k < |sets| ==> sets[k] == Having(held, matchers[k])
    ensures Matching(held, matchers) == Common(sets)
  {
    forall x ensures x in Matching(held, matchers) <==> x in Common(sets) {
      CommonHas(sets, x);
      if x in Common(sets) { assert x in sets[0]; }
    }
  }

  /** Intersects the lists shortest first, stopping when nothing is left. */
  method IntersectAll(lists0: seq<seq<nat>>, ghost sets0: seq<set<nat>>) returns (r: seq<nat>)
    requires lists0 != [] && AllListed(lists0, sets0)
    ensures Lists(r, Common(sets0))
  {
    var lists := lists0;
    ghost var sets := sets0;
    var k := Shortest(lists, 0);
    r := lists[k];
    ghost var S := sets[k];
    lists, sets := lists[k := lists[0]][1..], sets[k := sets[0]][1..];
    SwapCommon(sets0, k, sets);
    while lists != []
      invariant AllListed(lists, sets) && Lists(r, S)
      invariant forall x :: x in Common(sets0) <==> x in S && forall j :: 0 <= j < |sets| ==> x in sets[j]
      decreases |lists|
    {
      k := Shortest(lists, 0);
      r := IntersectSorted(r, lists[k], S, sets[k]);
      S := S * sets[k];
      ghost var before := sets;
      lists, sets := lists[k := lists[0]][1..], sets[k := sets[0]][1..];
      SwapAll(before, k, sets);
      if r == [] {
        EmptyIff(r, S);
        return;
      }
    }
  }

  /** Moving set k to the front and setting it aside. */
  lemma SwapAll(sets: seq<set<nat>>, k: nat, rest: seq<set<nat>>)
    requires k < |sets| && rest == sets[k := sets[0]][1..]
    ensures forall x: nat :: (forall j :: 0 <= j < |sets| ==> x in sets[j]) <==> x in sets[k] && forall j :: 0 <= j < |rest| ==> x in rest[j]
  {
    forall x: nat ensures (forall j :: 0 <= j < |sets| ==> x in sets[j]) <==> x in sets[k] && forall j :: 0 <= j < |sets| - 1 ==> x in rest[j] {
      if x in sets[k] && forall j :: 0 <= j < |sets| - 1 ==> x in rest[j] {
        forall j | 0 <= j < |sets| ensures x in sets[j] {
          if j == 0 && k > 0 { assert rest[k - 1] == sets[0]; }
          if j > 0 && j != k { assert rest[j - 1] == sets[j]; }
        }
      }
      if forall j :: 0 <= j < |sets| ==> x in sets[j] {
        forall j | 0 <= j < |sets| - 1 ensures x in rest[j] {
          assert rest[j] == if j + 1 == k then sets[0] else sets[j + 1];
        }
      }
    }
  }

  lemma SwapCommon(sets: seq<set<nat>>, k: nat, rest: seq<set<nat>>)
    requires k < |sets| && rest == sets[k := sets[0]][1..]
    ensures forall x :: x in Common(sets) <==> x in sets[k] && forall j :: 0 <= j < |rest| ==> x in rest[j]
  {
    SwapAll(sets, k, rest);
    forall x ensures x in Common(sets) <==> forall j :: 0 <= j < |sets| ==> x in sets[j] { CommonHas(sets, x); }
  }
}
