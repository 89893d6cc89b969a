/** The token ring: who replicates a key, and how little that changes when a member
    joins or leaves. The hash functions are arbitrary: nothing below depends on where
    a token or a key lands, and tokens of different members may collide. */
module Rings {
  import opened Sets

  // ---- names and tokens in order ----

  /** Lexicographic order, Go's order on strings. */
  predicate Less(a: string, b: string) {
    if b == "" then false
    else if a == "" then true
    else a[0] < b[0] || (a[0] == b[0] && Less(a[1..], b[1..]))
  }

  lemma {:induction false} LessTotal(a: string, b: string)
    ensures a == b || Less(a, b) || Less(b, a)
    ensures !(Less(a, b) && Less(b, a)) && !Less(a, a)
  {
    if a != "" { LessIrreflexive(a); }
    if a != "" && b != "" {
      LessTotal(a[1..], b[1..]);
      assert a == [a[0]] + a[1..] && b == [b[0]] + b[1..];
    }
  }

  lemma {:induction false} LessIrreflexive(a: string)
    ensures !Less(a, a)
  {
    if a != "" { LessIrreflexive(a[1..]); }
  }

  lemma {:induction false} LessTrans(a: string, b: string, c: string)
    requires Less(a, b) && Less(b, c)
    ensures Less(a, c)
  {
    if a != "" && a[0] == b[0] == c[0] { LessTrans(a[1..], b[1..], c[1..]); }
  }

  /** a comes before b exactly when, after their longest common beginning, a ends or has
      the smaller character. */
  lemma {:induction false} LessIff(a: string, b: string, k: nat)
    requires k <= |a| && k <= |b| && a[..k] == b[..k] && (k < |a| && k < |b| ==> a[k] != b[k])
    ensures Less(a, b) <==> k < |b| && (k == |a| || a[k] < b[k])
  {
    if k > 0 {
      assert a[0] == a[..k][0] == b[0];
      assert a[1..][..k - 1] == a[..k][1..] == b[1..][..k - 1];
      LessIff(a[1..], b[1..], k - 1);
    }
  }

  datatype Token = Token(v: nat, owner: string)

  predicate Leq(a: Token, b: Token) {
    a.v < b.v || (a.v == b.v && (a.owner == b.owner || Less(a.owner, b.owner)))
  }

  lemma LeqTotal(a: Token, b: Token)
    ensures Leq(a, b) || Leq(b, a)
    ensures Leq(a, b) && Leq(b, a) ==> a == b
  {
    LessTotal(a.owner, b.owner);
  }

  lemma LeqTrans(a: Token, b: Token, c: Token)
    requires Leq(a, b) && Leq(b, c)
    ensures Leq(a, c)
  {
    if a.v == b.v == c.v && Less(a.owner, b.owner) && Less(b.owner, c.owner) { LessTrans(a.owner, b.owner, c.owner); }
  }

  predicate Sorted(s: seq<Token>) {
    forall i, j :: 0 <= i <= j < |s| ==> Leq(s[i], s[j])
  }

  function Insert(s: seq<Token>, t: Token): (r: seq<Token>) {
    if s == [] || Leq(s[|s| - 1], t) then s + [t] else Insert(s[..|s| - 1], t) + [s[|s| - 1]]
  }

  /** sort.Slice by (value, owner). */
  function Sort(s: seq<Token>): seq<Token> {
    if s == [] then [] else Insert(Sort(s[..|s| - 1]), s[|s| - 1])
  }

  lemma {:induction false} InsertPermutes(s: seq<Token>, t: Token)
    ensures multiset(Insert(s, t)) == multiset(s) + multiset{t}
  {
    if s != [] && !Leq(s[|s| - 1], t) {
      InsertPermutes(s[..|s| - 1], t);
      assert s == s[..|s| - 1] + [s[|s| - 1]];
    }
  }

  lemma {:induction false} InsertSorted(s: seq<Token>, t: Token)
    requires Sorted(s)
    ensures Sorted(Insert(s, t))
  {
    if s == [] {
      LeqTotal(t, t);
    } else if Leq(s[|s| - 1], t) {
      forall i | 0 <= i < |s| ensures Leq(s[i], t) { LeqTrans(s[i], s[|s| - 1], t); }
      LeqTotal(t, t);
    } else {
      var last := s[|s| - 1];
      var p := s[..|s| - 1];
      InsertSorted(p, t);
      InsertPermutes(p, t);
      var q := Insert(p, t);
      LeqTotal(t, last);
      forall i | 0 <= i < |q| ensures Leq(q[i], last) {
        assert q[i] in multiset(q);
        if q[i] != t {
          assert q[i] in multiset(p);
          var k :| 0 <= k < |p| && p[k] == q[i];
          assert s[k] == q[i];
        }
      }
      LeqTotal(last, last);
    }
  }

  lemma {:induction false} SortIsSorted(s: seq<Token>)
    ensures Sorted(Sort(s)) && multiset(Sort(s)) == multiset(s)
  {
    if s != [] {
      SplitLast(s);
      SortIsSorted(s[..|s| - 1]);
      InsertSorted(Sort(s[..|s| - 1]), s[|s| - 1]);
      InsertPermutes(Sort(s[..|s| - 1]), s[|s| - 1]);
    }
  }

  lemma LastIsGreatest(s: seq<Token>, x: Token)
    requires Sorted(s) && x in multiset(s)
    ensures s != [] && Leq(x, s[|s| - 1])
  {
    var k :| 0 <= k < |s| && s[k] == x;
  }

  /** There is one sorted arrangement of a multiset of tokens. */
  lemma {:induction false} SortedUnique(s: seq<Token>, t: seq<Token>)
    requires Sorted(s) && Sorted(t) && multiset(s) == multiset(t)
    ensures s == t
  {
    assert |s| == |multiset(s)| == |multiset(t)| == |t|;
    if s != [] {
      assert s[|s| - 1] in multiset(s);
      assert t != [];
      SameLast(s, t);
      SplitLast(s);
      SplitLast(t);
      var p, q, x := s[..|s| - 1], t[..|t| - 1], s[|s| - 1];
      assert multiset(p) == multiset(s) - multiset{x} == multiset(q);
      SortedUnique(p, q);
    }
  }

  lemma SameLast(s: seq<Token>, t: seq<Token>)
    requires Sorted(s) && Sorted(t) && multiset(s) == multiset(t) && s != [] && t != []
    ensures s[|s| - 1] == t[|t| - 1]
  {
    var x, y := s[|s| - 1], t[|t| - 1];
    assert x in multiset(s) && y in multiset(t);
    LastIsGreatest(t, x);
    LastIsGreatest(s, y);
    LeqTotal(x, y);
  }

  // ---- the token table ----

  const TOKENS_PER_MEMBER := 128

  /** A member's tokens, for an arbitrary token function. */
  function TokensOf(tok: (string, nat) -> nat, m: string): (r: seq<Token>)
    ensures |r| == TOKENS_PER_MEMBER
  {
    seq(TOKENS_PER_MEMBER, j requires 0 <= j < TOKENS_PER_MEMBER => Token(tok(m, j), m))
  }

  function AllTokens(tok: (string, nat) -> nat, members: seq<string>): seq<Token> {
    if members == [] then []
    else AllTokens(tok, members[..|members| - 1]) + TokensOf(tok, members[|members| - 1])
  }

  function Table(tok: (string, nat) -> nat, members: seq<string>): seq<Token> {
    Sort(AllTokens(tok, members))
  }

  lemma {:induction false} CountUpTo(tok: (string, nat) -> nat, m: string, n: nat, t: Token)
    requires n <= TOKENS_PER_MEMBER
    ensures multiset(TokensOf(tok, m)[..n])[t] == if t.owner == m then |Hits(tok, m, n, t.v)| else 0
  {
    var s := TokensOf(tok, m);
    if n == 0 {
      assert s[..0] == [];
      assert Hits(tok, m, n, t.v) == {};
    } else {
      CountUpTo(tok, m, n - 1, t);
      assert s[..n] == s[..n - 1] + [s[n - 1]];
      assert Hits(tok, m, n, t.v) == Hits(tok, m, n - 1, t.v) + (if tok(m, n - 1) == t.v then {n - 1} else {});
    }
  }

  function Hits(tok: (string, nat) -> nat, m: string, n: nat, v: nat): set<nat> {
    set j: nat | j < n && tok(m, j) == v
  }

  /** Each member has exactly its 128 tokens in the table, with multiplicity, and nobody
      else has any. */
  lemma {:induction false} TokensCounted(tok: (string, nat) -> nat, members: seq<string>, t: Token)
    requires Distinct(members)
    ensures multiset(AllTokens(tok, members))[t] == if t.owner in members then |set j: nat | j < 128 && tok(t.owner, j) == t.v| else 0
  {
    if members != [] {
      var p, m := members[..|members| - 1], members[|members| - 1];
      TokensCounted(tok, p, t);
      CountUpTo(tok, m, TOKENS_PER_MEMBER, t);
      SliceAll(TokensOf(tok, m));
      assert members == p + [m];
      assert m !in p;
    }
  }

  lemma TableCounts(tok: (string, nat) -> nat, members: seq<string>, t: Token)
    requires Distinct(members)
    ensures multiset(Table(tok, members))[t] == if t.owner in members then |set j: nat | j < 128 && tok(t.owner, j) == t.v| else 0
  {
    TokensCounted(tok, members, t);
    SortIsSorted(AllTokens(tok, members));
  }

  lemma TableHas(tok: (string, nat) -> nat, members: seq<string>, m: string, j: nat)
    requires Distinct(members) && m in members && j < 128
    ensures Token(tok(m, j), m) in Table(tok, members)
  {
    var t := Token(tok(m, j), m);
    TableCounts(tok, members, t);
    var js := set i: nat | i < 128 && tok(m, i) == t.v;
    assert j in js;
    assert t in multiset(Table(tok, members));
  }

  lemma TableOnlyHas(tok: (string, nat) -> nat, members: seq<string>, t: Token)
    requires Distinct(members) && t in Table(tok, members)
    ensures t.owner in members && exists j :: 0 <= j < 128 && tok(t.owner, j) == t.v
  {
    assert t in multiset(Table(tok, members));
    TableCounts(tok, members, t);
    var js := set i: nat | i < 128 && tok(t.owner, i) == t.v;
    assert |js| == multiset(Table(tok, members))[t] > 0;
    var j :| j in js;
  }

  lemma {:induction false} TokenOwned(tok: (string, nat) -> nat, members: seq<string>, t: Token)
    requires t in AllTokens(tok, members)
    ensures t.owner in members
  {
    var n := |members| - 1;
    if t in AllTokens(tok, members[..n]) { TokenOwned(tok, members[..n], t); }
  }

  lemma {:induction false} MemberHasToken(tok: (string, nat) -> nat, members: seq<string>, m: string)
    requires m in members
    ensures exists t :: t in AllTokens(tok, members) && t.owner == m
  {
    var n := |members| - 1;
    if m == members[n] {
      assert TokensOf(tok, m)[0] in AllTokens(tok, members);
    } else {
      MemberHasToken(tok, members[..n], m);
    }
  }

  lemma {:induction false} RemoveMember(tok: (string, nat) -> nat, members: seq<string>, k: nat)
    requires k < |members|
    ensures multiset(AllTokens(tok, members)) == multiset(AllTokens(tok, members[..k] + members[k + 1..])) + multiset(TokensOf(tok, members[k]))
  {
    var n := |members| - 1;
    var p, x := members[..n], members[n];
    assert members == p + [x];
    if k == n {
      assert members[..k] + members[k + 1..] == p;
      AddMember(tok, p, x);
    } else {
      RemoveMember(tok, p, k);
      var q := p[..k] + p[k + 1..];
      assert members[..k] + members[k + 1..] == q + [x];
      AddMember(tok, p, x);
      AddMember(tok, q, x);
    }
  }

  lemma AddMember(tok: (string, nat) -> nat, p: seq<string>, x: string)
    ensures multiset(AllTokens(tok, p + [x])) == multiset(AllTokens(tok, p)) + multiset(TokensOf(tok, x))
  {
    assert (p + [x])[..|p|] == p;
  }

  /** The tokens depend on who is a member, not on the order of the list. */
  lemma {:induction false} TokensOfPermutation(tok: (string, nat) -> nat, a: seq<string>, b: seq<string>)
    requires multiset(a) == multiset(b)
    ensures multiset(AllTokens(tok, a)) == multiset(AllTokens(tok, b))
    decreases |a|
  {
    assert |a| == |multiset(a)| == |multiset(b)| == |b|;
    if a != [] {
      var n := |a| - 1;
      var m := a[n];
      assert a == a[..n] + [m];
      assert m in multiset(b);
      var k :| 0 <= k < |b| && b[k] == m;
      var rest := b[..k] + b[k + 1..];
      assert b == b[..k] + [m] + b[k + 1..];
      assert multiset(rest) == multiset(b) - multiset{m} == multiset(a[..n]);
      TokensOfPermutation(tok, a[..n], rest);
      RemoveMember(tok, b, k);
    }
  }

  /** Two rings over the same members, listed in any order, have one table. */
  lemma TableOfPermutation(tok: (string, nat) -> nat, a: seq<string>, b: seq<string>)
    requires multiset(a) == multiset(b)
    ensures Table(tok, a) == Table(tok, b)
  {
    TokensOfPermutation(tok, a, b);
    SortIsSorted(AllTokens(tok, a));
    SortIsSorted(AllTokens(tok, b));
    SortedUnique(Table(tok, a), Table(tok, b));
  }

  function DropOwner(s: seq<Token>, m: string): seq<Token> {
    if s == [] then []
    else DropOwner(s[..|s| - 1], m) + (if s[|s| - 1].owner == m then [] else [s[|s| - 1]])
  }

  lemma {:induction false} DropOwnerCounts(s: seq<Token>, m: string, t: Token)
    ensures multiset(DropOwner(s, m))[t] == if t.owner == m then 0 else multiset(s)[t]
  {
    if s != [] {
      DropOwnerCounts(s[..|s| - 1], m, t);
      assert s == s[..|s| - 1] + [s[|s| - 1]];
    }
  }

  lemma {:induction false} DropOwnerSorted(s: seq<Token>, m: string)
    requires Sorted(s)
    ensures Sorted(DropOwner(s, m)) && forall t :: t in DropOwner(s, m) ==> t in s
  {
    if s != [] {
      var n := |s| - 1;
      DropOwnerSorted(s[..n], m);
      var d := DropOwner(s[..n], m);
      forall i | 0 <= i < |d| ensures Leq(d[i], s[n]) {
        assert d[i] in s[..n];
        var k :| 0 <= k < n && s[..n][k] == d[i];
        assert s[k] == d[i];
      }
      LeqTotal(s[n], s[n]);
    }
  }

  lemma DroppedTokens(tok: (string, nat) -> nat, members: seq<string>, joined: seq<string>, m: string, t: Token)
    requires m !in members && multiset(joined) == multiset(members) + multiset{m}
    ensures multiset(DropOwner(Table(tok, joined), m))[t] == multiset(AllTokens(tok, members))[t]
  {
    TokensOfPermutation(tok, joined, members + [m]);
    assert (members + [m])[..|members|] == members;
    SortIsSorted(AllTokens(tok, joined));
    DropOwnerCounts(Table(tok, joined), m, t);
    if t.owner == m {
      if t in multiset(AllTokens(tok, members)) { TokenOwned(tok, members, t); }
    } else {
      assert t !in multiset(TokensOf(tok, m));
    }
  }

  /** A member that joins adds its own tokens to the table and moves no other. */
  lemma JoinExtendsTable(tok: (string, nat) -> nat, members: seq<string>, joined: seq<string>, m: string)
    requires m !in members && multiset(joined) == multiset(members) + multiset{m}
    ensures DropOwner(Table(tok, joined), m) == Table(tok, members)
  {
    SortIsSorted(AllTokens(tok, members));
    SortIsSorted(AllTokens(tok, joined));
    DropOwnerSorted(Table(tok, joined), m);
    var D, T := DropOwner(Table(tok, joined), m), Table(tok, members);
    forall t ensures multiset(D)[t] == multiset(T)[t] { DroppedTokens(tok, members, joined, m, t); }
    assert multiset(D) == multiset(T);
    SortedUnique(D, T);
  }

  // ---- the walk ----

  function Owners(s: seq<Token>): (r: seq<string>)
    ensures |r| == |s|
  {
    if s == [] then [] else Owners(s[..|s| - 1]) + [s[|s| - 1].owner]
  }

  function AtOrAfter(s: seq<Token>, h: nat): seq<Token> {
    if s == [] then [] else AtOrAfter(s[..|s| - 1], h) + (if s[|s| - 1].v >= h then [s[|s| - 1]] else [])
  }

  function Before(s: seq<Token>, h: nat): seq<Token> {
    if s == [] then [] else Before(s[..|s| - 1], h) + (if s[|s| - 1].v < h then [s[|s| - 1]] else [])
  }

  /** The owners met clockwise from position h. */
  function Walk(table: seq<Token>, h: nat): seq<string> {
    Owners(AtOrAfter(table, h)) + Owners(Before(table, h))
  }

  /** The distinct names of s, in order of first appearance. */
  function FirstSeen(s: seq<string>): seq<string> {
    if s == [] then []
    else
      var r := FirstSeen(s[..|s| - 1]);
      if s[|s| - 1] in r then r else r + [s[|s| - 1]]
  }

  /** Every member, in the order a key at h prefers them. */
  function Preference(tok: (string, nat) -> nat, members: seq<string>, h: nat): seq<string> {
    FirstSeen(Walk(Table(tok, members), h))
  }

  function Without(s: seq<string>, m: string): seq<string> {
    if s == [] then [] else Without(s[..|s| - 1], m) + (if s[|s| - 1] == m then [] else [s[|s| - 1]])
  }

  lemma {:induction false} WithoutConcat(a: seq<string>, b: seq<string>, m: string)
    ensures Without(a + b, m) == Without(a, m) + Without(b, m)
  {
    if b == [] {
      assert a + b == a;
    } else {
      WithoutConcat(a, b[..|b| - 1], m);
      assert (a + b)[..|a + b| - 1] == a + b[..|b| - 1];
    }
  }

  lemma {:induction false} WithoutElements(s: seq<string>, m: string)
    ensures forall x :: x in Without(s, m) <==> x in s && x != m
  {
    if s != [] {
      WithoutElements(s[..|s| - 1], m);
      assert s == s[..|s| - 1] + [s[|s| - 1]];
    }
  }

  /** How the walk grows with one more token at the end of the table. */
  lemma AppendToken(s: seq<Token>, t: Token, h: nat)
    ensures Owners(AtOrAfter(s + [t], h)) == Owners(AtOrAfter(s, h)) + (if t.v >= h then [t.owner] else [])
    ensures Owners(Before(s + [t], h)) == Owners(Before(s, h)) + (if t.v < h then [t.owner] else [])
  {
    assert (s + [t])[..|s|] == s;
    var a, b := AtOrAfter(s, h), Before(s, h);
    assert (a + [t])[..|a|] == a && (b + [t])[..|b|] == b;
    assert a + [] == a && b + [] == b;
  }

  lemma AppendDrop(s: seq<Token>, t: Token, m: string)
    ensures DropOwner(s + [t], m) == if t.owner == m then DropOwner(s, m) else DropOwner(s, m) + [t]
  {
    assert (s + [t])[..|s|] == s;
    assert DropOwner(s, m) + [] == DropOwner(s, m);
  }

  lemma AppendOne(o: seq<string>, d: seq<string>, x: string, m: string, o': seq<string>, d': seq<string>, hit: bool)
    requires d == Without(o, m) && o' == o + (if hit then [x] else [])
    requires d' == if x == m then d else d + (if hit then [x] else [])
    ensures d' == Without(o', m)
  {
    AppendWithout(o, x, m);
    assert o + [] == o && d + [] == d;
  }

  lemma {:induction false} LaterOfDropped(s: seq<Token>, m: string, h: nat)
    ensures Owners(AtOrAfter(DropOwner(s, m), h)) == Without(Owners(AtOrAfter(s, h)), m)
  {
    if s != [] {
      var p, t := s[..|s| - 1], s[|s| - 1];
      LaterOfDropped(p, m, h);
      LaterStep(p, t, m, h);
      assert s == p + [t];
    }
  }

  lemma LaterStep(p: seq<Token>, t: Token, m: string, h: nat)
    requires Owners(AtOrAfter(DropOwner(p, m), h)) == Without(Owners(AtOrAfter(p, h)), m)
    ensures Owners(AtOrAfter(DropOwner(p + [t], m), h)) == Without(Owners(AtOrAfter(p + [t], h)), m)
  {
    AppendDrop(p, t, m);
    AppendToken(p, t, h);
    AppendToken(DropOwner(p, m), t, h);
    AppendOne(Owners(AtOrAfter(p, h)), Owners(AtOrAfter(DropOwner(p, m), h)), t.owner, m,
              Owners(AtOrAfter(p + [t], h)), Owners(AtOrAfter(DropOwner(p + [t], m), h)), t.v >= h);
  }

  lemma {:induction false} EarlierOfDropped(s: seq<Token>, m: string, h: nat)
    ensures Owners(Before(DropOwner(s, m), h)) == Without(Owners(Before(s, h)), m)
  {
    if s != [] {
      var p, t := s[..|s| - 1], s[|s| - 1];
      EarlierOfDropped(p, m, h);
      EarlierStep(p, t, m, h);
      assert s == p + [t];
    }
  }

  lemma EarlierStep(p: seq<Token>, t: Token, m: string, h: nat)
    requires Owners(Before(DropOwner(p, m), h)) == Without(Owners(Before(p, h)), m)
    ensures Owners(Before(DropOwner(p + [t], m), h)) == Without(Owners(Before(p + [t], h)), m)
  {
    AppendDrop(p, t, m);
    AppendToken(p, t, h);
    AppendToken(DropOwner(p, m), t, h);
    AppendOne(Owners(Before(p, h)), Owners(Before(DropOwner(p, m), h)), t.owner, m,
              Owners(Before(p + [t], h)), Owners(Before(DropOwner(p + [t], m), h)), t.v < h);
  }

  lemma AppendWithout(s: seq<string>, x: string, m: string)
    ensures Without(s + [x], m) == Without(s, m) + (if x == m then [] else [x])
  {
    assert (s + [x])[..|s|] == s;
  }

  lemma {:induction false} FirstSeenElements(s: seq<string>)
    ensures forall x :: x in FirstSeen(s) <==> x in s
    ensures forall i, j :: 0 <= i < j < |FirstSeen(s)| ==> FirstSeen(s)[i] != FirstSeen(s)[j]
  {
    if s != [] {
      FirstSeenElements(s[..|s| - 1]);
      assert s == s[..|s| - 1] + [s[|s| - 1]];
    }
  }

  /** Removing a name first or last is the same. */
  lemma {:induction false} FirstSeenWithout(s: seq<string>, m: string)
    ensures FirstSeen(Without(s, m)) == Without(FirstSeen(s), m)
  {
    if s != [] {
      var p, x := s[..|s| - 1], s[|s| - 1];
      FirstSeenWithout(p, m);
      AppendWithout(FirstSeen(p), x, m);
      WithoutElements(FirstSeen(p), m);
      var w := Without(p, m);
      if x != m {
        assert (w + [x])[..|w|] == w;
      } else {
        assert w + [] == w;
        assert Without(FirstSeen(p), m) + [] == Without(FirstSeen(p), m);
      }
    }
  }

  /** With m gone from the ring, every key's preference order is the old one with m
      struck out. */
  lemma JoinInsertsIntoPreference(tok: (string, nat) -> nat, members: seq<string>, joined: seq<string>, m: string, h: nat)
    requires m !in members && multiset(joined) == multiset(members) + multiset{m}
    ensures Without(Preference(tok, joined, h), m) == Preference(tok, members, h)
  {
    JoinExtendsTable(tok, members, joined, m);
    var T' := Table(tok, joined);
    LaterOfDropped(T', m, h);
    EarlierOfDropped(T', m, h);
    WithoutConcat(Owners(AtOrAfter(T', h)), Owners(Before(T', h)), m);
    FirstSeenWithout(Walk(T', h), m);
  }

  function Take(s: seq<string>, n: nat): seq<string> {
    if |s| < n then s else s[..n]
  }

  lemma {:induction false} WithoutPrefix(s: seq<string>, m: string, n: nat)
    requires n <= |s| && forall i, j :: 0 <= i < j < |s| ==> s[i] != s[j]
    ensures var a := Without(s[..n], m); n - 1 <= |a| <= |Without(s, m)| && a == Without(s, m)[..|a|]
    ensures m !in s[..n] ==> |Without(s[..n], m)| == n
  {
    WithoutConcat(s[..n], s[n..], m);
    assert s == s[..n] + s[n..];
    WithoutSize(s[..n], m);
  }

  lemma {:induction false} WithoutSize(s: seq<string>, m: string)
    requires forall i, j :: 0 <= i < j < |s| ==> s[i] != s[j]
    ensures |Without(s, m)| == |s| - (if m in s then 1 else 0)
  {
    if s != [] {
      WithoutSize(s[..|s| - 1], m);
      assert s == s[..|s| - 1] + [s[|s| - 1]];
    }
  }

  /** Membership change is minimal. Striking m from a key's n replicas on the larger
      ring leaves a prefix, at most one short, of its n replicas on the smaller one:
      no key moves between members that stay. */
  lemma MinimalMovement(tok: (string, nat) -> nat, members: seq<string>, joined: seq<string>, m: string, h: nat, n: nat)
    requires m !in members && multiset(joined) == multiset(members) + multiset{m}
    requires Distinct(members) && 1 <= n <= |members|
    ensures var a := Without(Take(Preference(tok, joined, h), n), m);
            var b := Take(Preference(tok, members, h), n);
      |b| == n && n - 1 <= |a| <= n && a == b[..|a|]
    ensures m !in Take(Preference(tok, joined, h), n) ==> Take(Preference(tok, joined, h), n) == Take(Preference(tok, members, h), n)
  {
    JoinInsertsIntoPreference(tok, members, joined, m, h);
    JoinedDistinct(members, joined, m);
    PreferenceIsEveryone(tok, joined, h);
    PreferenceIsEveryone(tok, members, h);
    StrikePrefix(Preference(tok, joined, h), m, n);
  }

  lemma StrikePrefix(big: seq<string>, m: string, n: nat)
    requires Distinct(big) && 1 <= n <= |big| && n <= |Without(big, m)|
    ensures var a := Without(Take(big, n), m); n - 1 <= |a| <= n && a == Take(Without(big, m), n)[..|a|]
    ensures m !in Take(big, n) ==> Take(big, n) == Take(Without(big, m), n)
  {
    WithoutPrefix(big, m, n);
    WithoutSize(big[..n], m);
    if m !in big[..n] { WithoutAbsent(big[..n], m); }
  }

  lemma {:induction false} WithoutAbsent(s: seq<string>, m: string)
    requires m !in s
    ensures Without(s, m) == s
  {
    if s != [] {
      assert s == s[..|s| - 1] + [s[|s| - 1]];
      WithoutAbsent(s[..|s| - 1], m);
    }
  }

  /** In particular an owner changes only to or from m. */
  lemma OwnerMovesOnlyToOrFrom(tok: (string, nat) -> nat, members: seq<string>, joined: seq<string>, m: string, h: nat)
    requires m !in members && multiset(joined) == multiset(members) + multiset{m}
    requires Distinct(members) && members != []
    ensures Preference(tok, joined, h) != [] && Preference(tok, members, h) != []
    ensures Preference(tok, joined, h)[0] == m || Preference(tok, joined, h)[0] == Preference(tok, members, h)[0]
  {
    MinimalMovement(tok, members, joined, m, h, 1);
    JoinedDistinct(members, joined, m);
    PreferenceIsEveryone(tok, joined, h);
    var first := Take(Preference(tok, joined, h), 1);
    if first[0] != m { WithoutAbsent(first, m); }
  }

  predicate Distinct(s: seq<string>) {
    forall i, j :: 0 <= i < j < |s| ==> s[i] != s[j]
  }

  lemma JoinedDistinct(members: seq<string>, joined: seq<string>, m: string)
    requires m !in members && Distinct(members) && multiset(joined) == multiset(members) + multiset{m}
    ensures Distinct(joined) && |joined| == |members| + 1
  {
    DistinctCounts(members);
    DistinctCounts(joined);
    assert |multiset(joined)| == |joined| && |multiset(members)| == |members|;
  }

  function Names(s: seq<string>): set<string> { set x | x in s }

  lemma {:induction false} DistinctSize(s: seq<string>)
    requires Distinct(s)
    ensures |Names(s)| == |s|
  {
    if s == [] {
      assert Names(s) == {};
    } else {
      var n := |s| - 1;
      DistinctSize(s[..n]);
      assert s == s[..n] + [s[n]];
      assert s[n] !in s[..n] by { assert forall i :: 0 <= i < n ==> s[i] != s[n]; }
      assert Names(s) == Names(s[..n]) + {s[n]};
    }
  }

  lemma WalkVisits(s: seq<Token>, h: nat, x: string)
    ensures x in Walk(s, h) <==> exists t :: t in s && t.owner == x
  {
    var a, b := AtOrAfter(s, h), Before(s, h);
    OwnersOf(a, x);
    OwnersOf(b, x);
    if t :| t in s && t.owner == x { PartsOf(s, h, t); }
    if t :| t in a && t.owner == x { PartsOf(s, h, t); }
    if t :| t in b && t.owner == x { PartsOf(s, h, t); }
  }

  lemma {:induction false} OwnersOf(s: seq<Token>, x: string)
    ensures x in Owners(s) <==> exists t :: t in s && t.owner == x
  {
    if s != [] {
      var n := |s| - 1;
      OwnersOf(s[..n], x);
      if x in Owners(s[..n]) {
        var t :| t in s[..n] && t.owner == x;
        assert t in s;
      } else if x == s[n].owner {
        assert s[n] in s;
      }
    }
  }

  lemma {:induction false} PartsOf(s: seq<Token>, h: nat, t: Token)
    ensures t in s <==> t in AtOrAfter(s, h) || t in Before(s, h)
  {
    if s != [] {
      PartsOf(s[..|s| - 1], h, t);
      SplitLast(s);
    }
  }

  lemma WalkVisitsMembers(tok: (string, nat) -> nat, members: seq<string>, h: nat, x: string)
    ensures x in Walk(Table(tok, members), h) <==> x in members
  {
    var T, all := Table(tok, members), AllTokens(tok, members);
    WalkVisits(T, h, x);
    SortIsSorted(all);
    if x in members {
      MemberHasToken(tok, members, x);
      var t :| t in all && t.owner == x;
      assert t in multiset(T);
    }
    if t :| t in T && t.owner == x {
      assert t in multiset(all);
      TokenOwned(tok, members, t);
    }
  }

  /** A key's preference order lists every member exactly once. */
  lemma PreferenceIsEveryone(tok: (string, nat) -> nat, members: seq<string>, h: nat)
    requires Distinct(members)
    ensures Distinct(Preference(tok, members, h))
    ensures Names(Preference(tok, members, h)) == Names(members)
    ensures |Preference(tok, members, h)| == |members|
  {
    var w := Walk(Table(tok, members), h);
    FirstSeenElements(w);
    forall x ensures x in w <==> x in members { WalkVisitsMembers(tok, members, h, x); }
    DistinctSize(members);
    DistinctSize(Preference(tok, members, h));
  }

  // ---- New ----

  function InsertName(s: seq<string>, x: string): seq<string> {
    if s == [] || !Less(x, s[|s| - 1]) then s + [x] else InsertName(s[..|s| - 1], x) + [s[|s| - 1]]
  }

  /** slices.Sort. */
  function SortNames(s: seq<string>): seq<string> {
    if s == [] then [] else InsertName(SortNames(s[..|s| - 1]), s[|s| - 1])
  }

  predicate NamesSorted(s: seq<string>) {
    forall i, j :: 0 <= i < j < |s| ==> !Less(s[j], s[i])
  }

  lemma {:induction false} InsertNameOk(s: seq<string>, x: string)
    requires NamesSorted(s)
    ensures NamesSorted(InsertName(s, x)) && multiset(InsertName(s, x)) == multiset(s) + multiset{x}
  {
    if s != [] {
      var p, last := s[..|s| - 1], s[|s| - 1];
      SplitLast(s);
      LastName(s, p, last);
      if Less(x, last) {
        var q := InsertName(p, x);
        InsertNameOk(p, x);
        LessTotal(x, last);
        forall y | y in q ensures !Less(last, y) { assert y in multiset(q); }
        AppendName(q, last);
      } else {
        forall y | y in s ensures !Less(x, y) {
          LessTotal(y, last);
          if Less(x, y) && y != last { LessTrans(x, y, last); }
        }
        AppendName(s, x);
      }
    }
  }

  lemma LastName(s: seq<string>, p: seq<string>, last: string)
    requires NamesSorted(s) && s == p + [last]
    ensures NamesSorted(p) && forall y :: y in p ==> !Less(last, y)
  {
    forall y | y in p ensures !Less(last, y) {
      var k :| 0 <= k < |p| && p[k] == y;
      assert s[k] == y && s[|p|] == last;
    }
    forall i, j | 0 <= i < j < |p| ensures !Less(p[j], p[i]) { assert s[i] == p[i] && s[j] == p[j]; }
  }

  lemma AppendName(s: seq<string>, x: string)
    requires NamesSorted(s) && forall y :: y in s ==> !Less(x, y)
    ensures NamesSorted(s + [x])
  {
  }

  lemma {:induction false} SortNamesOk(s: seq<string>)
    ensures NamesSorted(SortNames(s)) && multiset(SortNames(s)) == multiset(s)
  {
    if s != [] {
      SplitLast(s);
      SortNamesOk(s[..|s| - 1]);
      InsertNameOk(SortNames(s[..|s| - 1]), s[|s| - 1]);
    }
  }

  /** In a sorted list equal names are neighbours. */
  lemma NoEqualNeighbours(s: seq<string>)
    requires NamesSorted(s) && forall i :: 0 < i < |s| ==> s[i - 1] != s[i]
    ensures Distinct(s)
  {
    forall i, j | 0 <= i < j < |s| ensures s[i] != s[j] {
      LessTotal(s[i], s[i + 1]);
      assert s[i + 1 - 1] != s[i + 1];
      assert Less(s[i], s[i + 1]);
      if i + 1 < j {
        assert !Less(s[j], s[i + 1]);
      }
    }
  }

  lemma SameNames(s: seq<string>, t: seq<string>)
    requires multiset(s) == multiset(t)
    ensures (forall x :: x in s <==> x in t) && |s| == |t| && (Distinct(s) <==> Distinct(t))
  {
    forall x ensures x in s <==> x in t { assert x in multiset(s) <==> x in multiset(t); }
    DistinctCounts(s);
    DistinctCounts(t);
    assert |s| == |multiset(s)| == |multiset(t)| == |t|;
  }

  datatype Ring = Ring(members: seq<string>, table: seq<Token>)

  /** A ring as New builds it. */
  predicate IsRing(r: Ring, tok: (string, nat) -> nat, members: seq<string>) {
    multiset(r.members) == multiset(members) && NamesSorted(r.members) && r.table == Table(tok, members)
  }

  datatype Built = NoMembers | EmptyMember | DuplicateMember(name: string) | Made(ring: Ring)

  /** Refuses an empty list, an empty name and a repeated one; otherwise the ring,
      which the order of the list does not change. */
  method New(tok: (string, nat) -> nat, members: seq<string>) returns (b: Built)
    ensures b.NoMembers? <==> members == []
    ensures b.EmptyMember? <==> "" in members
    ensures b.DuplicateMember? <==> members != [] && "" !in members && !Distinct(members)
    ensures b.DuplicateMember? ==> multiset(members)[b.name] > 1
    ensures b.Made? ==> IsRing(b.ring, tok, members)
    ensures b.Made? ==> |b.ring.table| == 128 * |members| && HoldsTokens(b.ring.table, tok, members)
  {
    if members == [] { return NoMembers; }
    var sorted := SortNames(members);
    SortNamesOk(members);
    SameNames(sorted, members);
    EmptySortsFirst(sorted);
    var i := 0;
    while i < |sorted|
      invariant 0 <= i <= |sorted|
      invariant forall k :: 0 <= k < i ==> sorted[k] != ""
      invariant forall k :: 0 < k < i ==> sorted[k - 1] != sorted[k]
    {
      if sorted[i] == "" { return EmptyMember; }
      if i > 0 && sorted[i - 1] == sorted[i] {
        assert "" !in sorted;
        RepeatedName(sorted, i);
        return DuplicateMember(sorted[i]);
      }
      i := i + 1;
    }
    NoEqualNeighbours(sorted);
    var toks := CollectTokens(tok, sorted);
    TableOfPermutation(tok, sorted, members);
    b := Made(Ring(sorted, Sort(toks)));
    SizeOfTable(tok, members);
    TableHolds(tok, members);
  }

  /** The table in order, with every member's every token as often as it occurs. */
  ghost predicate HoldsTokens(table: seq<Token>, tok: (string, nat) -> nat, members: seq<string>) {
    && (forall i, j :: 0 <= i < j < |table| ==> table[i].v < table[j].v || (table[i].v == table[j].v && !Less(table[j].owner, table[i].owner)))
    && (forall m, j :: m in members && 0 <= j < 128 ==> Token(tok(m, j), m) in table)
    && forall t :: multiset(table)[t] == if t.owner in members then |set j: nat | j < 128 && tok(t.owner, j) == t.v| else 0
  }

  lemma TableHolds(tok: (string, nat) -> nat, members: seq<string>)
    requires Distinct(members)
    ensures HoldsTokens(Table(tok, members), tok, members)
  {
    var table := Table(tok, members);
    SortIsSorted(AllTokens(tok, members));
    forall i, j | 0 <= i < j < |table| ensures table[i].v < table[j].v || (table[i].v == table[j].v && !Less(table[j].owner, table[i].owner)) {
      assert Leq(table[i], table[j]);
      LessTotal(table[i].owner, table[j].owner);
    }
    forall m, j | m in members && 0 <= j < 128 ensures Token(tok(m, j), m) in table { TableHas(tok, members, m, j); }
    forall t ensures multiset(table)[t] == if t.owner in members then |set j: nat | j < 128 && tok(t.owner, j) == t.v| else 0 { TableCounts(tok, members, t); }
  }

  lemma EmptySortsFirst(s: seq<string>)
    requires NamesSorted(s) && s != []
    ensures "" in s <==> s[0] == ""
  {
    if i :| 0 < i < |s| && s[i] == "" { assert !Less(s[i], s[0]); }
  }

  lemma RepeatedName(s: seq<string>, i: nat)
    requires 0 < i < |s| && s[i - 1] == s[i]
    ensures multiset(s)[s[i]] > 1 && !Distinct(s)
  {
    assert s == s[..i - 1] + [s[i - 1]] + [s[i]] + s[i + 1..];
  }

  method CollectTokens(tok: (string, nat) -> nat, members: seq<string>) returns (toks: seq<Token>)
    ensures toks == AllTokens(tok, members)
  {
    toks := [];
    var i := 0;
    while i < |members|
      invariant 0 <= i <= |members| && toks == AllTokens(tok, members[..i])
    {
      ghost var before := toks;
      var j := 0;
      while j < TOKENS_PER_MEMBER
        invariant 0 <= j <= TOKENS_PER_MEMBER && toks == before + TokensOf(tok, members[i])[..j]
      {
        toks := toks + [Token(tok(members[i], j), members[i])];
        j := j + 1;
      }
      assert members[..i + 1][..i] == members[..i];
      i := i + 1;
    }
    assert members[..i] == members;
  }

  // ---- nearest clockwise ----

  /** Going clockwise from h, a token of value v is met no later than one of value u: those
      at or after h first, each part by value. */
  predicate NotAfter(h: nat, v: nat, u: nat) {
    (v >= h && u < h) || ((v >= h <==> u >= h) && v <= u)
  }

  /** ... and strictly before, the smaller name first among equals. */
  predicate Nearer(h: nat, a: Token, b: Token) {
    NotAfter(h, a.v, b.v) && (a.v == b.v ==> Less(a.owner, b.owner))
  }

  /** The table from h on, once around. */
  function Clockwise(table: seq<Token>, h: nat): seq<Token> { AtOrAfter(table, h) + Before(table, h) }

  lemma {:induction false} OwnersConcat(a: seq<Token>, b: seq<Token>)
    ensures Owners(a + b) == Owners(a) + Owners(b)
  {
    if b == [] {
      assert a + b == a;
    } else {
      assert (a + b)[..|a + b| - 1] == a + b[..|b| - 1];
      OwnersConcat(a, b[..|b| - 1]);
    }
  }

  lemma {:induction false} CutPoint(s: seq<Token>, h: nat) returns (i: nat)
    requires Sorted(s)
    ensures i <= |s| && (forall k :: 0 <= k < i ==> s[k].v < h) && (forall k :: i <= k < |s| ==> s[k].v >= h)
  {
    if s == [] || s[|s| - 1].v < h {
      i := |s|;
      forall k | 0 <= k < |s| ensures s[k].v < h { assert Leq(s[k], s[|s| - 1]); }
    } else {
      var p := s[..|s| - 1];
      i := CutPoint(p, h);
      forall k | 0 <= k < i ensures s[k].v < h { assert s[k] == p[k]; }
      forall k | i <= k < |s| ensures s[k].v >= h { assert k < |p| ==> s[k] == p[k]; }
    }
  }

  lemma ClockwiseIs(s: seq<Token>, h: nat) returns (i: nat)
    requires Sorted(s)
    ensures i <= |s| && (forall k :: 0 <= k < i ==> s[k].v < h) && (forall k :: i <= k < |s| ==> s[k].v >= h)
    ensures Clockwise(s, h) == s[i..] + s[..i]
  {
    i := CutPoint(s, h);
    SplitAt(s, h, i);
  }

  /** The walk meets tokens in clockwise order. */
  lemma ClockwiseOrder(s: seq<Token>, h: nat, a: nat, b: nat)
    requires Sorted(s) && a <= b < |Clockwise(s, h)|
    ensures var c := Clockwise(s, h); NotAfter(h, c[a].v, c[b].v) && (c[a].owner != c[b].owner ==> Nearer(h, c[a], c[b]))
  {
    var i := ClockwiseIs(s, h);
    var n := |s| - i;
    var p, q := if a < n then i + a else a - n, if b < n then i + b else b - n;
    if b < n || n <= a { assert Leq(s[p], s[q]); }
  }

  lemma ClockwiseHas(s: seq<Token>, h: nat, t: Token)
    requires Sorted(s)
    ensures t in Clockwise(s, h) <==> t in s
  {
    var i := ClockwiseIs(s, h);
    assert s == s[..i] + s[i..];
  }

  /** The first place of the k-th distinct name, before which only earlier ones appear. */
  lemma {:induction false} FirstPlace(w: seq<string>, k: nat) returns (i: nat)
    requires k < |FirstSeen(w)|
    ensures i < |w| && w[i] == FirstSeen(w)[k] && forall j :: 0 <= j < i ==> w[j] in FirstSeen(w)[..k]
  {
    var p, x := w[..|w| - 1], w[|w| - 1];
    if k < |FirstSeen(p)| {
      i := FirstPlace(p, k);
      assert FirstSeen(w)[..k] == FirstSeen(p)[..k];
      forall j | 0 <= j < i ensures w[j] in FirstSeen(w)[..k] { assert w[j] == p[j]; }
    } else {
      i := |p|;
      assert FirstSeen(w)[..k] == FirstSeen(p);
      FirstSeenElements(p);
      forall j | 0 <= j < i ensures w[j] in FirstSeen(w)[..k] { assert w[j] == p[j]; }
    }
  }

  /** The k-th of o owns a token nearer clockwise from h than every token of every member
      that is not among the first k + 1: which decides o entirely. */
  ghost predicate NextNearest(tok: (string, nat) -> nat, members: seq<string>, h: nat, o: seq<string>, k: nat)
    requires k < |o|
  {
    exists j :: 0 <= j < 128 && OwnsNearest(tok, members, h, o, k, j)
  }

  ghost predicate OwnsNearest(tok: (string, nat) -> nat, members: seq<string>, h: nat, o: seq<string>, k: nat, j: nat)
    requires k < |o|
  {
    forall m, i :: m in members && m !in o[..k + 1] && 0 <= i < 128 ==> Nearer(h, Token(tok(o[k], j), o[k]), Token(tok(m, i), m))
  }

  lemma PreferenceIsNearest(tok: (string, nat) -> nat, members: seq<string>, h: nat, k: nat)
    requires Distinct(members) && k < |Preference(tok, members, h)|
    ensures NextNearest(tok, members, h, Preference(tok, members, h), k)
  {
    var s, o := Table(tok, members), Preference(tok, members, h);
    SortIsSorted(AllTokens(tok, members));
    var c := Clockwise(s, h);
    OwnersConcat(AtOrAfter(s, h), Before(s, h));
    var at := FirstPlace(Walk(s, h), k);
    OwnersAt(c, at);
    ClockwiseHas(s, h, c[at]);
    TableOnlyHas(tok, members, c[at]);
    var j :| 0 <= j < 128 && tok(c[at].owner, j) == c[at].v;
    forall m, i | m in members && m !in o[..k + 1] && 0 <= i < 128 ensures Nearer(h, Token(tok(o[k], j), o[k]), Token(tok(m, i), m)) {
      TableHas(tok, members, m, i);
      LaterToken(s, h, o, k, at, Token(tok(m, i), m));
    }
    assert OwnsNearest(tok, members, h, o, k, j);
  }

  /** A token of a member not yet listed comes later on the walk. */
  lemma LaterToken(s: seq<Token>, h: nat, o: seq<string>, k: nat, at: nat, t: Token)
    requires Sorted(s) && k < |o| && at < |Clockwise(s, h)| && Clockwise(s, h)[at].owner == o[k]
    requires forall j :: 0 <= j < at ==> Walk(s, h)[j] in o[..k]
    requires |Walk(s, h)| == |Clockwise(s, h)| && Walk(s, h) == Owners(Clockwise(s, h))
    requires t in s && t.owner !in o[..k + 1]
    ensures Nearer(h, Clockwise(s, h)[at], t)
  {
    var c := Clockwise(s, h);
    ClockwiseHas(s, h, t);
    var b :| 0 <= b < |c| && c[b] == t;
    OwnersAt(c, b);
    assert o[..k + 1] == o[..k] + [o[k]];
    assert b >= at;
    ClockwiseOrder(s, h, at, b);
  }

  // ---- Replicas ----

  /** sort.Search: the first token at or after h, or past the end. */
  method Search(table: seq<Token>, h: nat) returns (i: nat)
    requires Sorted(table)
    ensures i <= |table| && (forall k :: 0 <= k < i ==> table[k].v < h) && (forall k :: i <= k < |table| ==> table[k].v >= h)
  {
    var lo, hi := 0, |table|;
    while lo < hi
      invariant 0 <= lo <= hi <= |table|
      invariant (forall k :: 0 <= k < lo ==> table[k].v < h) && (forall k :: hi <= k < |table| ==> table[k].v >= h)
    {
      var mid := (lo + hi) / 2;
      if table[mid].v >= h {
        forall k | mid <= k < |table| ensures table[k].v >= h { assert Leq(table[mid], table[k]); }
        hi := mid;
      } else {
        forall k | 0 <= k <= mid ensures table[k].v < h { assert Leq(table[k], table[mid]); }
        lo := mid + 1;
      }
    }
    i := lo;
  }

  lemma {:induction false} SplitAt(s: seq<Token>, h: nat, i: nat)
    requires i <= |s| && (forall k :: 0 <= k < i ==> s[k].v < h) && (forall k :: i <= k < |s| ==> s[k].v >= h)
    ensures AtOrAfter(s, h) == s[i..] && Before(s, h) == s[..i]
  {
    if i == |s| {
      AllBefore(s, h);
      assert s[i..] == [] && s[..i] == s;
    } else {
      var n := |s| - 1;
      var p := s[..n];
      SplitAt(p, h, i);
      assert s[..i] == p[..i];
      assert s[i..] == p[i..] + [s[n]];
    }
  }

  lemma {:induction false} AllBefore(s: seq<Token>, h: nat)
    requires forall k :: 0 <= k < |s| ==> s[k].v < h
    ensures AtOrAfter(s, h) == [] && Before(s, h) == s
  {
    if s != [] {
      var p, last := s[..|s| - 1], s[|s| - 1];
      forall k | 0 <= k < |p| ensures p[k].v < h { assert p[k] == s[k]; }
      AllBefore(p, h);
      SplitLast(s);
      assert last.v < h;
    }
  }

  lemma {:induction false} OwnersAt(s: seq<Token>, k: nat)
    requires k < |s|
    ensures Owners(s)[k] == s[k].owner
  {
    if k < |s| - 1 { OwnersAt(s[..|s| - 1], k); }
  }

  /** The walk by index: (i + step) mod the table's length. */
  lemma WalkAt(s: seq<Token>, h: nat, i: nat, step: nat)
    requires i <= |s| && step < |s| && (forall k :: 0 <= k < i ==> s[k].v < h) && (forall k :: i <= k < |s| ==> s[k].v >= h)
    ensures |Walk(s, h)| == |s| && Walk(s, h)[step] == s[(i + step) % |s|].owner
  {
    SplitAt(s, h, i);
    WrapIndex(i + step, |s|);
    if step < |s| - i {
      OwnersAt(s[i..], step);
    } else {
      OwnersAt(s[..i], step - (|s| - i));
    }
  }

  lemma WrapIndex(a: nat, n: nat)
    requires n > 0 && a < 2 * n
    ensures a % n == if a < n then a else a - n
  {
  }

  lemma FirstSeenStep(w: seq<string>, step: nat)
    requires step < |w|
    ensures FirstSeen(w[..step + 1]) ==
      if w[step] in FirstSeen(w[..step]) then FirstSeen(w[..step]) else FirstSeen(w[..step]) + [w[step]]
  {
    assert w[..step + 1][..step] == w[..step];
  }

  lemma {:induction false} FirstSeenPrefix(w: seq<string>, step: nat)
    requires step <= |w|
    ensures |FirstSeen(w[..step])| <= |FirstSeen(w)| && FirstSeen(w[..step]) == FirstSeen(w)[..|FirstSeen(w[..step])|]
  {
    if step == |w| {
      assert w[..step] == w;
    } else {
      FirstSeenPrefix(w[..|w| - 1], step);
      assert w[..|w| - 1][..step] == w[..step];
    }
  }

  /** The n members that hold a key: n distinct ones, the owner first. */
  method Replicas(r: Ring, ghost tok: (string, nat) -> nat, ghost members: seq<string>, h: nat, n: nat) returns (o: seq<string>, ok: bool)
    requires IsRing(r, tok, members) && Distinct(members)
    ensures ok <==> 1 <= n <= |members|
    ensures ok ==> o == Take(Preference(tok, members, h), n)
    ensures ok ==> |o| == n && Distinct(o) && forall m :: m in o ==> m in members
    ensures ok ==> forall k :: 0 <= k < n ==> NextNearest(tok, members, h, o, k)
  {
    SameNames(r.members, members);
    o := [];
    if n < 1 || n > |r.members| { return o, false; }
    SortIsSorted(AllTokens(tok, members));
    var i := Search(r.table, h);
    ghost var w := Walk(r.table, h);
    PreferenceIsEveryone(tok, members, h);
    SizeOfWalk(r.table, h);
    var taken: set<string> := {};
    var step := 0;
    assert w[..0] == [];
    while |o| < n && step < |r.table|
      invariant 0 <= step <= |r.table| == |w| && |o| <= n
      invariant o == FirstSeen(w[..step]) && forall x :: x in taken <==> x in o
    {
      WalkAt(r.table, h, i, step);
      FirstSeenStep(w, step);
      var owner := r.table[(i + step) % |r.table|].owner;
      if owner !in taken {
        taken := taken + {owner};
        o := o + [owner];
      }
      step := step + 1;
    }
    FirstSeenPrefix(w, step);
    if step == |w| { assert w[..step] == w; }
    TakeOfPreference(tok, members, h, o, n);
    TakenAreNearest(tok, members, h, o, n);
    ok := true;
  }

  lemma TakenAreNearest(tok: (string, nat) -> nat, members: seq<string>, h: nat, o: seq<string>, n: nat)
    requires Distinct(members) && n <= |members| && o == Take(Preference(tok, members, h), n) && |o| == n
    ensures forall k :: 0 <= k < n ==> NextNearest(tok, members, h, o, k)
  {
    var pref := Preference(tok, members, h);
    PreferenceIsEveryone(tok, members, h);
    forall k | 0 <= k < n ensures NextNearest(tok, members, h, o, k) {
      PreferenceIsNearest(tok, members, h, k);
      assert o[..k + 1] == pref[..k + 1];
      SamePrefixNearest(tok, members, h, pref, o, k);
    }
  }

  lemma SamePrefixNearest(tok: (string, nat) -> nat, members: seq<string>, h: nat, pref: seq<string>, o: seq<string>, k: nat)
    requires k < |o| && k < |pref| && o[..k + 1] == pref[..k + 1] && NextNearest(tok, members, h, pref, k)
    ensures NextNearest(tok, members, h, o, k)
  {
    assert o[k] == o[..k + 1][k] == pref[k];
    var j :| 0 <= j < 128 && OwnsNearest(tok, members, h, pref, k, j);
    assert OwnsNearest(tok, members, h, o, k, j);
  }

  lemma {:induction false} SizeOfWalk(s: seq<Token>, h: nat)
    ensures |Walk(s, h)| == |s|
  {
    SizeOfParts(s, h);
  }

  lemma {:induction false} SizeOfParts(s: seq<Token>, h: nat)
    ensures |AtOrAfter(s, h)| + |Before(s, h)| == |s|
  {
    if s != [] { SizeOfParts(s[..|s| - 1], h); }
  }

  lemma TakeOfPreference(tok: (string, nat) -> nat, members: seq<string>, h: nat, o: seq<string>, n: nat)
    requires Distinct(members) && 1 <= n <= |members| && |o| <= n
    requires |o| <= |Preference(tok, members, h)| && o == Preference(tok, members, h)[..|o|]
    requires |o| == n || o == Preference(tok, members, h)
    ensures o == Take(Preference(tok, members, h), n)
    ensures |o| == n && Distinct(o) && forall m :: m in o ==> m in members
  {
    PreferenceIsEveryone(tok, members, h);
    var pref := Preference(tok, members, h);
    forall m | m in o ensures m in members {
      assert m in Names(pref);
    }
  }

  /** lookup: the first token at or after h, wrapping, names the owner, which is the
      first of the replicas. */
  method Lookup(r: Ring, ghost tok: (string, nat) -> nat, ghost members: seq<string>, h: nat) returns (m: string)
    requires IsRing(r, tok, members) && Distinct(members) && members != []
    ensures [m] == Take(Preference(tok, members, h), 1)
    ensures m in members && exists j :: 0 <= j < 128 && FirstToken(tok, members, h, tok(m, j))
  {
    assert Sorted(r.table) && r.table != [] by {
      SortIsSorted(AllTokens(tok, members));
      SizeOfTable(tok, members);
    }
    var i := Search(r.table, h);
    FirstAtOrAfter(r.table, h, i);
    if i == |r.table| { i := 0; }
    m := r.table[i].owner;
    FoundFirst(tok, members, h, i);
  }

  /** v is met first going clockwise from h: at or after h with no token in between, or, if
      there is none, the least of all. */
  ghost predicate FirstToken(tok: (string, nat) -> nat, members: seq<string>, h: nat, v: nat) {
    forall m, i :: m in members && 0 <= i < 128 ==> if v >= h then !(h <= tok(m, i) < v) else v <= tok(m, i) < h
  }

  lemma FoundFirst(tok: (string, nat) -> nat, members: seq<string>, h: nat, i: nat)
    requires Distinct(members) && i < |Table(tok, members)|
    requires var s := Table(tok, members);
      (s[i].v >= h && forall k :: 0 <= k < i ==> s[k].v < h) || (i == 0 && forall k :: 0 <= k < |s| ==> s[k].v < h)
    ensures var t := Table(tok, members)[i];
      t.owner in members && exists j :: 0 <= j < 128 && FirstToken(tok, members, h, tok(t.owner, j))
  {
    var s := Table(tok, members);
    var t := s[i];
    SortIsSorted(AllTokens(tok, members));
    TableOnlyHas(tok, members, t);
    var j :| 0 <= j < 128 && tok(t.owner, j) == t.v;
    forall m, k | m in members && 0 <= k < 128 ensures if t.v >= h then !(h <= tok(m, k) < t.v) else t.v <= tok(m, k) < h {
      TableHas(tok, members, m, k);
      var p :| 0 <= p < |s| && s[p] == Token(tok(m, k), m);
      if p >= i { assert Leq(s[i], s[p]); }
    }
    assert FirstToken(tok, members, h, tok(t.owner, j));
  }

  lemma FirstAtOrAfter(s: seq<Token>, h: nat, i: nat)
    requires s != [] && i <= |s| && (forall k :: 0 <= k < i ==> s[k].v < h) && (forall k :: i <= k < |s| ==> s[k].v >= h)
    ensures Take(FirstSeen(Walk(s, h)), 1) == [s[if i == |s| then 0 else i].owner]
  {
    WalkAt(s, h, i, 0);
    WrapIndex(i, |s|);
    FirstOfWalk(Walk(s, h));
  }

  lemma FirstOfWalk(w: seq<string>)
    requires w != []
    ensures Take(FirstSeen(w), 1) == [w[0]]
  {
    assert w[..0] == [];
    FirstSeenStep(w, 0);
    FirstSeenPrefix(w, 1);
  }

  lemma {:induction false} SizeOfAll(tok: (string, nat) -> nat, members: seq<string>)
    ensures |AllTokens(tok, members)| == TOKENS_PER_MEMBER * |members|
  {
    if members != [] { SizeOfAll(tok, members[..|members| - 1]); }
  }

  lemma SizeOfTable(tok: (string, nat) -> nat, members: seq<string>)
    ensures |Table(tok, members)| == TOKENS_PER_MEMBER * |members|
  {
    SizeOfAll(tok, members);
    SortIsSorted(AllTokens(tok, members));
    assert |multiset(Table(tok, members))| == |Table(tok, members)|;
    assert |multiset(AllTokens(tok, members))| == |AllTokens(tok, members)|;
  }
}
