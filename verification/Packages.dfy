/** The package builder: which packages a package needs, and in what order they are built. */
module Packages {
  import opened Common

  type Name = string

  /** The packages with their dependencies, by name. */
  type Graph = map<Name, seq<Name>>

  ghost predicate Closed(g: Graph) {
    forall n, d :: n in g && d in g[n] ==> d in g
  }

  /** rank shows that there is no cycle. */
  ghost predicate Ranked(g: Graph, rank: map<Name, nat>) {
    Closed(g) && (forall n :: n in g ==> n in rank) && forall n, d :: n in g && d in g[n] ==> rank[d] < rank[n]
  }

  /** Dependencies are packages, there is no cycle, and no package lists another one twice. */
  ghost predicate Orderable(g: Graph) {
    (exists rank :: Ranked(g, rank)) && forall n :: n in g ==> NoDup(g[n])
  }

  // ---- declaring packages ----

  /** uniq: the first occurrence of each element, in order. */
  function Uniq(l: seq<Name>): seq<Name> {
    if l == [] then []
    else
      var (was, x) := (l[..|l| - 1], l[|l| - 1]);
      Uniq(was) + if x in was then [] else [x]
  }

  /** Nothing is lost and nothing is left twice. */
  lemma {:induction false} UniqHolds(l: seq<Name>)
    ensures NoDup(Uniq(l)) && forall x :: x in Uniq(l) <==> x in l
  {
    if l == [] {
      assert NoDup(Uniq(l));
    } else {
      var was, x := l[..|l| - 1], l[|l| - 1];
      UniqHolds(was);
      assert l == was + [x];
      if x in was { assert Uniq(l) == Uniq(was); } else { NoDupSnoc(Uniq(was), x); }
    }
  }

  /** Elements stay in the order in which they occur first. */
  lemma {:induction false} UniqOrder(l: seq<Name>, k: nat)
    requires k <= |l|
    ensures Uniq(l[..k]) <= Uniq(l)
    decreases |l|
  {
    if k == |l| {
      assert l[..k] == l;
    } else {
      UniqOrder(l[..|l| - 1], k);
      assert l[..|l| - 1][..k] == l[..k];
    }
  }

  /** uniq remembers in a dictionary what it has seen. */
  method UniqueOf(l: seq<Name>) returns (r: seq<Name>)
    ensures r == Uniq(l) && NoDup(r) && forall x :: x in r <==> x in l
  {
    r := [];
    var seen: set<Name> := {};
    for k := 0 to |l|
      invariant r == Uniq(l[..k]) && forall x :: x in seen <==> x in l[..k]
    {
      assert l[..k + 1][..k] == l[..k];
      if l[k] !in seen { r := r + [l[k]]; }
      seen := seen + {l[k]};
    }
    assert l[..|l|] == l;
    UniqHolds(l);
  }

  /** A rank above those of all elements of a list. */
  function Above(rank: map<Name, nat>, l: seq<Name>): (r: nat)
    requires forall d :: d in l ==> d in rank
    ensures forall d :: d in l ==> rank[d] < r
  {
    if l == [] then 0
    else
      var r := Above(rank, l[1..]);
      if rank[l[0]] < r then r else rank[l[0]] + 1
  }

  /** A package whose dependencies are declared already makes no cycle. */
  lemma Declared(g: Graph, name: Name, deps: seq<Name>)
    requires Orderable(g) && name !in g && forall d :: d in deps ==> d in g
    ensures Orderable(g[name := Uniq(deps)])
  {
    UniqHolds(deps);
    var rank :| Ranked(g, rank);
    assert Ranked(g[name := Uniq(deps)], rank[name := Above(rank, Uniq(deps))]);
  }

  // ---- building in order ----

  /** remove on a list: the first occurrence. */
  function RemoveFirst(l: seq<Name>, x: Name): seq<Name> {
    if l == [] then [] else if l[0] == x then l[1..] else [l[0]] + RemoveFirst(l[1..], x)
  }

  /** Package n is taken out, of the table and of the other packages' dependencies. */
  function Without(g: Graph, n: Name): Graph {
    map k | k in g && k != n :: RemoveFirst(g[k], n)
  }

  /** What is left of the table when the packages of out have been taken out one by one, each at a time
      when its own dependencies were used up; None if some were not. */
  function After(g: Graph, out: seq<Name>): Option<Graph>
    decreases |out|
  {
    if out == [] then Some(g)
    else
      var m, n := After(g, out[..|out| - 1]), out[|out| - 1];
      if m.None? || n !in m.value || m.value[n] != [] then None else Some(Without(m.value, n))
  }

  /** Every package once, after all its dependencies. */
  ghost predicate InOrder(g: Graph, out: seq<Name>) {
    && NoDup(out) && (forall n :: n in g <==> n in out)
    && (forall i, d :: 0 <= i < |out| && out[i] in g && d in g[out[i]] ==> d in out[..i])
  }

  lemma {:induction false} Removed(l: seq<Name>, x: Name)
    ensures multiset(RemoveFirst(l, x)) == multiset(l) - multiset{x}
    decreases |l|
  {
    if l == [] {
    } else {
      assert l == [l[0]] + l[1..];
      if l[0] != x { Removed(l[1..], x); }
    }
  }

  lemma {:induction false} AfterNames(g: Graph, out: seq<Name>)
    requires After(g, out).Some?
    ensures NoDup(out) && (forall n :: n in out ==> n in g)
    ensures (forall n :: n in After(g, out).value <==> n in g && n !in out)
    decreases |out|
  {
    if out == [] {
    } else {
      var was, n := out[..|out| - 1], out[|out| - 1];
      AfterNames(g, was);
      assert out == was + [n];
      NoDupSnoc(was, n);
    }
  }

  /** What is left of a package's dependencies: one occurrence less of each package that is out. */
  lemma {:induction false} AfterLists(g: Graph, out: seq<Name>, k: Name)
    requires After(g, out).Some? && k in After(g, out).value && k in g
    ensures multiset(After(g, out).value[k]) == multiset(g[k]) - multiset(out)
    decreases |out|
  {
    if out == [] {
    } else {
      var was, n := out[..|out| - 1], out[|out| - 1];
      AfterLists(g, was, k);
      assert out == was + [n];
      Removed(After(g, was).value[k], n);
    }
  }

  lemma AfterIs(g: Graph, out: seq<Name>)
    requires After(g, out).Some?
    ensures var m := After(g, out).value;
      && NoDup(out) && (forall n :: n in out ==> n in g) && (forall n :: n in m <==> n in g && n !in out)
      && (forall n :: n in m ==> multiset(m[n]) == multiset(g[n]) - multiset(out))
  {
    AfterNames(g, out);
    forall n | n in After(g, out).value ensures multiset(After(g, out).value[n]) == multiset(g[n]) - multiset(out) {
      AfterLists(g, out, n);
    }
  }

  lemma {:induction false} AfterPrefix(g: Graph, out: seq<Name>, i: nat)
    requires After(g, out).Some? && i < |out|
    ensures After(g, out[..i]).Some? && out[i] in After(g, out[..i]).value && After(g, out[..i]).value[out[i]] == []
    decreases |out|
  {
    if i >= |out| - 1 {
    } else {
      AfterPrefix(g, out[..|out| - 1], i);
      assert out[..|out| - 1][..i] == out[..i];
    }
  }

  /** At the time a package is taken out, each of its dependencies has been, and is listed once. */
  lemma UsedUp(g: Graph, out: seq<Name>, i: nat)
    requires After(g, out).Some? && i < |out|
    ensures out[i] in g && NoDup(g[out[i]]) && forall d :: d in g[out[i]] ==> d in out[..i]
  {
    AfterPrefix(g, out, i);
    AfterIs(g, out[..i]);
    var l, was := g[out[i]], out[..i];
    assert multiset(l) - multiset(was) == multiset{};
    forall d | d in l ensures d in was && multiset(l)[d] <= 1 {
      assert (multiset(l) - multiset(was))[d] == 0;
      OnceEach(was, d);
    }
    if exists j, k :: 0 <= j < k < |l| && l[j] == l[k] {
      var j, k :| 0 <= j < k < |l| && l[j] == l[k];
      Twice(l, j, k);
    }
  }

  lemma {:induction false} OnceEach(s: seq<Name>, x: Name)
    requires NoDup(s)
    ensures multiset(s)[x] <= 1
    decreases |s|
  {
    if s == [] {
    } else {
      NoDupTail(s);
      OnceEach(s[1..], x);
      assert s == [s[0]] + s[1..];
    }
  }

  lemma Twice(l: seq<Name>, j: nat, k: nat)
    requires j < k < |l| && l[j] == l[k]
    ensures multiset(l)[l[j]] >= 2
  {
    RemoveAt(l, j);
    assert l[k] in l[..j] + l[j + 1..] by { assert (l[..j] + l[j + 1..])[k - 1] == l[k]; }
  }

  function IndexIn(s: seq<Name>, x: Name): (i: nat)
    requires x in s
    ensures i < |s| && s[i] == x
  {
    if s[0] == x then 0 else 1 + IndexIn(s[1..], x)
  }

  /** A table is emptied by the loop only if it is orderable, and what has come out is in order. */
  lemma EmptiedOnlyIf(g: Graph, out: seq<Name>)
    requires After(g, out) == Some(map[])
    ensures Orderable(g) && InOrder(g, out)
  {
    AfterIs(g, out);
    var none: Graph := map[];
    forall n | n in g ensures n in out { assert n !in none; }
    var rank := map n | n in g :: IndexIn(out, n);
    forall n | n in g ensures NoDup(g[n]) && forall d :: d in g[n] ==> d in g && rank[d] < rank[n] {
      var i := IndexIn(out, n);
      UsedUp(g, out, i);
      forall d | d in g[n] ensures d in g && rank[d] < rank[n] {
        var j := IndexIn(out[..i], d);
        assert out[j] == d && out[IndexIn(out, d)] == d;
      }
    }
    assert Ranked(g, rank);
    forall i, d | 0 <= i < |out| && out[i] in g && d in g[out[i]] ensures d in out[..i] { UsedUp(g, out, i); }
  }

  /** When all dependencies of a package are out, nothing is left of its list. */
  lemma NothingLeft(g: Graph, out: seq<Name>, n: Name)
    requires After(g, out).Some? && n in After(g, out).value && n in g && NoDup(g[n])
      && forall d :: d in g[n] ==> d in out
    ensures After(g, out).value[n] == []
  {
    AfterIs(g, out);
    Gone(After(g, out).value[n], g[n], out);
  }

  lemma NoneOver(a: seq<Name>, b: seq<Name>, x: Name)
    requires NoDup(a) && forall x :: x in a ==> x in b
    ensures (multiset(a) - multiset(b))[x] == 0
  {
    OnceEach(a, x);
    if x in a { assert x in multiset(b); }
  }

  lemma FirstIn(l: seq<Name>)
    requires l != []
    ensures multiset(l)[l[0]] > 0
  {
    assert l[0] in multiset(l);
  }

  lemma Gone(l: seq<Name>, a: seq<Name>, b: seq<Name>)
    requires multiset(l) == multiset(a) - multiset(b) && NoDup(a) && forall x :: x in a ==> x in b
    ensures l == []
  {
    if l != [] {
      NoneOver(a, b, l[0]);
      FirstIn(l);
    }
  }

  lemma {:induction false} Lowest(s: set<Name>, rank: map<Name, nat>) returns (n: Name)
    requires s != {} && forall k :: k in s ==> k in rank
    ensures n in s && forall k :: k in s ==> rank[n] <= rank[k]
    decreases |s|
  {
    n :| n in s;
    var first, others := n, s - {n};
    assert s == others + {first};
    if others == {} {
    } else {
      var m := Lowest(others, rank);
      if rank[m] < rank[n] { n := m; }
    }
    forall k | k in s ensures rank[n] <= rank[k] { assert k == first || k in others; }
  }

  /** A package of lowest rank among those that are left has nothing left to wait for. */
  lemma SomeReady(g: Graph, out: seq<Name>) returns (n: Name)
    requires Orderable(g) && After(g, out).Some? && After(g, out).value != map[]
    ensures n in After(g, out).value && After(g, out).value[n] == []
  {
    var rank :| Ranked(g, rank);
    AfterIs(g, out);
    var m := After(g, out).value;
    assert m.Keys == {} ==> m == map[];
    n := Lowest(m.Keys, rank);
    forall d | d in g[n] ensures d in out { assert d in out || d in m.Keys; }
    NothingLeft(g, out, n);
  }

  /** The names in a table, in whatever order the dictionary gives them. */
  method NamesOf(m: Graph) returns (names: seq<Name>)
    ensures NoDup(names) && forall n :: n in names <==> n in m
  {
    names := [];
    var left := m.Keys;
    while left != {}
      invariant left <= m.Keys && NoDup(names) && forall n :: n in names <==> n in m && n !in left
      decreases |left|
    {
      var n :| n in left;
      NoDupSnoc(names, n);
      names := names + [n];
      left := left - {n};
    }
  }

  /** The loop of buildOrder: pass after pass over the names, each package without dependencies is deleted,
      removed from the others' dependencies and built. */
  method BuildTable(g: Graph) returns (out: seq<Name>)
    requires Orderable(g)
    ensures After(g, out) == Some(map[]) && InOrder(g, out)
  {
    var packages := g;
    out := [];
    assert After(g, out) == Some(packages);
    hide After, Without, Orderable, InOrder;
    while |packages| != 0
      invariant After(g, out) == Some(packages)
      decreases |packages|
    {
      var names := NamesOf(packages);
      ghost var ready := SomeReady(g, out);
      ghost var size := |packages|;
      for k := 0 to |names|
        invariant After(g, out) == Some(packages) && |packages| <= size
        invariant forall j :: k <= j < |names| ==> names[j] in packages
        invariant if |packages| == size then ready in names[k..] && ready in packages && packages[ready] == [] else true
      {
        var p := names[k];
        if packages[p] == [] {
          AfterNext(g, out, packages, p);
          Shrinks(packages, p);
          packages := Without(packages, p);
          out := out + [p];
        } else {
          assert names[k..] == [p] + names[k + 1..];
        }
      }
      assert names[|names|..] == [];
    }
    EmptiedOnlyIf(g, out);
  }

  lemma AfterNext(g: Graph, out: seq<Name>, m: Graph, p: Name)
    requires After(g, out) == Some(m) && p in m && m[p] == []
    ensures After(g, out + [p]) == Some(Without(m, p))
  {
    assert (out + [p])[..|out + [p]| - 1] == out;
  }

  lemma Shrinks(m: Graph, n: Name)
    requires n in m
    ensures |Without(m, n)| < |m| && Without(m, n).Keys == m.Keys - {n}
  {
    assert Without(m, n).Keys == m.Keys - {n};
  }

  // ---- what a package needs ----

  /** deps: the dependencies of the dependencies, then the package itself unless it is the first. */
  function Deps(g: Graph, rank: map<Name, nat>, n: Name, first: bool): seq<Name>
    requires Ranked(g, rank) && n in g
    decreases rank[n], |g[n]| + 1
  {
    DepsAll(g, rank, n, g[n]) + if first then [] else [n]
  }

  function DepsAll(g: Graph, rank: map<Name, nat>, n: Name, l: seq<Name>): seq<Name>
    requires Ranked(g, rank) && n in g && forall d :: d in l ==> d in g[n]
    decreases rank[n], |l|
  {
    if l == [] then [] else DepsAll(g, rank, n, l[..|l| - 1]) + Deps(g, rank, l[|l| - 1], false)
  }

  ghost predicate ClosedSet(g: Graph, s: set<Name>) {
    forall n, d :: n in s && n in g && d in g[n] ==> d in s
  }

  /** The packages collected for n are those in every closed set with n, and form a closed set with it. */
  lemma {:induction false} DepsHold(g: Graph, rank: map<Name, nat>, n: Name, first: bool, s: set<Name>)
    requires Ranked(g, rank) && n in g
    ensures n in s && ClosedSet(g, s) ==> forall d :: d in Deps(g, rank, n, first) ==> d in s
    ensures forall d :: d in g[n] ==> d in Deps(g, rank, n, first)
    ensures forall m, d :: m in Deps(g, rank, n, first) && m in g && d in g[m] ==> d in Deps(g, rank, n, first)
    ensures forall m :: m in Deps(g, rank, n, first) ==> m in g
    decreases rank[n], |g[n]| + 1
  {
    DepsAllHold(g, rank, n, g[n], s);
  }

  lemma {:induction false} DepsAllHold(g: Graph, rank: map<Name, nat>, n: Name, l: seq<Name>, s: set<Name>)
    requires Ranked(g, rank) && n in g && forall d :: d in l ==> d in g[n]
    ensures n in s && ClosedSet(g, s) ==> forall d :: d in DepsAll(g, rank, n, l) ==> d in s
    ensures forall d :: d in l ==> d in DepsAll(g, rank, n, l)
    ensures forall m, d :: m in DepsAll(g, rank, n, l) && m in g && d in g[m] ==> d in DepsAll(g, rank, n, l)
    ensures forall m :: m in DepsAll(g, rank, n, l) ==> m in g
    decreases rank[n], |l|
  {
    if l == [] {
    } else {
      var d := l[|l| - 1];
      assert l == l[..|l| - 1] + [d];
      DepsAllHold(g, rank, n, l[..|l| - 1], s);
      DepsHold(g, rank, d, false, s);
    }
  }

  /** Each package of the list comes after all its dependencies. */
  ghost predicate DepsFirst(g: Graph, s: seq<Name>) {
    forall i, d :: 0 <= i < |s| && s[i] in g && d in g[s[i]] ==> d in s[..i]
  }

  lemma DepsFirstJoin(g: Graph, a: seq<Name>, b: seq<Name>)
    requires DepsFirst(g, a) && DepsFirst(g, b)
    ensures DepsFirst(g, a + b)
  {
    var s := a + b;
    forall i, d | 0 <= i < |s| && s[i] in g && d in g[s[i]] ensures d in s[..i] {
      if i < |a| {
        assert s[..i] == a[..i];
      } else {
        assert d in b[..i - |a|];
        assert s[..i] == a + b[..i - |a|];
      }
    }
  }

  lemma DepsFirstSnoc(g: Graph, a: seq<Name>, n: Name)
    requires DepsFirst(g, a) && n in g && forall d :: d in g[n] ==> d in a
    ensures DepsFirst(g, a + [n])
  {
    var s := a + [n];
    forall i, d | 0 <= i < |s| && s[i] in g && d in g[s[i]] ensures d in s[..i] {
      if i < |a| { assert s[..i] == a[..i]; } else { assert s[..i] == a; }
    }
  }

  /** The dependencies are listed before what depends on them. */
  lemma {:induction false} DepsInOrder(g: Graph, rank: map<Name, nat>, n: Name, first: bool)
    requires Ranked(g, rank) && n in g
    ensures DepsFirst(g, Deps(g, rank, n, first))
    decreases rank[n], |g[n]| + 1
  {
    var s := DepsAll(g, rank, n, g[n]);
    DepsAllInOrder(g, rank, n, g[n]);
    if first {
      assert s + [] == s;
    } else {
      DepsAllHold(g, rank, n, g[n], {});
      DepsFirstSnoc(g, s, n);
    }
  }

  lemma {:induction false} DepsAllInOrder(g: Graph, rank: map<Name, nat>, n: Name, l: seq<Name>)
    requires Ranked(g, rank) && n in g && forall d :: d in l ==> d in g[n]
    ensures DepsFirst(g, DepsAll(g, rank, n, l))
    decreases rank[n], |l|
  {
    if l == [] {
    } else {
      var d := l[|l| - 1];
      assert d in l;
      DepsAllInOrder(g, rank, n, l[..|l| - 1]);
      DepsInOrder(g, rank, d, false);
      DepsFirstJoin(g, DepsAll(g, rank, n, l[..|l| - 1]), Deps(g, rank, d, false));
    }
  }

  method DepsOf(g: Graph, ghost rank: map<Name, nat>, n: Name, first: bool) returns (s: seq<Name>)
    requires Ranked(g, rank) && n in g
    ensures s == Deps(g, rank, n, first)
    decreases rank[n]
  {
    s := [];
    for k := 0 to |g[n]|
      invariant s == DepsAll(g, rank, n, g[n][..k])
    {
      var r := DepsOf(g, rank, g[n][k], false);
      assert g[n][..k + 1][..k] == g[n][..k];
      s := s + r;
    }
    assert g[n][..|g[n]|] == g[n];
    if !first { s := s + [n]; }
  }

  /** The least set of packages that holds n and all dependencies of its members. */
  ghost predicate LeastClosed(g: Graph, n: Name, s: set<Name>) {
    && n in s && s <= g.Keys && ClosedSet(g, s)
    && forall t: set<Name> :: n in t && ClosedSet(g, t) ==> s <= t
  }

  class Builder {
    var packages: Graph

    /** The packages to build: all of them, or one with everything it needs. */
    constructor (g: Graph, ghost rank: map<Name, nat>, package: Option<Name>)
      requires Ranked(g, rank) && (package.Some? ==> package.value in g)
      ensures package.None? ==> packages == g
      ensures package.Some? ==> LeastClosed(g, package.value, packages.Keys)
      ensures package.Some? ==> forall n :: n in packages ==> packages[n] == g[n]
    {
      if package.None? {
        packages := g;
      } else {
        var n := package.value;
        var l := DepsOf(g, rank, n, true);
        forall s: set<Name> { DepsHold(g, rank, n, true, s); }
        DepsHold(g, rank, n, true, {});
        var table := AddAll(g, map[n := g[n]], l);
        packages := table;
      }
    }
  }

  /** Add the packages of a list to a table. */
  method AddAll(g: Graph, m: Graph, l: seq<Name>) returns (table: Graph)
    requires (forall n :: n in l ==> n in g) && forall n :: n in m ==> n in g && m[n] == g[n]
    ensures table.Keys == m.Keys + Elements(l) && forall n :: n in table ==> n in g && table[n] == g[n]
  {
    table := m;
    for k := 0 to |l|
      invariant table.Keys == m.Keys + Elements(l[..k]) && forall n :: n in table ==> n in g && table[n] == g[n]
    {
      assert l[..k + 1] == l[..k] + [l[k]];
      if l[k] !in table { table := table[l[k] := g[l[k]]]; }
    }
    assert l[..|l|] == l;
  }

  function Elements(l: seq<Name>): set<Name> {
    set x | x in l
  }

  // ---- the packages for one name ----

  /** How much work a package is: itself and everything below it, each way counted. */
  function Work(g: Graph, rank: map<Name, nat>, n: Name): nat
    requires Ranked(g, rank) && n in g
    decreases rank[n], |g[n]| + 1
  {
    1 + WorkAll(g, rank, n, g[n])
  }

  function WorkAll(g: Graph, rank: map<Name, nat>, n: Name, l: seq<Name>): nat
    requires Ranked(g, rank) && n in g && forall d :: d in l ==> d in g[n]
    decreases rank[n], |l|
  {
    if l == [] then 0 else WorkAll(g, rank, n, l[..|l| - 1]) + Work(g, rank, l[|l| - 1])
  }

  function StackWork(g: Graph, rank: map<Name, nat>, l: seq<Name>): nat
    requires Ranked(g, rank) && forall n :: n in l ==> n in g
  {
    if l == [] then 0 else StackWork(g, rank, l[..|l| - 1]) + Work(g, rank, l[|l| - 1])
  }

  lemma {:induction false} PushWork(g: Graph, rank: map<Name, nat>, rest: seq<Name>, c: Name, l: seq<Name>)
    requires Ranked(g, rank) && c in g && (forall n :: n in rest ==> n in g) && forall d :: d in l ==> d in g[c]
    ensures StackWork(g, rank, rest + l) == StackWork(g, rank, rest) + WorkAll(g, rank, c, l)
    decreases |l|
  {
    if l == [] { assert rest + l == rest; }
    else {
      assert (rest + l)[..|rest + l| - 1] == rest + l[..|l| - 1];
      PushWork(g, rank, rest, c, l[..|l| - 1]);
    }
  }

  /** What the search for the packages of a name keeps: what is checked has all its dependencies in the
      table, and what is in the table is checked or waiting, and is needed. */
  ghost predicate Searching(g: Graph, name: Name, m: Graph, checked: set<Name>, toCheck: seq<Name>) {
    && name in m && (forall n :: n in m ==> n in g && m[n] == g[n])
    && (forall n :: n in toCheck ==> n in m) && (forall n :: n in m ==> n in checked || n in toCheck)
    && (forall n, d :: n in checked && n in g && d in g[n] ==> d in m)
    && (forall t: set<Name> :: name in t && ClosedSet(g, t) ==> m.Keys <= t)
  }

  lemma SearchOn(g: Graph, name: Name, m: Graph, checked: set<Name>, rest: seq<Name>, c: Name, m2: Graph)
    requires Closed(g) && Searching(g, name, m, checked, rest + [c]) && c in g
    requires m2.Keys == m.Keys + Elements(g[c]) && forall n :: n in m2 ==> n in g && m2[n] == g[n]
    ensures Searching(g, name, m2, checked + {c}, rest + g[c])
  {
    forall t: set<Name> | name in t && ClosedSet(g, t) ensures m2.Keys <= t {
      assert m.Keys <= t;
      assert c in m by { assert c in rest + [c]; }
    }
    forall n | n in m2 ensures n in checked + {c} || n in rest + g[c] {
      if n in m { assert n in checked || n in rest + [c]; }
    }
  }

  /** The first part of buildOrder for a single name: a list of packages still to check, to which all
      dependencies are added again each time, and a table that only grows. */
  method Needed(g: Graph, ghost rank: map<Name, nat>, name: Name) returns (packages: Graph)
    requires Ranked(g, rank) && name in g
    ensures LeastClosed(g, name, packages.Keys) && forall n :: n in packages ==> packages[n] == g[n]
  {
    var toCheck := [name];
    ghost var checked: set<Name> := {};
    packages := map[name := g[name]];
    while toCheck != []
      invariant Searching(g, name, packages, checked, toCheck)
      decreases StackWork(g, rank, toCheck)
    {
      var c, rest := toCheck[|toCheck| - 1], toCheck[..|toCheck| - 1];
      assert toCheck == rest + [c] && c in packages;
      var table := AddAll(g, packages, g[c]);
      SearchOn(g, name, packages, checked, rest, c, table);
      PushWork(g, rank, rest, c, g[c]);
      checked := checked + {c};
      packages, toCheck := table, rest + g[c];
    }
  }

  /** A part of the table that is closed can be ordered like the whole. */
  lemma PartOrderable(g: Graph, m: Graph)
    requires Orderable(g) && (forall n :: n in m ==> n in g && m[n] == g[n]) && ClosedSet(g, m.Keys)
    ensures Orderable(m)
  {
    var rank :| Ranked(g, rank);
    assert Ranked(m, rank);
  }

  /** The class-wide table of packages. */
  class Registry {
    var packages: Graph

    /** Whatever has been declared can be ordered. */
    ghost predicate Valid()
      reads this
    {
      Orderable(packages)
    }

    constructor ()
      ensures Valid() && packages == map[]
    {
      packages := map[];
      assert Ranked(map[], map[]);
    }

    /** Package.__init__: a new name, with dependencies that are packages already. */
    method Declare(name: Name, deps: seq<Name>) returns (ok: bool)
      requires Valid() && forall d :: d in deps ==> d in packages
      modifies this
      ensures Valid() && ok == (name !in old(packages))
      ensures packages.Keys == old(packages).Keys + {name}
      ensures forall n :: n in old(packages) ==> packages[n] == old(packages)[n]
      ensures ok ==> NoDup(packages[name]) && forall d :: d in packages[name] <==> d in deps
    {
      ok := name !in packages;
      if ok {
        Declared(packages, name, deps);
        var l := UniqueOf(deps);
        packages := packages[name := l];
      }
    }

    /** buildOrder without an argument: every package, each after its dependencies. */
    method BuildOrder() returns (out: seq<Name>)
      requires Valid()
      ensures After(packages, out) == Some(map[]) && InOrder(packages, out)
    {
      out := BuildTable(packages);
    }

    /** buildOrder for one name: exactly the packages it needs, each after its dependencies.  A package
        without dependencies is all there is. */
    method BuildOrderFor(name: Name) returns (out: seq<Name>)
      requires Valid() && name in packages
      ensures LeastClosed(packages, name, Elements(out)) && NoDup(out)
      ensures forall i, d :: 0 <= i < |out| && out[i] in packages && d in packages[out[i]] ==> d in out[..i]
    {
      if packages[name] == [] {
        out := [name];
        return;
      }
      ghost var rank :| Ranked(packages, rank);
      var m := Needed(packages, rank, name);
      PartOrderable(packages, m);
      out := BuildTable(m);
      assert Elements(out) == m.Keys;
    }
  }
}
