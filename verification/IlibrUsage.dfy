/** Usage words as sets of bits: which symbols the librarian indexes. */
module IlibrUsage {
  import opened Common
  import opened Tcoff
  import opened Ilibr
  import opened IlibrModules
  import opened IlibrTheorems

  // ---- sets of bits ----

  /** The sum of the powers of two whose exponents are in u. */
  ghost function Value(u: set<nat>): nat
    decreases |u|
  {
    if u == {} then 0 else var k :| k in u; Pow2(k) + Value(u - {k})
  }

  lemma {:induction false} ValueWith(u: set<nat>, k: nat)
    requires k in u
    ensures Value(u) == Pow2(k) + Value(u - {k})
    decreases |u|
  {
    var j :| j in u && Value(u) == Pow2(j) + Value(u - {j});
    if j != k {
      ValueWith(u - {j}, k);
      ValueWith(u - {k}, j);
      assert u - {j} - {k} == u - {k} - {j};
    }
  }

  /** Every bit one place down; the lowest is lost. */
  function Down(u: set<nat>): set<nat> {
    set k | k in u && k > 0 :: k - 1
  }

  lemma DownHas(u: set<nat>, j: nat)
    ensures j in Down(u) <==> j + 1 in u
  {
    if j + 1 in u { assert (j + 1) - 1 in Down(u); }
  }

  lemma DownWithout(u: set<nat>, k: nat)
    requires k in u
    ensures Down(u - {k}) == if k == 0 then Down(u) else Down(u) - {k - 1}
  {
    var v := if k == 0 then Down(u) else Down(u) - {k - 1};
    forall j: nat ensures j in Down(u - {k}) <==> j in v {
      DownHas(u, j);
      DownHas(u - {k}, j);
    }
  }

  lemma {:induction false} ValueDown(u: set<nat>)
    ensures Value(u) == (if 0 in u then 1 else 0) + 2 * Value(Down(u))
    decreases |u|
  {
    if u == {} {
      assert Down(u) == {};
    } else {
      var k :| k in u;
      ValueWith(u, k);
      ValueDown(u - {k});
      DownWithout(u, k);
      if k > 0 { assert Pow2(k) == 2 * Pow2(k - 1); } else { assert Pow2(k) == 1; }
      hide Down, Value, Pow2;
      if k > 0 {
        DownHas(u, k - 1);
        ValueWith(Down(u), k - 1);
      }
    }
  }

  /** Testing a bit of the sum is looking it up in the set. */
  lemma {:induction false} HasBit(u: set<nat>, b: nat)
    ensures Has(Value(u), b) <==> b in u
    decreases b
  {
    ValueDown(u);
    if b == 0 {
    } else {
      HasBit(Down(u), b - 1);
      DownHas(u, b - 1);
      assert Value(u) / 2 == Value(Down(u));
    }
  }

  lemma Twice(h: int, p: int)
    ensures h * (2 * p) == 2 * (h * p)
  {
  }

  /** Bits below the m-th do not depend on what is added above. */
  lemma {:induction false} HasBelow(x: int, h: int, m: nat, b: nat)
    requires b < m
    ensures Has(x + h * Pow2(m), b) == Has(x, b)
    decreases b
  {
    var y := h * Pow2(m - 1);
    Twice(h, Pow2(m - 1));
    if b == 0 {
    } else {
      assert (x + 2 * y) / 2 == x / 2 + y;
      HasBelow(x / 2, h, m - 1, b - 1);
    }
  }

  // ---- usage words ----

  /** u is the set of the low eight bits of the usage word, which may be negative. */
  ghost predicate LowBits(scope: int, u: set<nat>) {
    (forall k :: k in u ==> k < 8) && exists h: int :: scope == Value(u) + h * Pow2(8)
  }

  /** The symbol is exported (bit 1, 0x2), and is not weak (0x8), conditional (0x10) or unindexed (0x20). */
  ghost predicate MeantFor(u: set<nat>) {
    1 in u && 3 !in u && 4 !in u && 5 !in u
  }

  /** For every set of bits whose powers of two add up to the usage word: the record is indexed exactly
      when bit 1 is in the set and 3, 4 and 5 are not, and is an origin symbol exactly when bit 7 is. */
  lemma ExportedBits(r: Rec, u: set<nat>)
    requires (r.Symbol? || r.Section?) && r.scope == Value(u)
    ensures Exported(r) <==> (r.Symbol? || r.kind == 0) && 1 in u && 3 !in u && 4 !in u && 5 !in u
    ensures IsOrigin(r) <==> r.Symbol? && 7 in u
  {
    HasBit(u, 1);
    HasBit(u, 3);
    HasBit(u, 4);
    HasBit(u, 5);
    HasBit(u, 7);
  }

  lemma HasLow(scope: int, u: set<nat>, b: nat)
    requires LowBits(scope, u) && b < 8
    ensures Has(scope, b) <==> b in u
  {
    var h: int :| scope == Value(u) + h * Pow2(8);
    HasBelow(Value(u), h, 8, b);
    HasBit(u, b);
  }

  /** The same of any usage word, negative ones included. */
  lemma ExportedLow(r: Rec, u: set<nat>)
    requires (r.Symbol? || r.Section?) && LowBits(r.scope, u)
    ensures Exported(r) <==> (r.Symbol? || r.kind == 0) && MeantFor(u)
    ensures IsOrigin(r) <==> r.Symbol? && 7 in u
  {
    HasLow(r.scope, u, 1);
    HasLow(r.scope, u, 3);
    HasLow(r.scope, u, 4);
    HasLow(r.scope, u, 5);
    HasLow(r.scope, u, 7);
    hide LowBits, Has;
  }

  /** The bits of a number below the m-th. */
  function BitsBelow(x: int, m: nat): set<nat> {
    set k: nat | k < m && Has(x, k)
  }

  lemma {:induction false} BitsAddUp(x: int, m: nat) returns (h: int)
    ensures x == Value(BitsBelow(x, m)) + h * Pow2(m)
    decreases m
  {
    var u := BitsBelow(x, m);
    if m == 0 {
      assert u == {};
      h := x;
    } else {
      h := BitsAddUp(x / 2, m - 1);
      ValueDown(u);
      DownBelow(x, m);
      Twice(h, Pow2(m - 1));
      hide Value, BitsBelow, Down, Has;
      var y := h * Pow2(m - 1);
      assert h * Pow2(m) == 2 * y && x / 2 == Value(BitsBelow(x / 2, m - 1)) + y;
    }
  }

  lemma DownBelow(x: int, m: nat)
    requires m > 0
    ensures Down(BitsBelow(x, m)) == BitsBelow(x / 2, m - 1) && (0 in BitsBelow(x, m) <==> x % 2 == 1)
  {
    forall j: nat ensures j in Down(BitsBelow(x, m)) <==> j in BitsBelow(x / 2, m - 1) {
      DownHas(BitsBelow(x, m), j);
      assert Has(x, j + 1) == Has(x / 2, j);
    }
  }

  /** Every usage word has its set of low bits. */
  lemma SomeLowBits(scope: int) returns (u: set<nat>)
    ensures LowBits(scope, u)
  {
    u := BitsBelow(scope, 8);
    var h := BitsAddUp(scope, 8);
  }

  // ---- what is indexed ----

  /** By its bits, the i-th record of the k-th item is a symbol that belongs in the index: a symbol, or a
      section of kind zero; the module defines it, as an origin symbol or by a later record; and e is what
      the index says about it. */
  ghost predicate Wanted(l: seq<Item>, o: Opts, k: nat, i: nat, u: set<nat>, e: Entry) {
    && k < |l| && ItemOk(l[k], o) && l[k].Module? && i < |l[k].body|
    && var (b, r) := (l[k].body, l[k].body[i]);
      && (r.Symbol? || (r.Section? && r.kind == 0)) && LowBits(r.scope, u) && MeantFor(u)
      && ((r.Symbol? && 7 in u) || exists d :: i < d < |b| && Defines(b[d], Ord(b, i)))
      && e == EntryOf(l[k].start, b, i, |b|, Before(l, k, o), o) && e.isOrigin == (r.Symbol? && 7 in u)
  }

  lemma WantedIs(l: seq<Item>, o: Opts, k: nat, i: nat, u: set<nat>, e: Entry)
    requires Wanted(l, o, k, i, u, e)
    ensures DeclaredAt(l, o, k, i, e)
  {
    ExportedLow(l[k].body[i], u);
    hide LowBits, Exported, IsOrigin;
  }

  lemma DeclaredIs(l: seq<Item>, o: Opts, k: nat, i: nat, e: Entry) returns (u: set<nat>)
    requires DeclaredAt(l, o, k, i, e)
    ensures Wanted(l, o, k, i, u, e)
  {
    var r := l[k].body[i];
    assert r.Symbol? || (r.Section? && r.kind == 0);
    u := SomeLowBits(r.scope);
    ExportedLow(r, u);
    hide LowBits, Exported, IsOrigin;
  }

  /** The index after the weeding, by the bits of the usage words alone. */
  lemma SurvivorsByUsage(l: seq<Item>, o: Opts, e: Entry)
    requires ItemsOk(l, o)
    ensures e in Strip(IndexOf(l, 0, o)) <==> exists k, i, u :: Wanted(l, o, k, i, u, e)
  {
    hide Wanted, DeclaredAt;
    SurvivorsAre(l, o, e);
    if k: nat, i: nat, u: set<nat> :| Wanted(l, o, k, i, u, e) { WantedIs(l, o, k, i, u, e); }
    if e in Strip(IndexOf(l, 0, o)) {
      var k: nat, i: nat :| DeclaredAt(l, o, k, i, e);
      var u := DeclaredIs(l, o, k, i, e);
    }
  }

  // ---- without descriptors ----

  /** When descriptors are left out no entry has one, and none is said to be in a language of occam's. */
  lemma NoDescriptors(l: seq<Item>, o: Opts, e: Entry)
    requires ItemsOk(l, o) && o.noDesc && e in Strip(IndexOf(l, 0, o))
    ensures e.key.desc == [] && e.key.lang != 3 && e.key.lang != 10
  {
    SurvivorsAre(l, o, e);
    var k: nat, i: nat :| DeclaredAt(l, o, k, i, e);
  }

  // ---- when the librarian stops ----

  /** What a record does to the nesting of modules. */
  function Depth(r: Rec): int {
    if r.StartModule? then 1 else if r.EndModule? then -1 else 0
  }

  function DepthBefore(l: seq<Rec>, k: nat): int
    requires k <= |l|
    decreases k
  {
    if k == 0 then 0 else Depth(l[0]) + DepthBefore(l[1..], k - 1)
  }

  /** A record that is refused in state st, d modules being open: it belongs in a module and none is open;
      or it is the format record of another kind of file; or it describes a symbol a second time. */
  ghost predicate Refused(st: St, r: Rec, d: int, o: Opts) {
    || ((r.Section? || r.Symbol? || r.Descriptor? || r.DefineLabel? || r.DefineSymbol? || r.EndModule?) && d <= 0)
    || (r.Format? && r.linked != o.linked)
    || (r.Descriptor? && !o.noDesc && Lookup(st.sub, r.id).Some? && st.sub[Lookup(st.sub, r.id).value].key.desc != [])
  }

  /** The k-th record is reached in a good state, and refused. */
  ghost predicate StopsAt(st: St, l: seq<Rec>, at: int, o: Opts, k: nat) {
    k < |l| && Scan(st, l[..k], at, o).Some?
    && Refused(Scan(st, l[..k], at, o).value, l[k], |st.ids| + DepthBefore(l, k), o)
  }

  lemma StepStops(st: St, r: Rec, at: int, o: Opts)
    ensures Step(st, r, at, o).None? <==> Refused(st, r, |st.ids|, o)
    ensures Step(st, r, at, o).Some? ==> |Step(st, r, at, o).value.ids| == |st.ids| + Depth(r)
  {
  }

  lemma StopsLater(st: St, l: seq<Rec>, at: int, o: Opts, k: nat)
    requires l != [] && Step(st, l[0], at, o).Some? && k < |l| - 1
    ensures StopsAt(st, l, at, o, k + 1) <==> StopsAt(Step(st, l[0], at, o).value, l[1..], at + o.size(l[0]), o, k)
  {
    StepStops(st, l[0], at, o);
    assert l[..k + 1][0] == l[0] && l[..k + 1][1..] == l[1..][..k];
    hide Step, Refused;
  }

  /** The librarian stops with an error if and only if some record is refused. */
  lemma {:induction false} ScanStops(st: St, l: seq<Rec>, at: int, o: Opts)
    ensures Scan(st, l, at, o).None? <==> exists k :: StopsAt(st, l, at, o, k)
    decreases |l|
  {
    if l == [] {
    } else {
      StepStops(st, l[0], at, o);
      assert l[..0] == [];
      assert StopsAt(st, l, at, o, 0) <==> Step(st, l[0], at, o).None?;
      if Step(st, l[0], at, o).Some? {
        var st1, n := Step(st, l[0], at, o).value, at + o.size(l[0]);
        ScanStops(st1, l[1..], n, o);
        hide Step, StopsAt;
        if k: nat :| StopsAt(st, l, at, o, k) {
          StopsIn(st, l, at, o, k);
          if k > 0 { StopsLater(st, l, at, o, k - 1); }
        }
        if k: nat :| StopsAt(st1, l[1..], n, o, k) {
          StopsIn(st1, l[1..], n, o, k);
          StopsLater(st, l, at, o, k);
        }
      }
    }
  }

  lemma StopsIn(st: St, l: seq<Rec>, at: int, o: Opts, k: nat)
    requires StopsAt(st, l, at, o, k)
    ensures k < |l|
  {
  }
}
