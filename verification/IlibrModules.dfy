/** What the librarian's index says about well-bracketed input: one entry for each exported symbol that
    its module defines. */
module IlibrModules {
  import opened Common
  import opened Tcoff
  import opened Ilibr

  /** Input is a list of records outside modules and of modules, which are not nested. */
  datatype Item = Loose(r: Rec) | Module(start: Rec, body: seq<Rec>)

  function Recs(it: Item): seq<Rec> {
    match it
    case Loose(r) => [r]
    case Module(s, b) => [s] + b + [EndModule]
  }

  function AllRecs(l: seq<Item>): seq<Rec> {
    if l == [] then [] else Recs(l[0]) + AllRecs(l[1..])
  }

  /** The bytes an item takes, and a list of items. */
  function Size(it: Item, o: Opts): nat { Length(Recs(it), o) }

  function AllSize(l: seq<Item>, o: Opts): nat {
    if l == [] then 0 else Size(l[0], o) + AllSize(l[1..], o)
  }

  predicate ItemOk(it: Item, o: Opts) {
    match it
    case Loose(r) => (r.Other? || r.IndexEntry?) || (r.Format? && r.linked == o.linked)
    case Module(s, b) => s.StartModule? && forall k :: 0 <= k < |b| ==> BodyOk(b[k], o)
  }

  predicate BodyOk(r: Rec, o: Opts) {
    !r.StartModule? && !r.EndModule? && (r.Format? ==> r.linked == o.linked)
  }

  predicate ItemsOk(l: seq<Item>, o: Opts) {
    forall k :: 0 <= k < |l| ==> ItemOk(l[k], o)
  }

  // ---- the symbols of a module ----

  predicate Counted(r: Rec) { r.Section? || r.Symbol? }

  predicate Exported(r: Rec) {
    (r.Section? && r.kind == 0 && Indexed(r.scope)) || (r.Symbol? && Indexed(r.scope))
  }

  predicate IsOrigin(r: Rec) { r.Symbol? && Has(r.scope, ORIGIN_USAGE) }

  predicate Defines(r: Rec, id: int) {
    (r.DefineLabel? && r.id == id) || (r.DefineSymbol? && r.id == id)
  }

  /** The identifier of the symbol at i: how many came before it. */
  function Ord(b: seq<Rec>, i: nat): nat
    requires i <= |b|
  {
    if i == 0 then 0 else Ord(b, i - 1) + if Counted(b[i - 1]) then 1 else 0
  }

  /** By position n the symbol at i is defined: as an origin symbol, or by a later record. */
  ghost predicate IsDefined(b: seq<Rec>, i: nat, n: nat)
    requires i < n <= |b|
  {
    IsOrigin(b[i]) || exists d :: i < d < n && Defines(b[d], Ord(b, i))
  }

  /** The last descriptor of the symbol at i before position n. */
  function LastDescriptor(b: seq<Rec>, i: nat, n: nat, o: Opts): (r: Option<nat>)
    requires i < n <= |b|
    ensures r.Some? ==> i < r.value < n && b[r.value].Descriptor?
  {
    if o.noDesc || n == i + 1 then None
    else if b[n - 1].Descriptor? && b[n - 1].id == Ord(b, i) then Some(n - 1)
    else LastDescriptor(b, i, n - 1, o)
  }

  /** What the index says about the symbol at i of the module that starts at position at. */
  function KeyOf(s: Rec, b: seq<Rec>, i: nat, n: nat, at: int, o: Opts): Key
    requires s.StartModule? && i < n <= |b| && Counted(b[i])
  {
    var d := LastDescriptor(b, i, n, o);
    var (lang, text) := if d.Some? then (b[d.value].lang, b[d.value].text) else (ModuleLang(o, s.lang), []);
    Key(at, s.func, s.mode, lang, text, b[i].name)
  }

  ghost function EntryOf(s: Rec, b: seq<Rec>, i: nat, n: nat, at: int, o: Opts): Entry
    requires s.StartModule? && i < n <= |b| && Counted(b[i])
  {
    var k := KeyOf(s, b, i, n, at, o);
    Entry(k, RecLen(k), TotalOf(RecLen(k)), Ord(b, i), IsOrigin(b[i]), IsDefined(b, i, n))
  }

  /** The exported symbols before position n, newest first. */
  function Decl(b: seq<Rec>, n: nat): (r: seq<nat>)
    requires n <= |b|
    ensures forall j :: 0 <= j < |r| ==> r[j] < n && Counted(b[r[j]])
  {
    if n == 0 then [] else (if Exported(b[n - 1]) then [n - 1] else []) + Decl(b, n - 1)
  }

  lemma {:induction false} DeclHolds(b: seq<Rec>, n: nat, i: nat)
    requires n <= |b|
    ensures i in Decl(b, n) <==> i < n && Exported(b[i])
  {
    if n == 0 {
    } else {
      DeclHolds(b, n - 1, i);
    }
  }

  lemma {:induction false} DeclOrder(b: seq<Rec>, n: nat)
    requires n <= |b|
    ensures forall j, k :: 0 <= j < k < |Decl(b, n)| ==> Decl(b, n)[k] < Decl(b, n)[j]
  {
    if n == 0 {
    } else {
      DeclOrder(b, n - 1);
    }
  }

  /** The entries of a module's first n records, newest first. */
  ghost predicate SubIs(sub: seq<Entry>, s: Rec, b: seq<Rec>, n: nat, at: int, o: Opts)
    requires s.StartModule? && n <= |b|
  {
    |sub| == |Decl(b, n)| && forall j :: 0 <= j < |sub| ==> sub[j] == EntryOf(s, b, Decl(b, n)[j], n, at, o)
  }

  ghost predicate InModule(st: St, s: Rec, b: seq<Rec>, n: nat, at: int, o: Opts)
    requires s.StartModule? && n <= |b|
  {
    && st.level == 1 && st.ids == [Ord(b, n)] && st.start == at
    && st.func == s.func && st.mode == s.mode && st.lang == ModuleLang(o, s.lang)
    && SubIs(st.sub, s, b, n, at, o)
  }

  lemma {:induction false} OrdGrows(b: seq<Rec>, i: nat, j: nat)
    requires i < j <= |b|
    ensures Ord(b, i) <= Ord(b, j) && (Counted(b[i]) ==> Ord(b, i) < Ord(b, j))
    decreases j
  {
    if i + 1 >= j {
    } else {
      OrdGrows(b, i, j - 1);
    }
  }

  /** A record that neither defines nor describes a symbol leaves its entry alone. */
  lemma EntryStays(s: Rec, b: seq<Rec>, i: nat, n: nat, at: int, o: Opts)
    requires s.StartModule? && i < n < |b| && Counted(b[i])
    requires !Defines(b[n], Ord(b, i)) && !(b[n].Descriptor? && b[n].id == Ord(b, i) && !o.noDesc)
    ensures EntryOf(s, b, i, n + 1, at, o) == EntryOf(s, b, i, n, at, o)
  {
    assert forall d :: i < d < n + 1 && Defines(b[d], Ord(b, i)) ==> d < n;
  }

  lemma EntryDefined(s: Rec, b: seq<Rec>, i: nat, n: nat, at: int, o: Opts)
    requires s.StartModule? && i < n < |b| && Counted(b[i]) && Defines(b[n], Ord(b, i))
    ensures EntryOf(s, b, i, n + 1, at, o) == EntryOf(s, b, i, n, at, o).(defined := true)
  {
    assert i < n < n + 1 && Defines(b[n], Ord(b, i));
  }

  lemma EntryDescribed(s: Rec, b: seq<Rec>, i: nat, n: nat, at: int, o: Opts)
    requires s.StartModule? && i < n < |b| && Counted(b[i]) && b[n].Descriptor? && b[n].id == Ord(b, i) && !o.noDesc
    ensures EntryOf(s, b, i, n + 1, at, o) == WithDescriptor(EntryOf(s, b, i, n, at, o), b[n].lang, b[n].text)
  {
    assert forall d :: i < d < n + 1 && Defines(b[d], Ord(b, i)) ==> d < n;
  }

  /** Entries that a record leaves alone. */
  lemma SubStays(sub: seq<Entry>, s: Rec, b: seq<Rec>, n: nat, at: int, o: Opts)
    requires s.StartModule? && n < |b| && SubIs(sub, s, b, n, at, o)
    requires !b[n].DefineLabel? && !b[n].DefineSymbol? && (b[n].Descriptor? ==> o.noDesc)
    ensures forall j :: 0 <= j < |sub| ==> sub[j] == EntryOf(s, b, Decl(b, n)[j], n + 1, at, o)
  {
    forall j | 0 <= j < |sub| ensures sub[j] == EntryOf(s, b, Decl(b, n)[j], n + 1, at, o) {
      EntryStays(s, b, Decl(b, n)[j], n, at, o);
    }
  }

  lemma SubGrows(sub: seq<Entry>, e: Entry, s: Rec, b: seq<Rec>, n: nat, at: int, o: Opts)
    requires s.StartModule? && n < |b| && |sub| == |Decl(b, n)| && Exported(b[n]) && e == EntryOf(s, b, n, n + 1, at, o)
    requires forall j :: 0 <= j < |sub| ==> sub[j] == EntryOf(s, b, Decl(b, n)[j], n + 1, at, o)
    ensures SubIs([e] + sub, s, b, n + 1, at, o)
  {
    assert Decl(b, n + 1) == [n] + Decl(b, n);
    forall j | 0 <= j < |sub| + 1 ensures ([e] + sub)[j] == EntryOf(s, b, Decl(b, n + 1)[j], n + 1, at, o) {
      if j > 0 { assert ([e] + sub)[j] == sub[j - 1] && Decl(b, n + 1)[j] == Decl(b, n)[j - 1]; }
    }
  }

  lemma ExportedSub(st: St, s: Rec, b: seq<Rec>, n: nat, at: int, o: Opts)
    requires s.StartModule? && n < |b| && InModule(st, s, b, n, at, o) && Exported(b[n])
    ensures SubIs([NewEntry(st, b[n].name, IsOrigin(b[n]))] + st.sub, s, b, n + 1, at, o)
  {
    SubStays(st.sub, s, b, n, at, o);
    NewEntryIs(st, s, b, n, at, o);
    SubGrows(st.sub, NewEntry(st, b[n].name, IsOrigin(b[n])), s, b, n, at, o);
  }

  /** What a symbol record does to the state. */
  lemma StepSymbol(st: St, r: Rec, pos: int, o: Opts)
    requires st.ids != [] && Counted(r)
    ensures Step(st, r, pos, o) == Some(Bump(if Exported(r) then AddEntry(st, r.name, IsOrigin(r)) else st))
  {
  }

  /** A symbol record. */
  lemma StepCounted(st: St, s: Rec, b: seq<Rec>, n: nat, at: int, pos: int, o: Opts)
    requires s.StartModule? && n < |b| && InModule(st, s, b, n, at, o) && Counted(b[n])
    ensures Step(st, b[n], pos, o).Some? && InModule(Step(st, b[n], pos, o).value, s, b, n + 1, at, o)
    ensures Step(st, b[n], pos, o).value.index == st.index
  {
    StepSymbol(st, b[n], pos, o);
    if Exported(b[n]) { ExportedSub(st, s, b, n, at, o); }
    else { SubStays(st.sub, s, b, n, at, o); }
  }

  lemma NewEntryIs(st: St, s: Rec, b: seq<Rec>, n: nat, at: int, o: Opts)
    requires s.StartModule? && n < |b| && InModule(st, s, b, n, at, o) && Exported(b[n])
    ensures NewEntry(st, b[n].name, IsOrigin(b[n])) == EntryOf(s, b, n, n + 1, at, o)
  {
    assert LastDescriptor(b, n, n + 1, o) == None;
  }

  lemma DifferentIds(b: seq<Rec>, n: nat, j: nat, k: nat)
    requires n <= |b| && j < k < |Decl(b, n)|
    ensures Ord(b, Decl(b, n)[k]) < Ord(b, Decl(b, n)[j])
  {
    DeclOrder(b, n);
    OrdGrows(b, Decl(b, n)[k], Decl(b, n)[j]);
  }

  /** Which entry a later record means. */
  lemma LookupFinds(sub: seq<Entry>, s: Rec, b: seq<Rec>, n: nat, at: int, o: Opts, j: nat)
    requires s.StartModule? && n <= |b| && SubIs(sub, s, b, n, at, o) && j < |sub|
    ensures Lookup(sub, sub[j].id) == Some(j)
  {
    var k := Lookup(sub, sub[j].id).value;
    assert k <= j;
    assert sub[k].id == Ord(b, Decl(b, n)[k]) && sub[j].id == Ord(b, Decl(b, n)[j]);
    if k < j { DifferentIds(b, n, k, j); }
  }

  lemma StepDefine(st: St, s: Rec, b: seq<Rec>, n: nat, at: int, pos: int, o: Opts)
    requires s.StartModule? && n < |b| && InModule(st, s, b, n, at, o) && (b[n].DefineLabel? || b[n].DefineSymbol?)
    ensures Step(st, b[n], pos, o).Some? && InModule(Step(st, b[n], pos, o).value, s, b, n + 1, at, o)
    ensures Step(st, b[n], pos, o).value.index == st.index
  {
    var t := Step(st, b[n], pos, o).value;
    forall j | 0 <= j < |t.sub| ensures t.sub[j] == EntryOf(s, b, Decl(b, n + 1)[j], n + 1, at, o) {
      var i := Decl(b, n)[j];
      LookupFinds(st.sub, s, b, n, at, o, j);
      if b[n].id == Ord(b, i) { EntryDefined(s, b, i, n, at, o); } else { EntryStays(s, b, i, n, at, o); }
    }
  }

  lemma StepDescribe(st: St, s: Rec, b: seq<Rec>, n: nat, at: int, pos: int, o: Opts)
    requires s.StartModule? && n < |b| && InModule(st, s, b, n, at, o) && b[n].Descriptor?
    requires Step(st, b[n], pos, o).Some?
    ensures InModule(Step(st, b[n], pos, o).value, s, b, n + 1, at, o) && Step(st, b[n], pos, o).value.index == st.index
  {
    var t := Step(st, b[n], pos, o).value;
    forall j | 0 <= j < |t.sub| ensures t.sub[j] == EntryOf(s, b, Decl(b, n + 1)[j], n + 1, at, o) {
      var i := Decl(b, n)[j];
      LookupFinds(st.sub, s, b, n, at, o, j);
      if b[n].id == Ord(b, i) && !o.noDesc {
        EntryDescribed(s, b, i, n, at, o);
      } else {
        EntryStays(s, b, i, n, at, o);
      }
    }
  }

  lemma StepInModule(st: St, s: Rec, b: seq<Rec>, n: nat, at: int, pos: int, o: Opts)
    requires s.StartModule? && n < |b| && BodyOk(b[n], o) && InModule(st, s, b, n, at, o)
    requires Step(st, b[n], pos, o).Some?
    ensures InModule(Step(st, b[n], pos, o).value, s, b, n + 1, at, o) && Step(st, b[n], pos, o).value.index == st.index
  {
    if Counted(b[n]) { StepCounted(st, s, b, n, at, pos, o); }
    else if b[n].DefineLabel? || b[n].DefineSymbol? { StepDefine(st, s, b, n, at, pos, o); }
    else if b[n].Descriptor? { StepDescribe(st, s, b, n, at, pos, o); }
    else { SubStays(st.sub, s, b, n, at, o); }
  }

  lemma {:induction false} ScanBody(st: St, s: Rec, b: seq<Rec>, n: nat, at: int, pos: int, o: Opts)
    requires s.StartModule? && n <= |b| && (forall k :: 0 <= k < |b| ==> BodyOk(b[k], o))
    requires InModule(st, s, b, n, at, o)
    requires Scan(st, b[n..], pos, o).Some?
    ensures InModule(Scan(st, b[n..], pos, o).value, s, b, |b|, at, o)
    ensures Scan(st, b[n..], pos, o).value.index == st.index
    decreases |b| - n
  {
    if n >= |b| {
    } else {
      assert b[n..][0] == b[n] && b[n..][1..] == b[n + 1..];
      StepInModule(st, s, b, n, at, pos, o);
      ScanBody(Step(st, b[n], pos, o).value, s, b, n + 1, at, pos + o.size(b[n]), o);
    }
  }
}
