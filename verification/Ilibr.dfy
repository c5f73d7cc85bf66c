/** How the librarian builds its index: one step for each record of the input. */
module Ilibr {
  import opened Common
  import opened Tcoff

  // The bits of a usage word, by number: 0x2, 0x8, 0x10, 0x20 and 0x80.
  const EXPORT_USAGE: nat := 1
  const WEAK_USAGE: nat := 3
  const CONDITIONAL_USAGE: nat := 4
  const UNINDEXED_USAGE: nat := 5
  const ORIGIN_USAGE: nat := 7

  const LANG_NOT_KNOWN: int := 1
  const LANG_OCCAM: int := 3
  const LANG_OCCAM_HARNESS: int := 10

  /** A bit of a usage word. */
  predicate Has(scope: int, bit: nat)
    decreases bit
  {
    if bit == 0 then scope % 2 == 1 else Has(scope / 2, bit - 1)
  }

  /** Symbols that belong in the index. */
  predicate Indexed(scope: int) {
    Has(scope, EXPORT_USAGE) && !Has(scope, UNINDEXED_USAGE)
    && !Has(scope, CONDITIONAL_USAGE) && !Has(scope, WEAK_USAGE)
  }

  /** An index entry under construction, with the sizes kept beside it. */
  datatype Entry = Entry(key: Key, recLen: int, totalSize: int, id: int, isOrigin: bool, defined: bool)

  /** index holds the finished modules' entries, sub the current module's, both newest first; ids is the
      stack of symbol counters; start, func, mode and lang belong to the current module. */
  datatype St = St(level: int, ids: seq<int>, start: int, func: int, mode: int, lang: int,
                   sub: seq<Entry>, index: seq<Entry>, total: int)

  /** What a run depends on: which format tag the first file had, whether descriptors are left out, and
      how many bytes each record takes. */
  datatype Opts = Opts(linked: bool, noDesc: bool, size: Rec -> nat)

  /** Records take the bytes they are written in. */
  ghost predicate Measured(o: Opts) {
    forall r :: o.size(r) == |Bytes(r)|
  }

  function Length(l: seq<Rec>, o: Opts): nat {
    if l == [] then 0 else o.size(l[0]) + Length(l[1..], o)
  }

  lemma {:induction false} LengthIs(l: seq<Rec>, o: Opts)
    requires Measured(o)
    ensures |AllBytes(l)| == Length(l, o)
    decreases |l|
  {
    if l == [] {
    } else {
      LengthIs(l[1..], o);
    }
  }

  // ---- sizes ----

  function RecLen(k: Key): int {
    4 + SizeL(k.func) + SizeL(k.mode) + SizeL(k.lang) + (SizeL(|k.desc|) + |k.desc|) + (SizeL(|k.name|) + |k.name|)
  }

  function TotalOf(recLen: int): int {
    SizeL(INDEX_ENTRY) + SizeL(recLen) + recLen
  }

  function Sum(l: seq<Entry>): int {
    if l == [] then 0 else l[0].totalSize + Sum(l[1..])
  }

  // ---- one record ----

  function NewEntry(st: St, name: Text, origin: bool): Entry
    requires st.ids != []
  {
    var k := Key(st.start, st.func, st.mode, st.lang, [], name);
    Entry(k, RecLen(k), TotalOf(RecLen(k)), st.ids[0], origin, origin)
  }

  function AddEntry(st: St, name: Text, origin: bool): St
    requires st.ids != []
  {
    var e := NewEntry(st, name, origin);
    st.(sub := [e] + st.sub, total := st.total + e.totalSize)
  }

  function Bump(st: St): St
    requires st.ids != []
  {
    st.(ids := [st.ids[0] + 1] + st.ids[1..])
  }

  /** The position of the first entry with this id. */
  function Lookup(l: seq<Entry>, id: int): (r: Option<nat>)
    ensures r.Some? ==> r.value < |l| && l[r.value].id == id
    ensures r.Some? ==> forall k :: 0 <= k < r.value ==> l[k].id != id
    ensures r.None? ==> forall k :: 0 <= k < |l| ==> l[k].id != id
  {
    if l == [] then None
    else if l[0].id == id then Some(0)
    else
      var r := Lookup(l[1..], id);
      if r.None? then None else Some(r.value + 1)
  }

  function MarkDefined(l: seq<Entry>, id: int): seq<Entry> {
    var r := Lookup(l, id);
    if r.None? then l else l[r.value := l[r.value].(defined := true)]
  }

  /** The sizes are adjusted by the difference. */
  function WithDescriptor(e: Entry, lang: int, text: Text): Entry {
    var n := e.recLen - (SizeL(e.key.lang) + SizeL(|e.key.desc|) + |e.key.desc|)
      + (SizeL(lang) + SizeL(|text|) + |text|);
    e.(key := e.key.(lang := lang, desc := text), recLen := n, totalSize := TotalOf(n))
  }

  function Describe(st: St, id: int, lang: int, text: Text): Option<St> {
    var r := Lookup(st.sub, id);
    if r.None? then Some(st)
    else
      var e := st.sub[r.value];
      if e.key.desc != [] then None
      else
        var f := WithDescriptor(e, lang, text);
        Some(st.(sub := st.sub[r.value := f], total := st.total - e.totalSize + f.totalSize))
  }

  function ModuleLang(o: Opts, lang: int): int {
    if o.noDesc && (lang == LANG_OCCAM || lang == LANG_OCCAM_HARNESS) then LANG_NOT_KNOWN else lang
  }

  function Enter(st: St, r: Rec, at: int, o: Opts): St
    requires r.StartModule?
  {
    var st1 := if st.level == 0 then st.(start := at, func := r.func, mode := r.mode, lang := ModuleLang(o, r.lang))
        else st;
    st1.(ids := [0] + st.ids, level := st.level + 1)
  }

  function Leave(st: St): St
    requires st.ids != []
  {
    var st1 := if st.level == 1 then st.(index := st.sub + st.index, sub := []) else st;
    st1.(ids := st.ids[1..], level := st.level - 1)
  }

  /** What index_module does with the record at position at of the concatenated inputs; None is one of
      its error exits. */
  function Step(st: St, r: Rec, at: int, o: Opts): Option<St> {
    match r
    case Section(kind, scope, name) =>
      if st.ids == [] then None
      else Some(Bump(if kind == 0 && Indexed(scope) then AddEntry(st, name, false) else st))
    case Symbol(scope, name, _) =>
      if st.ids == [] then None
      else Some(Bump(if Indexed(scope) then AddEntry(st, name, Has(scope, ORIGIN_USAGE)) else st))
    case Descriptor(id, lang, text) =>
      if st.ids == [] then None else if o.noDesc then Some(st) else Describe(st, id, lang, text)
    case DefineLabel(id) => if st.ids == [] then None else Some(st.(sub := MarkDefined(st.sub, id)))
    case DefineSymbol(id, _) => if st.ids == [] then None else Some(st.(sub := MarkDefined(st.sub, id)))
    case StartModule(_, _, _, _) => Some(Enter(st, r, at, o))
    case EndModule => if st.ids == [] then None else Some(Leave(st))
    case Format(linked, _) => if linked != o.linked then None else Some(st)
    case _ => Some(st)
  }

  /** index_module over a list of records that starts at position at. */
  function Scan(st: St, l: seq<Rec>, at: int, o: Opts): Option<St>
    decreases |l|
  {
    if l == [] then Some(st)
    else
      var r := Step(st, l[0], at, o);
      if r.None? then None else Scan(r.value, l[1..], at + o.size(l[0]), o)
  }

  lemma ScanNext(st: St, l: seq<Rec>, k: nat, at: int, o: Opts)
    requires k < |l|
    ensures Scan(st, l[k..], at, o) == ScanOn(Step(st, l[k], at, o), l[k + 1..], at + o.size(l[k]), o)
  {
    hide Step;
    assert l[k..][0] == l[k] && l[k..][1..] == l[k + 1..];
  }

  /** Scanning on from a result. */
  function ScanOn(r: Option<St>, l: seq<Rec>, at: int, o: Opts): Option<St> {
    if r.None? then None else Scan(r.value, l, at, o)
  }

  lemma {:induction false} ScanSplit(st: St, a: seq<Rec>, b: seq<Rec>, at: int, o: Opts)
    ensures Scan(st, a + b, at, o) == ScanOn(Scan(st, a, at, o), b, at + Length(a, o), o)
    decreases |a|
  {
    if a == [] {
      assert a + b == b;
    } else {
      assert (a + b)[1..] == a[1..] + b;
      var r, n := Step(st, a[0], at, o), o.size(a[0]);
      if r.Some? {
        ScanSplit(r.value, a[1..], b, at + n, o);
        assert Scan(st, a, at, o) == Scan(r.value, a[1..], at + n, o);
        assert Scan(st, a + b, at, o) == Scan(r.value, a[1..] + b, at + n, o);
        assert at + Length(a, o) == at + n + Length(a[1..], o);
      }
    }
  }

  // ---- the accounting ----

  ghost predicate Sized(l: seq<Entry>) {
    forall k :: 0 <= k < |l| ==> l[k].recLen == RecLen(l[k].key) && l[k].totalSize == TotalOf(l[k].recLen)
  }

  /** The running total is the size of all the entries, and every entry knows its own size. */
  ghost predicate Accounted(st: St) {
    Sized(st.sub) && Sized(st.index) && st.total == Sum(st.sub) + Sum(st.index)
  }

  lemma {:induction false} SumSplit(a: seq<Entry>, b: seq<Entry>)
    ensures Sum(a + b) == Sum(a) + Sum(b)
    decreases |a|
  {
    if a == [] { assert a + b == b; }
    else {
      assert (a + b)[1..] == a[1..] + b;
      SumSplit(a[1..], b);
    }
  }

  lemma SumUpdate(l: seq<Entry>, k: nat, e: Entry)
    requires k < |l|
    ensures Sum(l[k := e]) == Sum(l) - l[k].totalSize + e.totalSize
  {
    assert l == l[..k] + ([l[k]] + l[k + 1..]);
    assert l[k := e] == l[..k] + ([e] + l[k + 1..]);
    SumSplit(l[..k], [l[k]] + l[k + 1..]);
    SumSplit(l[..k], [e] + l[k + 1..]);
    assert ([l[k]] + l[k + 1..])[1..] == ([e] + l[k + 1..])[1..] == l[k + 1..];
  }

  lemma AddAccounted(st: St, name: Text, origin: bool)
    requires Accounted(st) && st.ids != []
    ensures Accounted(AddEntry(st, name, origin))
  {
    var e := NewEntry(st, name, origin);
    assert ([e] + st.sub)[1..] == st.sub;
  }

  lemma DescribeAccounted(st: St, id: int, lang: int, text: Text)
    requires Accounted(st)
    ensures Describe(st, id, lang, text).Some? ==> Accounted(Describe(st, id, lang, text).value)
  {
    var r := Lookup(st.sub, id);
    if r.Some? && st.sub[r.value].key.desc == [] {
      SumUpdate(st.sub, r.value, WithDescriptor(st.sub[r.value], lang, text));
    }
  }

  lemma MarkAccounted(st: St, id: int)
    requires Accounted(st)
    ensures Accounted(st.(sub := MarkDefined(st.sub, id)))
  {
    var r := Lookup(st.sub, id);
    if r.Some? { SumUpdate(st.sub, r.value, st.sub[r.value].(defined := true)); }
  }

  lemma StepAccounted(st: St, r: Rec, at: int, o: Opts)
    requires Accounted(st)
    ensures Step(st, r, at, o).Some? ==> Accounted(Step(st, r, at, o).value)
  {
    hide AddEntry, Describe, MarkDefined, RecLen, TotalOf;
    match r {
      case Section(_, scope, name) => if st.ids != [] { AddAccounted(st, name, false); }
      case Symbol(scope, name, _) => if st.ids != [] { AddAccounted(st, name, Has(scope, ORIGIN_USAGE)); }
      case Descriptor(id, lang, text) => DescribeAccounted(st, id, lang, text);
      case DefineLabel(id) => MarkAccounted(st, id);
      case DefineSymbol(id, _) => MarkAccounted(st, id);
      case EndModule => SumSplit(st.sub, st.index);
      case _ =>
    }
  }

  lemma {:induction false} ScanAccounted(st: St, l: seq<Rec>, at: int, o: Opts)
    requires Accounted(st)
    ensures Scan(st, l, at, o).Some? ==> Accounted(Scan(st, l, at, o).value)
    decreases |l|
  {
    hide Step, Accounted;
    if l == [] {
    } else {
      StepAccounted(st, l[0], at, o);
      var r := Step(st, l[0], at, o);
      if r.Some? { ScanAccounted(r.value, l[1..], at + o.size(l[0]), o); }
    }
  }

  // ---- weeding out ----

  /** strip_index: the entries whose symbol was defined, in the opposite order. */
  function Strip(l: seq<Entry>): seq<Entry> {
    if l == [] then [] else Strip(l[1..]) + if l[0].defined then [l[0]] else []
  }

  /** The size of what strip_index removes. */
  function Removed(l: seq<Entry>): int {
    if l == [] then 0 else (if l[0].defined then 0 else l[0].totalSize) + Removed(l[1..])
  }

  lemma {:induction false} StripSizes(l: seq<Entry>)
    ensures Sum(Strip(l)) == Sum(l) - Removed(l)
    ensures Sized(l) ==> Sized(Strip(l))
    decreases |l|
  {
    if l == [] {
    } else {
      StripSizes(l[1..]);
      SumSplit(Strip(l[1..]), if l[0].defined then [l[0]] else []);
      assert Sum([l[0]]) == l[0].totalSize + Sum([l[0]][1..]);
    }
  }

  lemma {:induction false} StripKeeps(l: seq<Entry>, e: Entry)
    ensures e in Strip(l) <==> e in l && e.defined
    decreases |l|
  {
    if l == [] {
    } else {
      StripKeeps(l[1..], e);
      assert l == [l[0]] + l[1..];
    }
  }

  // ---- writing ----

  function Moved(e: Entry, base: int): Rec {
    IndexEntry(e.key.(pos := e.key.pos + base))
  }

  function MovedAll(l: seq<Entry>, base: int): seq<Rec> {
    if l == [] then [] else [Moved(l[0], base)] + MovedAll(l[1..], base)
  }

  /** write_index's own computation of the size of what it writes. */
  function IndexSize(linked: bool, total: int): int {
    SizeL(FormatTag(linked)) + SizeL(0) + SizeL(LIB_INDEX_START) + SizeL(0) + total + SizeL(LIB_INDEX_END) + SizeL(0)
  }

  /** The records that write_index writes. */
  function Header(linked: bool, l: seq<Entry>, base: int): seq<Rec> {
    [Format(linked, []), IndexStart] + MovedAll(l, base) + [IndexEnd]
  }

  lemma EntryBytes(e: Entry, base: int)
    requires e.recLen == RecLen(e.key) && e.totalSize == TotalOf(e.recLen)
    ensures |Bytes(Moved(e, base))| == e.totalSize && |Body(Moved(e, base))| == e.recLen
  {
    var k := Moved(e, base).key;
    SizeIs(k.func);
    SizeIs(k.mode);
    SizeIs(k.lang);
    SizeIs(|k.desc|);
    SizeIs(|k.name|);
    SizeIs(INDEX_ENTRY);
    SizeIs(e.recLen);
  }

  lemma {:induction false} MovedBytes(l: seq<Entry>, base: int)
    requires Sized(l)
    ensures |AllBytes(MovedAll(l, base))| == Sum(l)
    decreases |l|
  {
    if l == [] {
    } else {
      EntryBytes(l[0], base);
      MovedBytes(l[1..], base);
      assert MovedAll(l, base)[1..] == MovedAll(l[1..], base);
    }
  }

  /** The bytes written number exactly what write_index has computed, whatever the positions are. */
  lemma HeaderBytes(linked: bool, l: seq<Entry>, base: int)
    requires Sized(l)
    ensures |AllBytes(Header(linked, l, base))| == IndexSize(linked, Sum(l))
  {
    var a, m := [Format(linked, []), IndexStart], MovedAll(l, base);
    BytesSplit(a + m, [IndexEnd]);
    BytesSplit(a, m);
    MovedBytes(l, base);
    SizeIs(FormatTag(linked));
    SizeIs(0);
    SizeIs(LIB_INDEX_START);
    SizeIs(LIB_INDEX_END);
    assert a[1..] == [IndexStart] && a[1..][1..] == [];
    assert AllBytes(a) == Bytes(Format(linked, [])) + (Bytes(IndexStart) + []);
    assert [IndexEnd][1..] == [];
    assert AllBytes([IndexEnd]) == Bytes(IndexEnd) + [];
  }
}
