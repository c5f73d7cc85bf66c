/** Libraries made from whole input files: what the stored positions point at, which entries there are,
    and that giving the librarian a library is the same as giving it the library's own input. */
module IlibrTheorems {
  import opened Common
  import opened Tcoff
  import opened Ilibr
  import opened IlibrModules

  // ---- the index of a list of items ----

  /** The entries of a whole module, newest first. */
  ghost function EntriesOf(it: Item, at: int, o: Opts): seq<Entry>
    requires ItemOk(it, o)
  {
    match it
    case Loose(_) => []
    case Module(s, b) =>
      var d := Decl(b, |b|);
      seq(|d|, j requires 0 <= j < |d| => EntryOf(s, b, d[j], |b|, at, o))
  }

  /** The entries of each of the items, which start at position at. */
  ghost function Parts(l: seq<Item>, at: int, o: Opts): (r: seq<seq<Entry>>)
    requires ItemsOk(l, o)
    ensures |r| == |l|
    decreases |l|
  {
    if l == [] then [] else [EntriesOf(l[0], at, o)] + Parts(l[1..], at + Size(l[0], o), o)
  }

  /** All entries, newest first. */
  ghost function IndexOf(l: seq<Item>, at: int, o: Opts): seq<Entry>
    requires ItemsOk(l, o)
  {
    JoinBack(Parts(l, at, o))
  }

  /** The first item's entries end up behind those of the rest. */
  lemma IndexFront(l: seq<Item>, at: int, o: Opts, was: seq<Entry>, mid: seq<Entry>)
    requires ItemsOk(l, o) && l != [] && mid == EntriesOf(l[0], at, o) + was
    ensures IndexOf(l, at, o) + was == IndexOf(l[1..], at + Size(l[0], o), o) + mid
  {
    hide EntriesOf, Size, ItemOk;
    var e, rest := EntriesOf(l[0], at, o), Parts(l[1..], at + Size(l[0], o), o);
    ConsParts(e, rest);
    Assoc(JoinBack(rest), e, was);
  }

  /** Between modules. */
  ghost predicate Outside(st: St) {
    st.level == 0 && st.ids == [] && st.sub == []
  }

  lemma {:induction false} RecsSplit(a: seq<Item>, b: seq<Item>)
    ensures AllRecs(a + b) == AllRecs(a) + AllRecs(b)
    decreases |a|
  {
    if a == [] { assert a + b == b; }
    else {
      assert (a + b)[1..] == a[1..] + b;
      RecsSplit(a[1..], b);
    }
  }

  lemma {:induction false} LengthSplit(a: seq<Rec>, b: seq<Rec>, o: Opts)
    ensures Length(a + b, o) == Length(a, o) + Length(b, o)
    decreases |a|
  {
    if a == [] { assert a + b == b; }
    else {
      assert (a + b)[1..] == a[1..] + b;
      LengthSplit(a[1..], b, o);
    }
  }

  lemma {:induction false} SizeIsLength(l: seq<Item>, o: Opts)
    ensures AllSize(l, o) == Length(AllRecs(l), o)
    decreases |l|
  {
    if l == [] {
    } else {
      LengthSplit(Recs(l[0]), AllRecs(l[1..]), o);
      SizeIsLength(l[1..], o);
    }
  }

  lemma ScanLoose(st: St, r: Rec, at: int, o: Opts)
    requires Outside(st) && ItemOk(Loose(r), o)
    ensures Scan(st, [r], at, o) == Some(st)
  {
    assert [r][1..] == [];
  }

  lemma EnterIs(st: St, s: Rec, b: seq<Rec>, at: int, o: Opts)
    requires Outside(st) && s.StartModule?
    ensures InModule(Enter(st, s, at, o), s, b, 0, at, o) && Enter(st, s, at, o).index == st.index
  {
  }

  /** A scan of two stretches that succeeds is the scan of one after the other. */
  lemma ScanPieces(st: St, a: seq<Rec>, b: seq<Rec>, at: int, o: Opts)
    requires Scan(st, a + b, at, o).Some?
    ensures Scan(st, a, at, o).Some?
    ensures Scan(Scan(st, a, at, o).value, b, at + Length(a, o), o) == Scan(st, a + b, at, o)
  {
    ScanSplit(st, a, b, at, o);
  }

  /** A whole module puts its entries in front of the index. */
  lemma ScanModule(st: St, s: Rec, b: seq<Rec>, at: int, o: Opts)
    requires Outside(st) && ItemOk(Module(s, b), o) && Scan(st, Recs(Module(s, b)), at, o).Some?
    ensures var t := Scan(st, Recs(Module(s, b)), at, o).value;
      Outside(t) && t.index == EntriesOf(Module(s, b), at, o) + st.index
  {
    var st1 := Enter(st, s, at, o);
    EnterIs(st, s, b, at, o);
    assert Recs(Module(s, b)) == [s] + (b + [EndModule]);
    ScanPieces(st, [s], b + [EndModule], at, o);
    assert [s][1..] == [];
    assert Scan(st, [s], at, o) == Some(st1);
    var pos := at + Length([s], o);
    ScanPieces(st1, b, [EndModule], pos, o);
    assert b[0..] == b;
    ScanBody(st1, s, b, 0, at, pos, o);
    var st2 := Scan(st1, b, pos, o).value;
    assert [EndModule][1..] == [];
    assert Scan(st, Recs(Module(s, b)), at, o) == Some(Leave(st2));
    assert st2.sub == EntriesOf(Module(s, b), at, o);
  }

  lemma ScanItem(st: St, it: Item, at: int, o: Opts)
    requires Outside(st) && ItemOk(it, o) && Scan(st, Recs(it), at, o).Some?
    ensures var t := Scan(st, Recs(it), at, o).value; Outside(t) && t.index == EntriesOf(it, at, o) + st.index
  {
    match it
    case Loose(r) => ScanLoose(st, r, at, o);
    case Module(s, b) => ScanModule(st, s, b, at, o);
  }

  lemma ScanFirst(st: St, l: seq<Item>, at: int, o: Opts) returns (t: St)
    requires Outside(st) && ItemsOk(l, o) && l != [] && Scan(st, AllRecs(l), at, o).Some?
    ensures Outside(t) && t.index == EntriesOf(l[0], at, o) + st.index
    ensures Scan(t, AllRecs(l[1..]), at + Size(l[0], o), o) == Scan(st, AllRecs(l), at, o)
  {
    ScanPieces(st, Recs(l[0]), AllRecs(l[1..]), at, o);
    ScanItem(st, l[0], at, o);
    t := Scan(st, Recs(l[0]), at, o).value;
  }

  /** index_module over well-bracketed records adds exactly the entries of their modules. */
  lemma {:induction false} ScanItems(st: St, l: seq<Item>, at: int, o: Opts)
    requires Outside(st) && ItemsOk(l, o) && Scan(st, AllRecs(l), at, o).Some?
    ensures var t := Scan(st, AllRecs(l), at, o).value; Outside(t) && t.index == IndexOf(l, at, o) + st.index
    decreases |l|
  {
    if l == [] {
    } else {
      var st1 := ScanFirst(st, l, at, o);
      ScanItems(st1, l[1..], at + Size(l[0], o), o);
      IndexFront(l, at, o, st.index, st1.index);
    }
  }

  // ---- which entries ----

  /** The size of the first k items. */
  function Before(l: seq<Item>, k: nat, o: Opts): nat
    requires k <= |l|
    decreases k
  {
    if k == 0 then 0 else Size(l[0], o) + Before(l[1..], k - 1, o)
  }

  lemma {:induction false} BeforeIs(l: seq<Item>, k: nat, o: Opts)
    requires k <= |l|
    ensures Before(l, k, o) == Length(AllRecs(l[..k]), o)
    decreases k
  {
    if k == 0 {
    } else {
      assert l[..k][1..] == l[1..][..k - 1];
      BeforeIs(l[1..], k - 1, o);
      LengthSplit(Recs(l[0]), AllRecs(l[1..][..k - 1]), o);
    }
  }

  lemma ItemsTail(l: seq<Item>, o: Opts)
    requires ItemsOk(l, o) && l != []
    ensures ItemsOk(l[1..], o)
  {
  }

  lemma PartsNext(l: seq<Item>, at: int, o: Opts, k: nat)
    requires 0 < k < |l| && ItemsOk(l, o) && ItemsOk(l[1..], o)
    ensures Parts(l, at, o)[k] == Parts(l[1..], at + Size(l[0], o), o)[k - 1]
  {
    hide EntriesOf, Size, ItemOk;
  }

  lemma {:induction false} PartsAt(l: seq<Item>, at: int, o: Opts, k: nat)
    requires ItemsOk(l, o) && k < |l|
    ensures Parts(l, at, o)[k] == EntriesOf(l[k], at + Before(l, k, o), o)
    decreases k
  {
    hide EntriesOf, Size, ItemOk;
    if k == 0 {
    } else {
      ItemsTail(l, o);
      PartsNext(l, at, o, k);
      PartsAt(l[1..], at + Size(l[0], o), o, k - 1);
    }
  }

  /** e is the entry of record i of the module it, which exports and defines that symbol. */
  ghost predicate Declares(it: Item, at: int, o: Opts, i: nat, e: Entry) {
    && ItemOk(it, o) && it.Module? && i < |it.body| && Exported(it.body[i]) && IsDefined(it.body, i, |it.body|)
    && e == EntryOf(it.start, it.body, i, |it.body|, at, o)
  }

  lemma EntriesHold(it: Item, at: int, o: Opts, e: Entry)
    requires ItemOk(it, o)
    ensures e.defined && e in EntriesOf(it, at, o) <==> exists i :: Declares(it, at, o, i, e)
  {
    if it.Module? {
      var b, d := it.body, Decl(it.body, |it.body|);
      if i: nat :| Declares(it, at, o, i, e) {
        DeclHolds(b, |b|, i);
        var j :| 0 <= j < |d| && d[j] == i;
        assert EntriesOf(it, at, o)[j] == e;
      }
      if e.defined && e in EntriesOf(it, at, o) {
        var j :| 0 <= j < |d| && EntriesOf(it, at, o)[j] == e;
        DeclHolds(b, |b|, d[j]);
        assert Declares(it, at, o, d[j], e);
      }
    }
  }

  /** The k-th item declares the entry's symbol as its i-th record. */
  ghost predicate DeclaredAt(l: seq<Item>, o: Opts, k: nat, i: nat, e: Entry) {
    k < |l| && Declares(l[k], Before(l, k, o), o, i, e)
  }

  lemma PartDeclares(l: seq<Item>, o: Opts, k: nat, e: Entry)
    requires ItemsOk(l, o) && k < |l|
    ensures e.defined && e in Parts(l, 0, o)[k] <==> exists i :: DeclaredAt(l, o, k, i, e)
  {
    PartsAt(l, 0, o, k);
    var at := Before(l, k, o);
    EntriesHold(l[k], at, o, e);
    assert forall i: nat :: DeclaredAt(l, o, k, i, e) <==> Declares(l[k], at, o, i, e);
  }

  /** After the weeding the index holds exactly the exported symbols that their modules define. */
  lemma SurvivorsAre(l: seq<Item>, o: Opts, e: Entry)
    requires ItemsOk(l, o)
    ensures e in Strip(IndexOf(l, 0, o)) <==> exists k, i :: DeclaredAt(l, o, k, i, e)
  {
    StripKeeps(IndexOf(l, 0, o), e);
    JoinBackHolds(Parts(l, 0, o), e);
    if exists k: nat, i: nat :: DeclaredAt(l, o, k, i, e) {
      var k: nat, i: nat :| DeclaredAt(l, o, k, i, e);
      PartDeclares(l, o, k, e);
    }
    if e in Strip(IndexOf(l, 0, o)) {
      var k: nat :| k < |l| && e in Parts(l, 0, o)[k];
      PartDeclares(l, o, k, e);
      var i: nat :| DeclaredAt(l, o, k, i, e);
    }
  }

  // ---- whole files ----

  /** An input file: its format record, an index if it is a library already, and its items. */
  datatype Input = Input(format: Rec, index: Option<seq<Rec>>, items: seq<Item>)

  predicate InputOk(f: Input, o: Opts) {
    && f.format.Format? && f.format.linked == o.linked && ItemsOk(f.items, o)
    && (f.index.Some? ==> forall k :: 0 <= k < |f.index.value| ==> f.index.value[k].IndexEntry?)
    && (f.index.None? ==> f.items != [])
  }

  predicate InputsOk(l: seq<Input>, o: Opts) {
    forall k :: 0 <= k < |l| ==> InputOk(l[k], o)
  }

  /** What comes before the modules. */
  function FrontRecs(f: Input): seq<Rec> {
    if f.index.None? then [f.format] else [f.format, IndexStart] + f.index.value + [IndexEnd]
  }

  function FileRecs(f: Input): seq<Rec> {
    FrontRecs(f) + AllRecs(f.items)
  }

  /** What fcopy copies: everything of a plain file, what follows the index of a library. */
  function Copied(f: Input): seq<Item> {
    if f.index.None? then [Loose(f.format)] + f.items else f.items
  }

  function AllCopied(l: seq<Input>): seq<Item> {
    if l == [] then [] else Copied(l[0]) + AllCopied(l[1..])
  }

  /** index_module starts afresh, but for the index and the total. */
  function Fresh(st: St): St {
    St(0, [], 0, 0, 0, 0, [], st.index, st.total)
  }

  /** mk_index's loop over the files; fstart is the length of what will be copied of earlier files.  From
      the position in a library the length of its front is subtracted first. */
  function ScanFiles(st: St, l: seq<Input>, fstart: int, o: Opts): Option<St>
    decreases |l|
  {
    if l == [] then Some(st)
    else
      var (front, body) := (Length(FrontRecs(l[0]), o), AllRecs(l[0].items));
      var from := if l[0].index.Some? then fstart - front else fstart;
      var r := Scan(Fresh(st), body, from + front, o);
      if r.None? then None else ScanFiles(r.value, l[1..], from + front + Length(body, o), o)
  }

  /** The same entries and total, or the same failure. */
  ghost predicate SameFind(a: Option<St>, b: Option<St>) {
    (a.None? && b.None?) || (a.Some? && b.Some? && a.value.index == b.value.index && a.value.total == b.value.total)
  }

  lemma FreshOutside(st: St)
    requires Outside(st)
    ensures Outside(Fresh(st))
  {
  }

  lemma NoFilesScan(st: St, fstart: int, o: Opts)
    ensures SameFind(ScanFiles(st, [], fstart, o), Scan(Fresh(st), AllRecs(AllCopied([])), fstart, o))
  {
  }

  lemma SameFindTrans(a: Option<St>, b: Option<St>, c: Option<St>)
    requires SameFind(a, b) && SameFind(c, b)
    ensures SameFind(a, c)
  {
  }

  lemma NoneFound()
    ensures SameFind(None, None)
  {
  }

  /** What a scan finds does not depend on what is left over from an earlier module. */
  lemma {:induction false} ScanFresh(st: St, l: seq<Item>, at: int, o: Opts)
    requires Outside(st) && ItemsOk(l, o)
    ensures SameFind(Scan(st, AllRecs(l), at, o), Scan(Fresh(st), AllRecs(l), at, o))
    decreases |l|
  {
    if l == [] {
    } else {
      var rest := AllRecs(l[1..]);
      match l[0] {
        case Loose(r) =>
          ScanSplit(st, [r], rest, at, o);
          ScanSplit(Fresh(st), [r], rest, at, o);
          ScanLoose(st, r, at, o);
          ScanLoose(Fresh(st), r, at, o);
          ScanFresh(st, l[1..], at + Length([r], o), o);
        case Module(s, b) =>
          assert AllRecs(l)[0] == s;
          assert Enter(st, s, at, o) == Enter(Fresh(st), s, at, o);
      }
    }
  }

  lemma FileScan(st: St, f: Input, fstart: int, o: Opts)
    requires Outside(st) && InputOk(f, o)
    ensures var front := Length(FrontRecs(f), o); var from := if f.index.Some? then fstart - front else fstart;
      ItemsOk(Copied(f), o) && from + front + Length(AllRecs(f.items), o) == fstart + Length(AllRecs(Copied(f)), o)
      && Scan(st, AllRecs(Copied(f)), fstart, o) == Scan(st, AllRecs(f.items), from + front, o)
  {
    if f.index.None? {
      assert AllRecs([Loose(f.format)]) == [f.format] + AllRecs([Loose(f.format)][1..]) == [f.format];
      assert [f.format][1..] == [];
      RecsSplit([Loose(f.format)], f.items);
      LengthSplit([f.format], AllRecs(f.items), o);
      ScanSplit(st, [f.format], AllRecs(f.items), fstart, o);
      ScanLoose(st, f.format, fstart, o);
    }
  }

  lemma OutsideAfter(st: St, f: Input, fstart: int, o: Opts)
    requires Outside(st) && ItemsOk(Copied(f), o) && Scan(st, AllRecs(Copied(f)), fstart, o).Some?
    ensures Outside(Scan(st, AllRecs(Copied(f)), fstart, o).value)
  {
    ScanItems(st, Copied(f), fstart, o);
  }

  lemma {:induction false} CopiedOk(l: seq<Input>, o: Opts)
    requires InputsOk(l, o)
    ensures ItemsOk(AllCopied(l), o)
    decreases |l|
  {
    if l == [] {
    } else {
      CopiedOk(l[1..], o);
    }
  }

  lemma FirstCopied(l: seq<Input>, o: Opts)
    requires InputsOk(l, o) && l != []
    ensures InputsOk(l[1..], o) && AllRecs(AllCopied(l)) == AllRecs(Copied(l[0])) + AllRecs(AllCopied(l[1..]))
  {
    RecsSplit(Copied(l[0]), AllCopied(l[1..]));
    hide AllRecs, Copied, InputOk;
  }

  /** Reading the first file is scanning what will be copied of it. */
  lemma FirstFile(st: St, l: seq<Input>, fstart: int, o: Opts)
    requires Outside(st) && InputsOk(l, o) && l != []
    ensures ItemsOk(Copied(l[0]), o)
    ensures var a := AllRecs(Copied(l[0])); var r := Scan(Fresh(st), a, fstart, o);
      ScanFiles(st, l, fstart, o) == if r.None? then None else ScanFiles(r.value, l[1..], fstart + Length(a, o), o)
  {
    assert InputOk(l[0], o) && Outside(Fresh(st));
    hide Scan, AllRecs, FrontRecs, Length, Copied, InputOk, ItemsOk, Fresh, Outside;
    FileScan(Fresh(st), l[0], fstart, o);
  }

  /** The files are indexed as if they were one list of items, the one that is copied to the output. */
  lemma {:induction false} FilesScan(st: St, l: seq<Input>, fstart: int, o: Opts)
    requires Outside(st) && InputsOk(l, o)
    ensures SameFind(ScanFiles(st, l, fstart, o), Scan(Fresh(st), AllRecs(AllCopied(l)), fstart, o))
    decreases |l|
  {
    hide Scan, AllRecs, Copied, AllCopied, ScanFiles, Length, ItemsOk, InputsOk, SameFind, Outside, Fresh;
    if l == [] {
      NoFilesScan(st, fstart, o);
    } else {
      var rest := l[1..];
      var a, b := AllRecs(Copied(l[0])), AllRecs(AllCopied(rest));
      FirstCopied(l, o);
      FirstFile(st, l, fstart, o);
      FreshOutside(st);
      ScanSplit(Fresh(st), a, b, fstart, o);
      var r := Scan(Fresh(st), a, fstart, o);
      if r.Some? {
        OutsideAfter(Fresh(st), l[0], fstart, o);
        FilesScan(r.value, rest, fstart + Length(a, o), o);
        CopiedOk(rest, o);
        ScanFresh(r.value, AllCopied(rest), fstart + Length(a, o), o);
        var at := fstart + Length(a, o);
        SameFindTrans(ScanFiles(r.value, rest, at, o), Scan(Fresh(r.value), b, at, o), Scan(r.value, b, at, o));
      } else {
        NoneFound();
      }
    }
  }

  const NONE: St := St(0, [], 0, 0, 0, 0, [], [], 0)

  /** The entries that are left after the weeding, before sorting. */
  ghost function Found(l: seq<Input>, o: Opts): (r: seq<Entry>)
    requires InputsOk(l, o)
  {
    CopiedOk(l, o);
    Strip(IndexOf(AllCopied(l), 0, o))
  }

  /** What mk_index has when all files have been read: the entries, and the size of those that are left. */
  lemma RunFinds(files: seq<Input>, o: Opts)
    requires InputsOk(files, o) && ScanFiles(NONE, files, 0, o).Some?
    ensures var st := ScanFiles(NONE, files, 0, o).value;
      Strip(st.index) == Found(files, o) && Sized(Found(files, o))
      && st.total - Removed(st.index) == Sum(Found(files, o))
  {
    CopiedOk(files, o);
    FilesScan(NONE, files, 0, o);
    assert Fresh(NONE) == NONE;
    ItemsFind(AllCopied(files), o);
  }

  lemma ItemsFind(items: seq<Item>, o: Opts)
    requires ItemsOk(items, o) && Scan(NONE, AllRecs(items), 0, o).Some?
    ensures var st := Scan(NONE, AllRecs(items), 0, o).value;
      st.index == IndexOf(items, 0, o) && Sized(Strip(st.index)) && st.total - Removed(st.index) == Sum(Strip(st.index))
  {
    var st := ItemsIndexed(items, o);
    ItemsCounted(items, o, st);
    WeedSizes(st);
  }

  lemma ItemsIndexed(items: seq<Item>, o: Opts) returns (st: St)
    requires ItemsOk(items, o) && Scan(NONE, AllRecs(items), 0, o).Some?
    ensures Scan(NONE, AllRecs(items), 0, o) == Some(st) && st.sub == [] && st.index == IndexOf(items, 0, o)
  {
    ScanItems(NONE, items, 0, o);
    st := Scan(NONE, AllRecs(items), 0, o).value;
    assert st.sub == [] && IndexOf(items, 0, o) + [] == IndexOf(items, 0, o);
  }

  lemma ItemsCounted(items: seq<Item>, o: Opts, st: St)
    requires Scan(NONE, AllRecs(items), 0, o) == Some(st)
    ensures Accounted(st)
  {
    hide Scan, AllRecs;
    ScanAccounted(NONE, AllRecs(items), 0, o);
  }

  lemma WeedSizes(st: St)
    requires Accounted(st) && st.sub == []
    ensures Sized(Strip(st.index)) && st.total - Removed(st.index) == Sum(Strip(st.index))
  {
    StripSizes(st.index);
  }

  /** The output file, when the entries have been sorted into l. */
  function Output(l: seq<Entry>, files: seq<Input>, o: Opts): seq<Rec> {
    Header(o.linked, l, IndexSize(o.linked, Sum(l))) + AllRecs(AllCopied(files))
  }

  lemma {:induction false} SumOfMultiset(a: seq<Entry>, b: seq<Entry>)
    requires multiset(a) == multiset(b)
    ensures Sum(a) == Sum(b)
    decreases |a|
  {
    hide *;
    if a == [] { assert |multiset(b)| == 0; }
    else {
      var k := RemoveBoth(a, b);
      SumOfMultiset(a[1..], b[..k] + b[k + 1..]);
      SumFirst(a);
      SumWithout(b, k);
    }
  }

  lemma SumFirst(a: seq<Entry>)
    requires a != []
    ensures Sum(a) == a[0].totalSize + Sum(a[1..])
  {
  }

  lemma SumWithout(b: seq<Entry>, k: nat)
    requires k < |b|
    ensures Sum(b) == b[k].totalSize + Sum(b[..k] + b[k + 1..])
  {
    var a, x, c := b[..k], b[k], b[k + 1..];
    ConsParts(x, c);
    assert Sum([x] + c) == x.totalSize + Sum(c);
    hide *;
    SplitAt(b, k);
    SumSplit(a, c);
    SumSplit(a, [x] + c);
  }

  lemma SizedPermuted(a: seq<Entry>, b: seq<Entry>)
    requires multiset(a) == multiset(b) && Sized(a)
    ensures Sized(b)
  {
    forall k | 0 <= k < |b| ensures b[k].recLen == RecLen(b[k].key) && b[k].totalSize == TotalOf(b[k].recLen) {
      assert b[k] in multiset(a);
    }
  }

  /** The entry's position, moved by the size of the index, is where the k-th item of what was copied
      starts in the output, and that item is the module whose i-th record exports the symbol. */
  ghost predicate PointsAt(files: seq<Input>, o: Opts, l: seq<Entry>, e: Entry, k: nat, i: nat) {
    var items, out := AllCopied(files), AllBytes(Output(l, files, o));
    var p := e.key.pos + IndexSize(o.linked, Sum(l));
    && k < |items| && items[k].Module? && i < |items[k].body| && Exported(items[k].body[i])
    && items[k].body[i].name == e.key.name && IsDefined(items[k].body, i, |items[k].body|)
    && 0 <= p && p + |Bytes(items[k].start)| <= |out|
    && out[p..p + |Bytes(items[k].start)|] == Bytes(items[k].start)
  }

  /** The position in the j-th index entry of the output, as it is read: four bytes. */
  ghost function Stored(files: seq<Input>, o: Opts, l: seq<Entry>, j: nat): (r: Option<int>) {
    var recs := Raws(Output(l, files, o));
    if j + 2 < |recs| && recs[j + 2].tag == INDEX_ENTRY && |recs[j + 2].body| >= 4 then
      Some(FromLittle(recs[j + 2].body[..4]))
    else None
  }

  lemma {:induction false} RawsAt(l: seq<Rec>, k: nat)
    requires k < |l|
    ensures |Raws(l)| == |l| && Raws(l)[k] == Raw(Tag(l[k]), Body(l[k]))
    decreases |l|
  {
    if |l| > 1 { RawsAt(l[1..], if k > 0 then k - 1 else 0); } else { assert Raws(l[1..]) == []; }
  }

  lemma {:induction false} MovedAt(l: seq<Entry>, base: int, j: nat)
    requires j < |l|
    ensures |MovedAll(l, base)| == |l| && MovedAll(l, base)[j] == Moved(l[j], base)
    decreases |l|
  {
    if |l| > 1 { MovedAt(l[1..], base, if j > 0 then j - 1 else 0); } else { assert MovedAll(l[1..], base) == []; }
  }

  /** The record of the j-th entry is the third behind it. */
  lemma EntryAt(files: seq<Input>, o: Opts, l: seq<Entry>, j: nat)
    requires j < |l|
    ensures j + 2 < |Output(l, files, o)|
    ensures Output(l, files, o)[j + 2] == Moved(l[j], IndexSize(o.linked, Sum(l)))
  {
    hide IndexSize, AllRecs, Moved, MovedAll;
    MovedAt(l, IndexSize(o.linked, Sum(l)), j);
  }

  lemma KeyFront(k: Key)
    ensures |KeyBody(k)| >= 4 && FromLittle(KeyBody(k)[..4]) == k.pos % 0x1_0000_0000
  {
    hide PutL, PutS, PutUl, FromLittle, Pow256;
    FirstFour(PutUl(k.pos), PutL(k.func), PutL(k.mode), PutL(k.lang), PutS(k.desc), PutS(k.name));
    FourBack(k.pos);
  }

  lemma FirstFour(u: Text, a: Text, b: Text, c: Text, d: Text, e: Text)
    requires |u| == 4
    ensures |u + a + b + c + d + e| >= 4 && (u + a + b + c + d + e)[..4] == u
  {
    assert forall i :: 0 <= i < 4 ==> (u + a + b + c + d + e)[i] == u[i];
  }

  /** What is stored is the position, moved, modulo 2^32. */
  lemma StoredIs(files: seq<Input>, o: Opts, l: seq<Entry>, j: nat)
    requires j < |l|
    ensures Stored(files, o, l, j) == Some((l[j].key.pos + IndexSize(o.linked, Sum(l))) % 0x1_0000_0000)
  {
    hide Output, IndexSize, KeyBody, FromLittle, Raws;
    EntryAt(files, o, l, j);
    RawsAt(Output(l, files, o), j + 2);
    KeyFront(l[j].key.(pos := l[j].key.pos + IndexSize(o.linked, Sum(l))));
  }

  lemma Stretch(a: seq<Byte>, b: seq<Byte>, c: seq<Byte>)
    ensures (a + b + c)[|a|..|a| + |b|] == b
  {
  }

  lemma FirstBytes(s: Rec, r: seq<Rec>)
    ensures AllBytes([s] + r) == Bytes(s) + AllBytes(r)
  {
    assert ([s] + r)[1..] == r;
  }

  /** What follows the start of a module. */
  function Behind(l: seq<Item>, k: nat): seq<Rec>
    requires k < |l| && l[k].Module?
  {
    l[k].body + [EndModule] + AllRecs(l[k + 1..])
  }

  lemma RecsAt(l: seq<Item>, k: nat)
    requires k < |l| && l[k].Module?
    ensures AllRecs(l) == AllRecs(l[..k]) + ([l[k].start] + Behind(l, k))
  {
    assert l == l[..k] + l[k..];
    RecsSplit(l[..k], l[k..]);
    assert l[k..][1..] == l[k + 1..];
    Regroup([l[k].start], l[k].body, [EndModule], AllRecs(l[k + 1..]));
  }

  /** Where an item starts among the bytes of a list. */
  lemma ItemBytes(l: seq<Item>, k: nat)
    requires k < |l| && l[k].Module?
    ensures AllBytes(AllRecs(l)) == AllBytes(AllRecs(l[..k])) + (Bytes(l[k].start) + AllBytes(Behind(l, k)))
  {
    RecsAt(l, k);
    BytesSplit(AllRecs(l[..k]), [l[k].start] + Behind(l, k));
    FirstBytes(l[k].start, Behind(l, k));
  }

  /** The bytes of the output, cut at the start of a module. */
  lemma OutputBytes(files: seq<Input>, o: Opts, l: seq<Entry>, k: nat) returns (a: seq<Byte>, c: seq<Byte>)
    requires Measured(o) && Sized(l) && k < |AllCopied(files)| && AllCopied(files)[k].Module?
    ensures AllBytes(Output(l, files, o)) == a + Bytes(AllCopied(files)[k].start) + c
    ensures |a| == IndexSize(o.linked, Sum(l)) + Before(AllCopied(files), k, o)
  {
    var items, n := AllCopied(files), IndexSize(o.linked, Sum(l));
    HeaderBytes(o.linked, l, n);
    BytesSplit(Header(o.linked, l, n), AllRecs(items));
    ItemBytes(items, k);
    BeforeIs(items, k, o);
    LengthIs(AllRecs(items[..k]), o);
    var h, b := AllBytes(Header(o.linked, l, n)), AllBytes(AllRecs(items[..k]));
    a, c := h + b, AllBytes(Behind(items, k));
    Regroup(h, b, Bytes(items[k].start), c);
  }

  lemma Points(files: seq<Input>, o: Opts, l: seq<Entry>, e: Entry, k: nat, i: nat)
    requires Measured(o) && DeclaredAt(AllCopied(files), o, k, i, e) && Sized(l)
    ensures PointsAt(files, o, l, e, k, i)
  {
    var a, c := OutputBytes(files, o, l, k);
    Stretch(a, Bytes(AllCopied(files)[k].start), c);
  }

  /** For every list of well-bracketed inputs: the bytes written before the copied files number exactly
      the size that the run has accounted for; the stored position of every entry is the offset in the
      output of the START_MODULE record of the module that exports and defines the entry's symbol; and
      every symbol that a module exports and defines has its entry.  l is the sorted index. */
  lemma PositionsPoint(files: seq<Input>, o: Opts, l: seq<Entry>)
    requires Measured(o) && InputsOk(files, o) && ScanFiles(NONE, files, 0, o).Some?
    requires multiset(l) == multiset(Found(files, o))
    ensures var st := ScanFiles(NONE, files, 0, o).value; var n := IndexSize(o.linked, st.total - Removed(st.index));
      |AllBytes(Header(o.linked, l, n))| == n == IndexSize(o.linked, Sum(l))
    ensures forall e :: e in l ==> exists k, i :: PointsAt(files, o, l, e, k, i)
    ensures forall k: nat, i: nat, e :: DeclaredAt(AllCopied(files), o, k, i, e) ==> e in l
  {
    hide *;
    RunFinds(files, o);
    SizedPermuted(Found(files, o), l);
    SumOfMultiset(l, Found(files, o));
    HeaderBytes(o.linked, l, IndexSize(o.linked, Sum(l)));
    forall e | e in l ensures exists k, i :: PointsAt(files, o, l, e, k, i) { FindsPoint(files, o, l, e); }
    forall k: nat, i: nat, e | DeclaredAt(AllCopied(files), o, k, i, e) ensures e in l {
      Complete(files, o, l, k, i, e);
    }
  }

  /** What is stored in four bytes is that offset, for every output shorter than 2^32 bytes. */
  lemma PositionsStored(files: seq<Input>, o: Opts, l: seq<Entry>, j: nat)
    requires Measured(o) && InputsOk(files, o) && ScanFiles(NONE, files, 0, o).Some?
    requires multiset(l) == multiset(Found(files, o)) && j < |l|
    requires |AllBytes(Output(l, files, o))| < 0x1_0000_0000
    ensures Stored(files, o, l, j) == Some(l[j].key.pos + IndexSize(o.linked, Sum(l)))
    ensures exists k, i :: PointsAt(files, o, l, l[j], k, i)
  {
    hide *;
    PositionsPoint(files, o, l);
    StoredIs(files, o, l, j);
    assert l[j] in l;
    var k, i :| PointsAt(files, o, l, l[j], k, i);
    PointsInside(files, o, l, l[j], k, i);
  }

  lemma PointsInside(files: seq<Input>, o: Opts, l: seq<Entry>, e: Entry, k: nat, i: nat)
    requires PointsAt(files, o, l, e, k, i)
    ensures 0 <= e.key.pos + IndexSize(o.linked, Sum(l)) < |AllBytes(Output(l, files, o))|
  {
  }

  lemma FindsPoint(files: seq<Input>, o: Opts, l: seq<Entry>, e: Entry)
    requires Measured(o) && InputsOk(files, o) && multiset(l) == multiset(Found(files, o)) && Sized(l) && e in l
    ensures exists k, i :: PointsAt(files, o, l, e, k, i)
  {
    assert e in multiset(Found(files, o));
    CopiedOk(files, o);
    SurvivorsAre(AllCopied(files), o, e);
    var k: nat, i: nat :| DeclaredAt(AllCopied(files), o, k, i, e);
    Points(files, o, l, e, k, i);
  }

  lemma Complete(files: seq<Input>, o: Opts, l: seq<Entry>, k: nat, i: nat, e: Entry)
    requires InputsOk(files, o) && multiset(l) == multiset(Found(files, o)) && DeclaredAt(AllCopied(files), o, k, i, e)
    ensures e in l
  {
    CopiedOk(files, o);
    SurvivorsAre(AllCopied(files), o, e);
    assert e in multiset(l);
  }

  // ---- running the librarian again ----

  /** The output as an input. */
  function AsInput(l: seq<Entry>, files: seq<Input>, o: Opts): Input {
    Input(Format(o.linked, []), Some(MovedAll(l, IndexSize(o.linked, Sum(l)))), AllCopied(files))
  }

  lemma {:induction false} CopiedSplit(a: seq<Input>, b: seq<Input>)
    ensures AllCopied(a + b) == AllCopied(a) + AllCopied(b)
    decreases |a|
  {
    if a == [] { assert a + b == b; }
    else {
      assert (a + b)[1..] == a[1..] + b;
      CopiedSplit(a[1..], b);
    }
  }

  lemma {:induction false} MovedAreEntries(l: seq<Entry>, base: int)
    ensures forall k :: 0 <= k < |MovedAll(l, base)| ==> MovedAll(l, base)[k].IndexEntry?
    decreases |l|
  {
    if l == [] {
    } else {
      MovedAreEntries(l[1..], base);
    }
  }

  /** A library given as input, alone or followed by further files, is indexed exactly as the files it was
      made from: the same entries with the same positions, so the same size, and the same records copied.
      The library file itself is what the first run wrote. */
  lemma RerunStable(files: seq<Input>, more: seq<Input>, o: Opts, l: seq<Entry>)
    requires InputsOk(files, o) && InputsOk(more, o)
    ensures var lib := AsInput(l, files, o);
      && FileRecs(lib) == Output(l, files, o) && InputsOk([lib] + more, o) && InputsOk(files + more, o)
      && SameFind(ScanFiles(NONE, [lib] + more, 0, o), ScanFiles(NONE, files + more, 0, o))
      && Found([lib] + more, o) == Found(files + more, o)
      && AllCopied([lib] + more) == AllCopied(files + more)
  {
    var lib := AsInput(l, files, o);
    MovedAreEntries(l, IndexSize(o.linked, Sum(l)));
    CopiedOk(files, o);
    CopiedSplit([lib], more);
    CopiedSplit(files, more);
    assert AllCopied([lib]) == Copied(lib) + AllCopied([lib][1..]) == AllCopied(files);
    FilesScan(NONE, [lib] + more, 0, o);
    FilesScan(NONE, files + more, 0, o);
  }
}
