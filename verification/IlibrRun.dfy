/** The librarian at work: running totals, an index that grows and is weeded, sorted and written. */
module IlibrRun {
  import opened Common
  import opened Tcoff
  import opened Ilibr
  import opened IlibrModules
  import opened IlibrTheorems
  import opened IlibrUsage

  // ---- the order of the index ----

  const INSTR_IO: nat := 11             // the bit 0x800

  function OneBits(n: int): nat {
    if n <= 0 then 0 else n % 2 + OneBits(n / 2)
  }

  function Sign(x: int, y: int): int {
    if x < y then -1 else if x > y then 1 else 0
  }

  /** strcmp. */
  function StrCmp(a: Text, b: Text): int
    decreases |a|
  {
    if a == [] then (if b == [] then 0 else -1)
    else if b == [] then 1
    else if a[0] != b[0] then Sign(a[0], b[0])
    else StrCmp(a[1..], b[1..])
  }

  /** cmp2: more attribute bits first, then the larger words first. */
  function Cmp2(a: Key, b: Key): int {
    var ac, bc := OneBits(a.func) + OneBits(a.mode), OneBits(b.func) + OneBits(b.mode);
    if ac != bc then Sign(bc, ac)
    else if a.func != b.func then Sign(b.func, a.func)
    else Sign(b.mode, a.mode)
  }

  /** cmp: the origin symbols, then by name, then those that use instruction input and output. */
  function Cmp(a: Entry, b: Entry): int {
    if a.isOrigin && !b.isOrigin then -1
    else if b.isOrigin && !a.isOrigin then 1
    else
      var r := StrCmp(a.key.name, b.key.name);
      if r != 0 then r
      else
        var (ax, bx) := (Has(a.key.mode, INSTR_IO), Has(b.key.mode, INSTR_IO));
        if ax && !bx then -1 else if !ax && bx then 1 else Cmp2(a.key, b.key)
  }

  lemma {:induction false} StrCmpOrder(a: Text, b: Text, c: Text)
    ensures StrCmp(a, b) == -StrCmp(b, a) && -1 <= StrCmp(a, b) <= 1
    ensures StrCmp(a, b) == 0 ==> a == b
    ensures StrCmp(a, b) <= 0 && StrCmp(b, c) <= 0 ==> StrCmp(a, c) <= 0
    ensures StrCmp(a, b) <= 0 && StrCmp(b, c) <= 0 && StrCmp(a, c) == 0 ==> StrCmp(a, b) == 0
    decreases |a| + |b|
  {
    if a == [] || b == [] {
    } else {
      StrCmpOrder(a[1..], b[1..], if c == [] then [] else c[1..]);
      if StrCmp(a, b) == 0 { assert a == [a[0]] + a[1..] && b == [b[0]] + b[1..]; }
    }
  }

  lemma {:induction false} StrCmpSelf(a: Text)
    ensures StrCmp(a, a) == 0
    decreases |a|
  {
    if a == [] {
    } else {
      StrCmpSelf(a[1..]);
    }
  }

  lemma Cmp2Order(a: Key, b: Key, c: Key)
    ensures Cmp2(a, b) == -Cmp2(b, a)
    ensures Cmp2(a, b) <= 0 && Cmp2(b, c) <= 0 ==> Cmp2(a, c) <= 0
  {
    var x, y, z := OneBits(a.func) + OneBits(a.mode), OneBits(b.func) + OneBits(b.mode),
      OneBits(c.func) + OneBits(c.mode);
  }

  /** What qsort asks of a comparison: it says the opposite when asked the other way round, and it is
      transitive. */
  lemma CmpIsOrder(a: Entry, b: Entry, c: Entry)
    ensures Cmp(a, b) == -Cmp(b, a)
    ensures Cmp(a, b) <= 0 && Cmp(b, c) <= 0 ==> Cmp(a, c) <= 0
  {
    StrCmpOrder(a.key.name, b.key.name, c.key.name);
    StrCmpOrder(b.key.name, c.key.name, a.key.name);
    StrCmpSelf(a.key.name);
    Cmp2Order(a.key, b.key, c.key);
  }

  /** a comes before b, or is b, in the dictionary: the first difference is upwards, or a is the beginning
      of b. */
  ghost predicate Dictionary(a: Text, b: Text) {
    exists k: nat :: k <= |a| && k <= |b| && a[..k] == b[..k] && (k == |a| || (k < |b| && a[k] < b[k]))
  }

  lemma {:induction false} StrCmpIs(a: Text, b: Text)
    ensures StrCmp(a, b) <= 0 <==> Dictionary(a, b)
    decreases |a|
  {
    if a == [] || b == [] {
      if a == [] { assert a[..0] == b[..0]; }
    } else {
      StrCmpIs(a[1..], b[1..]);
      if a[0] < b[0] {
        assert a[..0] == b[..0];
      } else if a[0] == b[0] {
        if Dictionary(a[1..], b[1..]) { LaterDifference(a, b); }
        if Dictionary(a, b) { EarlierDifference(a, b); }
      } else {
        if Dictionary(a, b) { FirstDecides(a, b); }
      }
    }
  }

  lemma FirstDecides(a: Text, b: Text)
    requires a != [] && b != [] && Dictionary(a, b)
    ensures a[0] <= b[0]
  {
    var k: nat :| k <= |a| && k <= |b| && a[..k] == b[..k] && (k == |a| || (k < |b| && a[k] < b[k]));
    if k > 0 { assert a[..k][0] == b[..k][0]; }
  }

  lemma LaterDifference(a: Text, b: Text)
    requires a != [] && b != [] && a[0] == b[0] && Dictionary(a[1..], b[1..])
    ensures Dictionary(a, b)
  {
    var x, y := a[1..], b[1..];
    var k: nat :| k <= |x| && k <= |y| && x[..k] == y[..k] && (k == |x| || (k < |y| && x[k] < y[k]));
    assert a[..k + 1] == [a[0]] + x[..k] && b[..k + 1] == [b[0]] + y[..k];
  }

  lemma EarlierDifference(a: Text, b: Text)
    requires a != [] && b != [] && a[0] == b[0] && Dictionary(a, b)
    ensures Dictionary(a[1..], b[1..])
  {
    var x, y := a[1..], b[1..];
    var k: nat :| k <= |a| && k <= |b| && a[..k] == b[..k] && (k == |a| || (k < |b| && a[k] < b[k]));
    assert k > 0;
    assert x[..k - 1] == a[..k][1..] && y[..k - 1] == b[..k][1..];
  }

  /** What the comparison puts first: origin symbols; then, among those and among the others, the earlier
      names; and of one name those with the attribute of instruction input and output. */
  lemma CmpMeans(a: Entry, b: Entry)
    requires Cmp(a, b) <= 0
    ensures b.isOrigin ==> a.isOrigin
    ensures a.isOrigin == b.isOrigin ==> Dictionary(a.key.name, b.key.name)
    ensures a.isOrigin == b.isOrigin && a.key.name == b.key.name && Has(b.key.mode, INSTR_IO)
      ==> Has(a.key.mode, INSTR_IO)
  {
    StrCmpIs(a.key.name, b.key.name);
    StrCmpSelf(a.key.name);
    StrCmpOrder(a.key.name, b.key.name, b.key.name);
  }

  /** The number of one bits is the size of the set of bits. */
  lemma {:induction false} OneBitsCount(u: set<nat>)
    ensures OneBits(Value(u)) == |u|
    decreases Value(u)
  {
    ValueDown(u);
    if u == {} {
    } else {
      ValuePositive(u);
      OneBitsCount(Down(u));
      DownSize(u);
      assert Value(u) / 2 == Value(Down(u));
    }
  }

  lemma ValuePositive(u: set<nat>)
    requires u != {}
    ensures Value(u) > 0
  {
    var k :| k in u;
    ValueWith(u, k);
  }

  lemma {:induction false} DownSize(u: set<nat>)
    ensures |u| == |Down(u)| + if 0 in u then 1 else 0
    decreases |u|
  {
    if u == {} {
      assert Down(u) == {};
    } else {
      var k :| k in u;
      DownSize(u - {k});
      DownWithout(u, k);
      if k > 0 { DownHas(u, k - 1); }
    }
  }

  ghost predicate Ordered(l: seq<Entry>) {
    forall i, j :: 0 <= i < j < |l| ==> Cmp(l[i], l[j]) <= 0
  }

  class Librarian {
    var total: int
    var fstart: int
    var index: seq<Entry>
    var out: seq<Byte>

    constructor ()
      ensures total == 0 && fstart == 0 && index == [] && out == []
    {
      total, fstart, index, out := 0, 0, [], [];
    }

    /** The walk along a list of entries that the definitions and descriptors make. */
    method FindEntry(l: seq<Entry>, id: int) returns (r: Option<nat>)
      ensures r == Lookup(l, id)
    {
      var k := 0;
      while k < |l| && l[k].id != id
        invariant k <= |l| && forall j :: 0 <= j < k ==> l[j].id != id
      {
        k := k + 1;
      }
      r := if k < |l| then Some(k) else None;
    }

    /** index_module: read the records from position pos on, add entries to the index and to the total. */
    method IndexModule(recs: seq<Rec>, from: int, o: Opts) returns (ok: bool)
      modifies `index, `total
      ensures var r := Scan(St(0, [], 0, 0, 0, 0, [], old(index), old(total)), recs, fstart + from, o);
        ok == r.Some? && (ok ==> index == r.value.index && total == r.value.total)
    {
      var level, ids, start, func, mode, lang := 0, [], 0, 0, 0, 0;
      var sub: seq<Entry> := [];
      var pos, k := from, 0;
      ghost var s0 := St(0, [], 0, 0, 0, 0, [], index, total);
      ScanNone(o);
      assert recs[0..] == recs;
      hide Scan, RecLen, TotalOf, Describe, MarkDefined;
      while k < |recs|
        decreases |recs| - k
        invariant k <= |recs|
        invariant Scan(s0, recs, fstart + from, o)
          == Scan(St(level, ids, start, func, mode, lang, sub, index, total), recs[k..], fstart + pos, o)
      {
        var r := recs[k];
        ghost var st, at := St(level, ids, start, func, mode, lang, sub, index, total), fstart + pos;
        ScanNext(st, recs, k, at, o);
        if Inside(r) && ids == [] { return false; }
        match r {
          case Section(kind, scope, name) =>
            if kind == 0 && Indexed(scope) { sub := AddTo(sub, start, func, mode, lang, name, false, ids[0]); }
            ids := [ids[0] + 1] + ids[1..];
          case Symbol(scope, name, _) =>
            if Indexed(scope) { sub := AddTo(sub, start, func, mode, lang, name, Has(scope, ORIGIN_USAGE), ids[0]); }
            ids := [ids[0] + 1] + ids[1..];
          case Descriptor(id, desc, text) =>
            if !o.noDesc {
              var s := Described(sub, id, desc, text);
              if s.None? { return false; }
              sub := s.value;
            }
          case DefineLabel(id) => sub := Marked(sub, id);
          case DefineSymbol(id, _) => sub := Marked(sub, id);
          case StartModule(f, m, l, _) =>
            if level == 0 {
              start, func, mode, lang := fstart + pos, f, m, l;
              if o.noDesc && (lang == LANG_OCCAM || lang == LANG_OCCAM_HARNESS) { lang := LANG_NOT_KNOWN; }
            }
            ids := [0] + ids;
            level := level + 1;
          case EndModule =>
            level := level - 1;
            if level == 0 {
              index := sub + index;
              sub := [];
            }
            ids := ids[1..];
          case Format(linked, _) => if linked != o.linked { return false; }
          case _ =>
        }
        assert Step(st, r, at, o) == Some(St(level, ids, start, func, mode, lang, sub, index, total));
        pos := pos + o.size(r);
        k := k + 1;
      }
      assert recs[k..] == [];
      ok := true;
    }

    static lemma ScanNone(o: Opts)
      ensures forall st, at :: Scan(st, [], at, o) == Some(st)
    {
    }

    /** The entry with this id, if there is one, is marked as defined. */
    method Marked(sub: seq<Entry>, id: int) returns (r: seq<Entry>)
      ensures r == MarkDefined(sub, id)
    {
      var e := FindEntry(sub, id);
      r := if e.Some? then sub[e.value := sub[e.value].(defined := true)] else sub;
    }

    /** The descriptor of an entry: its text and the language are put in, and the sizes adjusted. */
    method Described(sub: seq<Entry>, id: int, desc: int, text: Text) returns (r: Option<seq<Entry>>)
      modifies `total
      ensures forall st: St :: st.sub == sub && st.total == old(total) ==>
        Describe(st, id, desc, text) == if r.None? then None else Some(st.(sub := r.value, total := total))
    {
      var e := FindEntry(sub, id);
      if e.None? { return Some(sub); }
      var was := sub[e.value];
      if was.key.desc != [] { return None; }
      total := total - was.totalSize;
      var n := was.recLen - (SizeL(was.key.lang) + SizeL(|was.key.desc|) + |was.key.desc|);
      n := n + (SizeL(desc) + SizeL(|text|) + |text|);
      var size := SizeL(INDEX_ENTRY) + SizeL(n) + n;
      total := total + size;
      r := Some(sub[e.value := was.(key := was.key.(lang := desc, desc := text), recLen := n, totalSize := size)]);
    }

    /** Records that are errors outside modules. */
    static predicate Inside(r: Rec) {
      r.Section? || r.Symbol? || r.Descriptor? || r.DefineLabel? || r.DefineSymbol? || r.EndModule?
    }

    /** A new entry at the front, its size added to the total. */
    method AddTo(sub: seq<Entry>, start: int, func: int, mode: int, lang: int, name: Text, origin: bool, id: int)
      returns (r: seq<Entry>)
      modifies `total
      ensures var k := Key(start, func, mode, lang, [], name);
        var e := Entry(k, RecLen(k), TotalOf(RecLen(k)), id, origin, origin);
        r == [e] + sub && total == old(total) + e.totalSize
    {
      var recLen := 4 + SizeL(func) + SizeL(mode) + SizeL(lang) + SizeL(0) + (SizeL(|name|) + |name|);
      var size := SizeL(INDEX_ENTRY) + SizeL(recLen) + recLen;
      total := total + size;
      r := [Entry(Key(start, func, mode, lang, [], name), recLen, size, id, origin, origin)] + sub;
    }

    /** strip_index: move the defined entries to a new list. */
    method StripIndex()
      modifies `index, `total
      ensures index == Strip(old(index)) && total == old(total) - Removed(old(index))
    {
      var kept: seq<Entry> := [];
      while index != []
        invariant Strip(old(index)) == Strip(index) + kept
        invariant total == old(total) - Removed(old(index)) + Removed(index)
        decreases |index|
      {
        if index[0].defined { kept := [index[0]] + kept; }
        else { total := total - index[0].totalSize; }
        index := index[1..];
      }
      index := kept;
    }

    /** sort_index; what qsort leaves is some permutation in the order of cmp. */
    method SortIndex()
      modifies `index
      ensures multiset(index) == multiset(old(index)) && Ordered(index)
    {
      var done, k := [], 0;
      while k < |index|
        invariant index == old(index)
        invariant k <= |index| && multiset(done) == multiset(index[..k]) && Ordered(done)
      {
        assert index[..k + 1] == index[..k] + [index[k]];
        done := Insert(done, index[k]);
        k := k + 1;
      }
      assert index[..k] == index;
      index := done;
    }

    static method Insert(l: seq<Entry>, e: Entry) returns (r: seq<Entry>)
      requires Ordered(l)
      ensures multiset(r) == multiset(l) + multiset{e} && Ordered(r)
    {
      var j := 0;
      while j < |l| && Cmp(l[j], e) <= 0
        invariant j <= |l| && forall i :: 0 <= i < j ==> Cmp(l[i], e) <= 0
      {
        j := j + 1;
      }
      r := l[..j] + [e] + l[j..];
      assert l == l[..j] + l[j..];
      InOrder(l, e, j);
    }

    static lemma Above(l: seq<Entry>, e: Entry, j: nat, i: nat)
      requires Ordered(l) && j <= i < |l| && Cmp(l[j], e) > 0
      ensures Cmp(e, l[i]) <= 0
    {
      CmpIsOrder(l[j], e, l[i]);
      if i > j { CmpIsOrder(e, l[j], l[i]); }
    }

    static lemma InOrder(l: seq<Entry>, e: Entry, j: nat)
      requires Ordered(l) && j <= |l| && (forall i :: 0 <= i < j ==> Cmp(l[i], e) <= 0)
      requires (j < |l| ==> Cmp(l[j], e) > 0)
      ensures Ordered(l[..j] + [e] + l[j..])
    {
      var r := l[..j] + [e] + l[j..];
      forall x, y | 0 <= x < y < |r| ensures Cmp(r[x], r[y]) <= 0 {
        if x < j && y < j { assert r[x] == l[x] && r[y] == l[y]; }
        else if x < j && y == j { assert r[x] == l[x] && r[y] == e; }
        else if x < j { assert r[x] == l[x] && r[y] == l[y - 1]; }
        else if x == j { assert r[x] == e && r[y] == l[y - 1]; Above(l, e, j, y - 1); }
        else { assert r[x] == l[x - 1] && r[y] == l[y - 1]; }
      }
    }

    /** tcoff_putrec with no fields. */
    method PutRec(tag: int)
      modifies `out
      ensures out == old(out) + (PutL(tag) + PutL(0))
    {
      out := out + PutL(tag) + PutL(0);
    }

    /** write_index: the positions are moved by the size of the index itself. */
    method WriteIndex(linked: bool)
      requires Sized(index)
      modifies `out
      ensures out == old(out) + AllBytes(Header(linked, index, IndexSize(linked, total)))
    {
      SizeIsSum(linked, total);
      hide *;
      var size := SizeL(FormatTag(linked)) + SizeL(0) + SizeL(LIB_INDEX_START) + SizeL(0) + total
        + SizeL(LIB_INDEX_END) + SizeL(0);
      PutRec(FormatTag(linked));
      PutRec(LIB_INDEX_START);
      ghost var front := out;
      PutEntries(size);
      PutRec(LIB_INDEX_END);
      HeaderParts(linked, index, size, old(out));
    }

    static lemma SizeIsSum(linked: bool, total: int)
      ensures IndexSize(linked, total)
        == SizeL(FormatTag(linked)) + SizeL(0) + SizeL(LIB_INDEX_START) + SizeL(0) + total
          + SizeL(LIB_INDEX_END) + SizeL(0)
    {
    }

    /** The loop of write_index. */
    method PutEntries(size: int)
      requires Sized(index)
      modifies `out
      ensures out == old(out) + AllBytes(MovedAll(index, size))
    {
      assert AllBytes(MovedAll([], size)) == [];
      hide Bytes, AllBytes, MovedAll;
      var k := 0;
      assert index[0..] == index;
      while k < |index|
        invariant k <= |index| && index == old(index)
        invariant out + AllBytes(MovedAll(index[k..], size)) == old(out) + AllBytes(MovedAll(index, size))
      {
        ghost var before, e, rest := out, Bytes(Moved(index[k], size)), AllBytes(MovedAll(index[k + 1..], size));
        PutEntry(index[k], size);
        NextEntry(index[k..], size);
        assert index[k..][1..] == index[k + 1..];
        Assoc(before, e, rest);
        k := k + 1;
      }
      assert index[k..] == [];
      assert out + [] == out;
    }

    lemma NextEntry(l: seq<Entry>, base: int)
      requires l != []
      ensures AllBytes(MovedAll(l, base)) == Bytes(Moved(l[0], base)) + AllBytes(MovedAll(l[1..], base))
    {
      assert MovedAll(l, base)[1..] == MovedAll(l[1..], base);
    }

    /** The header is its three kinds of parts. */
    lemma HeaderParts(linked: bool, l: seq<Entry>, base: int, was: seq<Byte>)
      ensures was + (PutL(FormatTag(linked)) + PutL(0)) + (PutL(LIB_INDEX_START) + PutL(0))
        + AllBytes(MovedAll(l, base))
          + (PutL(LIB_INDEX_END) + PutL(0)) == was + AllBytes(Header(linked, l, base))
    {
      BareBytes(Format(linked, []));
      BareBytes(IndexStart);
      BareBytes(IndexEnd);
      HeaderIs(linked, l, base);
      hide *;
      Flatten5(was, Bytes(Format(linked, [])), Bytes(IndexStart), AllBytes(MovedAll(l, base)), Bytes(IndexEnd));
    }

    lemma HeaderIs(linked: bool, l: seq<Entry>, base: int)
      ensures AllBytes(Header(linked, l, base))
        == ((Bytes(Format(linked, [])) + Bytes(IndexStart)) + AllBytes(MovedAll(l, base))) + Bytes(IndexEnd)
    {
      var a, m := [Format(linked, []), IndexStart], MovedAll(l, base);
      BytesSplit(a + m, [IndexEnd]);
      BytesSplit(a, m);
      TwoBytes(Format(linked, []), IndexStart);
      OneBytes(IndexEnd);
    }

    lemma Flatten5<T>(a: seq<T>, b: seq<T>, c: seq<T>, d: seq<T>, e: seq<T>)
      ensures a + b + c + d + e == a + (((b + c) + d) + e)
    {
    }

    lemma OneBytes(r: Rec)
      ensures AllBytes([r]) == Bytes(r)
    {
      assert [r][1..] == [];
    }

    lemma TwoBytes(r: Rec, s: Rec)
      ensures AllBytes([r, s]) == Bytes(r) + Bytes(s)
    {
      assert [r, s] == [r] + [s];
      BytesSplit([r], [s]);
      OneBytes(r);
      OneBytes(s);
    }

    lemma BareBytes(r: Rec)
      requires Body(r) == []
      ensures Bytes(r) == PutL(Tag(r)) + PutL(0)
    {
    }

    method Put(s: seq<Byte>, ghost front: seq<Byte>, ghost done: seq<Byte>)
      requires out == front + done
      modifies `out
      ensures out == old(out) + s == front + (done + s)
    {
      Assoc(front, done, s);
      out := out + s;
    }

    /** One entry, field by field. */
    method PutEntry(e: Entry, base: int)
      requires e.recLen == RecLen(e.key) && e.totalSize == TotalOf(e.recLen)
      modifies `out
      ensures out == old(out) + Bytes(Moved(e, base))
    {
      ghost var front, p := out, PutL(INDEX_ENTRY) + PutL(e.recLen);
      out := out + PutL(INDEX_ENTRY);
      out := out + PutL(e.recLen);
      EntryBytes(e, base);
      Assoc(front, PutL(INDEX_ENTRY), PutL(e.recLen));
      ghost var body := PutBody(e, base);
      Assoc(front, p, body);
      WholeEntry(e, base);
    }

    lemma WholeEntry(e: Entry, base: int)
      requires |Body(Moved(e, base))| == e.recLen
      ensures Bytes(Moved(e, base)) == PutL(INDEX_ENTRY) + PutL(e.recLen) + KeyBody(Moved(e, base).key)
    {
    }

    /** The fields of an entry. */
    method PutBody(e: Entry, base: int) returns (ghost body: seq<Byte>)
      modifies `out
      ensures body == KeyBody(Moved(e, base).key) && out == old(out) + body
    {
      ghost var k, front := e.key, out;
      body := PutUl(k.pos + base);
      out := out + PutUl(e.key.pos + base);
      Put(PutL(e.key.func), front, body);
      body := body + PutL(k.func);
      Put(PutL(e.key.mode), front, body);
      body := body + PutL(k.mode);
      Put(PutL(e.key.lang), front, body);
      body := body + PutL(k.lang);
      ghost var four := body;
      Put(PutL(|e.key.desc|), front, body);
      Put(e.key.desc, front, body + PutL(|k.desc|));
      Assoc(body, PutL(|k.desc|), k.desc);
      body := body + PutS(k.desc);
      Put(PutL(|e.key.name|), front, body);
      Put(e.key.name, front, body + PutL(|k.name|));
      Assoc(body, PutL(|k.name|), k.name);
      body := body + PutS(k.name);
    }

    /** fcopy: skip the front of a library, copy everything of any other file. */
    method Fcopy(recs: seq<Rec>)
      requires |recs| > 1 && (recs[1].IndexStart? ==> exists k :: 1 < k < |recs| && recs[k].IndexEnd?)
      modifies `out
      ensures !recs[1].IndexStart? ==> out == old(out) + AllBytes(recs)
      ensures recs[1].IndexStart? ==> exists k :: (1 < k < |recs| && recs[k].IndexEnd?
        && (forall j :: 1 < j < k ==> !recs[j].IndexEnd?) && out == old(out) + AllBytes(recs[k + 1..]))
    {
      if recs[1].IndexStart? {
        var k := 2;
        while !recs[k].IndexEnd?
          invariant 1 < k < |recs| && forall j :: 1 < j < k ==> !recs[j].IndexEnd?
          decreases |recs| - k
        {
          k := k + 1;
        }
        out := out + AllBytes(recs[k + 1..]);
      } else {
        out := out + AllBytes(recs);
      }
    }

    /** Where the front of a file ends: after the format record, or after the index of a library. */
    method Front(recs: seq<Rec>) returns (k: nat)
      requires |recs| > 1 && (recs[1].IndexStart? ==> exists k :: 1 < k < |recs| && recs[k].IndexEnd?)
      ensures 1 <= k <= |recs| && (!recs[1].IndexStart? ==> k == 1)
      ensures recs[1].IndexStart? ==> k > 2 && recs[k - 1].IndexEnd? && forall j :: 1 < j < k - 1 ==> !recs[j].IndexEnd?
    {
      k := 1;
      if recs[1].IndexStart? {
        k := 2;
        while !recs[k].IndexEnd?
          invariant 1 < k < |recs| && forall j :: 1 < j < k ==> !recs[j].IndexEnd?
          decreases |recs| - k
        {
          k := k + 1;
        }
        k := k + 1;
      }
    }

    /** How an input looks to the librarian. */
    static lemma InputLooks(f: Input, o: Opts, k: nat)
      requires InputOk(f, o)
      ensures var r := FileRecs(f);
        |r| > 1 && (r[1].IndexStart? <==> f.index.Some?)
        && (r[1].IndexStart? ==> exists j :: 1 < j < |r| && r[j].IndexEnd?)
      ensures var r, n := FileRecs(f), |FrontRecs(f)|;
        n <= |r| && r[..n] == FrontRecs(f) && r[n..] == AllRecs(f.items) && (f.index.None? ==> n == 1)
        && ((f.index.Some? && 2 < k <= |r| && r[k - 1].IndexEnd? && (forall j :: 1 < j < k - 1 ==> !r[j].IndexEnd?))
              ==> k == n)
    {
      var r, n := FileRecs(f), |FrontRecs(f)|;
      if f.index.None? {
        assert r[1] == AllRecs(f.items)[0] == Recs(f.items[0])[0];
        assert ItemOk(f.items[0], o);
      } else {
        assert r[n - 1].IndexEnd?;
        forall j | 1 < j < n - 1 ensures !r[j].IndexEnd? { assert r[j] == f.index.value[j - 2]; }
      }
    }

    method FrontOf(f: Input, recs: seq<Rec>, o: Opts) returns (k: nat)
      requires InputOk(f, o) && recs == FileRecs(f)
      ensures |recs| > 1 && k <= |recs| && recs[..k] == FrontRecs(f) && recs[k..] == AllRecs(f.items)
      ensures recs[1].IndexStart? <==> f.index.Some?
    {
      InputLooks(f, o, 0);
      k := Front(recs);
      InputLooks(f, o, k);
    }

    /** Index one file; fstart counts what will be copied. */
    method ReadFile(f: Input, o: Opts) returns (ok: bool)
      requires InputOk(f, o)
      modifies `index, `total, `fstart
      ensures var front := Length(FrontRecs(f), o);
        var at := if f.index.Some? then old(fstart) else old(fstart) + front;
        var r := Scan(St(0, [], 0, 0, 0, 0, [], old(index), old(total)), AllRecs(f.items), at, o);
        ok == r.Some? && (ok ==> index == r.value.index && total == r.value.total)
        && (ok ==> fstart == at + Length(AllRecs(f.items), o))
    {
      hide *;
      var recs := FileRecs(f);
      var k := FrontOf(f, recs, o);
      var front := Length(recs[..k], o);
      if recs[1].IndexStart? { fstart := fstart - front; }
      ok := IndexModule(recs[k..], front, o);
      fstart := fstart + front + Length(recs[k..], o);
    }

    /** The first loop of mk_index: index every file. */
    method ReadFiles(files: seq<Input>, o: Opts) returns (ok: bool)
      requires InputsOk(files, o) && index == [] && total == 0 && fstart == 0
      modifies this
      ensures var r := ScanFiles(NONE, files, 0, o);
        out == old(out) && ok == r.Some? && (ok ==> index == r.value.index && total == r.value.total)
    {
      hide ScanFiles, Scan, AllRecs, FrontRecs, Length, InputOk;
      var n := 0;
      assert files[0..] == files;
      while n < |files|
        invariant n <= |files| && out == old(out)
        invariant SameFind(ScanFiles(NONE, files, 0, o),
                 ScanFiles(St(0, [], 0, 0, 0, 0, [], index, total), files[n..], fstart, o))
      {
        ghost var st, at := St(0, [], 0, 0, 0, 0, [], index, total), fstart;
        ok := ReadFile(files[n], o);
        OneFile(st, files, n, at, o);
        if !ok { return; }
        n := n + 1;
      }
      assert files[n..] == [];
      NoFiles(St(0, [], 0, 0, 0, 0, [], index, total), fstart, o);
      ok := true;
    }

    static lemma NoFiles(st: St, fstart: int, o: Opts)
      ensures ScanFiles(st, [], fstart, o) == Some(st)
    {
    }

    /** One round of that loop. */
    static lemma OneFile(st: St, files: seq<Input>, n: nat, fstart: int, o: Opts)
      requires n < |files| && st == Fresh(st)
      ensures var (front, body) := (Length(FrontRecs(files[n]), o), AllRecs(files[n].items));
        var at := if files[n].index.Some? then fstart else fstart + front;
        var r := Scan(st, body, at, o);
        SameFind(ScanFiles(st, files[n..], fstart, o),
                 if r.None? then None else ScanFiles(Fresh(r.value), files[n + 1..], at + Length(body, o), o))
    {
      hide Scan, AllRecs, FrontRecs, Length;
      var l := files[n..];
      assert l[0] == files[n] && l[1..] == files[n + 1..];
      var front, body := Length(FrontRecs(files[n]), o), AllRecs(files[n].items);
      var at := if files[n].index.Some? then fstart else fstart + front;
      var r := Scan(st, body, at, o);
      if r.Some? { FreshEnough(r.value, files[n + 1..], at + Length(body, o), o); }
    }

    static lemma FreshEnough(st: St, l: seq<Input>, fstart: int, o: Opts)
      ensures SameFind(ScanFiles(st, l, fstart, o), ScanFiles(Fresh(st), l, fstart, o))
    {
      assert Fresh(Fresh(st)) == Fresh(st);
    }

    /** The last loop of mk_index: copy every file. */
    method CopyFiles(files: seq<Input>, o: Opts)
      requires InputsOk(files, o)
      modifies `out
      ensures out == old(out) + AllBytes(AllRecs(AllCopied(files)))
    {
      var n := 0;
      assert files[0..] == files;
      while n < |files|
        invariant n <= |files|
        invariant out + AllBytes(AllRecs(AllCopied(files[n..]))) == old(out) + AllBytes(AllRecs(AllCopied(files)))
      {
        ghost var before, rest := out, files[n..];
        var f := files[n];
        InputLooks(f, o, 0);
        Fcopy(FileRecs(f));
        CopiesFile(f, o, before, out);
        assert rest[0] == f && rest[1..] == files[n + 1..];
        RecsSplit(Copied(f), AllCopied(rest[1..]));
        BytesSplit(AllRecs(Copied(f)), AllRecs(AllCopied(rest[1..])));
        Assoc(before, AllBytes(AllRecs(Copied(f))), AllBytes(AllRecs(AllCopied(rest[1..]))));
        n := n + 1;
      }
      assert files[n..] == [];
      assert out + [] == out;
    }

    /** What Fcopy promises is what the items that are copied say. */
    static lemma CopiesFile(f: Input, o: Opts, before: seq<Byte>, after: seq<Byte>)
      requires InputOk(f, o)
      requires |FileRecs(f)| > 1
      requires !FileRecs(f)[1].IndexStart? ==> after == before + AllBytes(FileRecs(f))
      requires var r := FileRecs(f); r[1].IndexStart? ==> exists k :: (1 < k < |r| && r[k].IndexEnd?
        && (forall j :: 1 < j < k ==> !r[j].IndexEnd?) && after == before + AllBytes(r[k + 1..]))
      ensures after == before + AllBytes(AllRecs(Copied(f)))
    {
      hide AllBytes, InputOk;
      var r := FileRecs(f);
      InputLooks(f, o, 0);
      if r[1].IndexStart? {
        var k :| 1 < k < |r| && r[k].IndexEnd? && (forall j :: 1 < j < k ==> !r[j].IndexEnd?)
          && after == before + AllBytes(r[k + 1..]);
        InputLooks(f, o, k + 1);
      } else {
        RecsSplit([Loose(f.format)], f.items);
        assert AllRecs([Loose(f.format)]) == [f.format] + AllRecs([Loose(f.format)][1..]) == [f.format];
      }
    }

    /** mk_index: read all files, weed out and sort the entries, write the index, copy the files.  It
        fails when a file is badly formed or when no entry is left. */
    method MkIndex(files: seq<Input>, o: Opts) returns (ok: bool)
      requires Measured(o) && InputsOk(files, o) && index == [] && total == 0 && fstart == 0 && out == []
      modifies this
      ensures ok <==> ScanFiles(NONE, files, 0, o).Some? && Found(files, o) != []
      ensures ok ==> multiset(index) == multiset(Found(files, o)) && Ordered(index)
      ensures ok ==> out == AllBytes(Output(index, files, o))
    {
      ok := ReadFiles(files, o);
      if !ok { return; }
      RunFinds(files, o);
      StripIndex();
      if index == [] { return false; }
      Finish(files, o);
    }

    /** The second half of mk_index: sort, write the index, copy the files. */
    method Finish(files: seq<Input>, o: Opts)
      requires InputsOk(files, o) && Sized(index) && total == Sum(index)
      modifies `index, `out
      ensures multiset(index) == multiset(old(index)) && Ordered(index)
      ensures out == old(out) + AllBytes(Output(index, files, o))
    {
      SortIndex();
      SizedPermuted(old(index), index);
      SumOfMultiset(old(index), index);
      ghost var h := AllBytes(Header(o.linked, index, IndexSize(o.linked, total)));
      WriteIndex(o.linked);
      CopyFiles(files, o);
      Assoc(old(out), h, AllBytes(AllRecs(AllCopied(files))));
      BytesSplit(Header(o.linked, index, IndexSize(o.linked, total)), AllRecs(AllCopied(files)));
    }
  }
}
