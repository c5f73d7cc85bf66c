/** Exactly which TEnc trees come back from their own dump. */
module TencTheorems {
  import opened Common
  import opened Tenc

  predicate Words(ws: nat) { ws == 2 || ws == 4 }

  /** What the padding rules agree on. */
  predicate Good(e: Elem, last: bool, ws: nat)
    requires ws > 0
  {
    Fits(e, ws) && (ws == 4 ==> SafeElem(e, last))
  }

  lemma DumpLong(e: Elem, ws: nat)
    requires Words(ws) && Fits(e, ws)
    ensures |Dump(e, ws)| >= 4 + ws && Dump(e, ws)[..4] == e.tag
  {
    match e
    case List(_, es) => WordBack(|DumpAll(es, ws)|, ws);
    case Unsigned(_, n) => WordBack(n, ws);
    case Text(_, s) => WordBack(|s|, ws);
  }

  lemma DumpEmpty(es: seq<Elem>, ws: nat)
    requires Words(ws) && AllFit(es, ws)
    ensures DumpAll(es, ws) == [] <==> es == []
  {
    if es != [] { DumpLong(es[0], ws); }
  }

  lemma SliceBack(a: Str, b: Str)
    ensures Take(a + b, |a|) == a && Drop(a + b, |a|) == b
  {
  }

  /** A number after a tag. */
  lemma NumberBack(pos: int, n: nat, rest: Str, ws: nat)
    requires n < Pow256(ws)
    ensures ParseNumber(pos, IntToBytes(n, ws) + rest, ws) == Parsed(n, pos + ws, rest)
  {
    WordBack(n, ws);
    SliceBack(IntToBytes(n, ws), rest);
  }

  /** What the parser makes of a tag, a number and what follows. */
  lemma TextIs(pos: int, t: Str, s: Str, y: Str, ws: nat)
    requires Words(ws) && |t| == 4 && |s| < Pow256(ws) && (t[3] == BYTES || t[3] == STRING)
    ensures ParseText(pos, t + (IntToBytes(|s|, ws) + (s + y)), ws) == Parsed(Text(t, s),
      pos + 4 + ws + |s| + Padding(pos + 4 + ws + |s|, ws), Drop(y, Padding(pos + 4 + ws + |s|, ws)))
  {
    hide IntToBytes, ParseNumber, Padding, Take, Drop;
    SliceBack(t, IntToBytes(|s|, ws) + (s + y));
    NumberBack(pos + 4, |s|, s + y, ws);
    SliceBack(s, y);
  }

  lemma ChoosesText(pos: int, data: Str, ws: nat)
    requires Words(ws) && |data| >= 4 && (data[3] == BYTES || data[3] == STRING)
    ensures ParseElement(pos, data, ws) == Some(ParseText(pos, data, ws))
  {
  }

  /** A signed element is read as an unsigned word: no negative number ever comes out. */
  lemma SignedIs(pos: int, t: Str, n: nat, y: Str, ws: nat)
    requires Words(ws) && |t| == 4 && n < Pow256(ws) && t[3] == SIGNED
    ensures ParseElement(pos, t + (IntToBytes(n, ws) + y), ws) == Some(Parsed(Signed(t, n), pos + 4 + ws, y))
  {
    hide IntToBytes, ParseNumber;
    SliceBack(t, IntToBytes(n, ws) + y);
    NumberBack(pos + 4, n, y, ws);
  }

  lemma UnsignedIs(pos: int, t: Str, n: nat, y: Str, ws: nat)
    requires Words(ws) && |t| == 4 && n < Pow256(ws) && t[3] == UNSIGNED
    ensures ParseElement(pos, t + (IntToBytes(n, ws) + y), ws) == Some(Parsed(Unsigned(t, n), pos + 4 + ws, y))
  {
    hide IntToBytes, ParseNumber;
    SliceBack(t, IntToBytes(n, ws) + y);
    NumberBack(pos + 4, n, y, ws);
  }

  lemma ListIs(pos: int, t: Str, b: Str, y: Str, ws: nat)
    requires Words(ws) && |t| == 4 && |b| < Pow256(ws) && t[3] == LIST
    ensures var es := ParseAll(pos + 4 + ws, b, ws);
      ParseElement(pos, t + (IntToBytes(|b|, ws) + (b + y)), ws)
        == if es.None? then None else Some(Parsed(List(t, es.value.0), es.value.1, y))
  {
    hide IntToBytes, ParseNumber;
    SliceBack(t, IntToBytes(|b|, ws) + (b + y));
    NumberBack(pos + 4, |b|, b + y, ws);
    SliceBack(b, y);
  }

  lemma TextDump(e: Elem, rest: Str, ws: nat)
    requires Words(ws) && e.Text?
    ensures Dump(e, ws) + rest
      == e.tag + (IntToBytes(|e.text|, ws) + (e.text + (Zeros(Mod(|e.text|, ws)) + rest)))
  {
    Regroup(e.tag, IntToBytes(|e.text|, ws), e.text, Zeros(Mod(|e.text|, ws)) + rest);
  }

  /** The zeros that are skipped are the zeros that were written. */
  lemma PadBack(n: nat, end: int, rest: Str, ws: nat)
    requires Words(ws) && Mod(end, ws) == Mod(n, ws) && (ws == 4 ==> n % 2 == 0 || (rest == [] && n % 4 == 1))
    ensures Drop(Zeros(Mod(n, ws)) + rest, Padding(end, ws)) == rest
  {
    ZerosAre(Mod(n, ws));
    if Padding(end, ws) == Mod(n, ws) { SliceBack(Zeros(Mod(n, ws)), rest); }
  }

  /** A tag and a number keep the position aligned. */
  lemma ModOn(pos: int, n: int, ws: nat)
    requires Words(ws) && Mod(pos, ws) == 0
    ensures Mod(pos + 4 + ws + n, ws) == Mod(n, ws) && Mod(pos + 4 + ws, ws) == 0
  {
    if ws == 2 { assert (pos + 6 + n) % 2 == n % 2; } else { assert (pos + 8 + n) % 4 == n % 4; }
  }

  /** What is left behind a string, and where the parser then is. */
  lemma TextRest(pos: int, n: nat, rest: Str, ws: nat)
    requires Words(ws) && Mod(pos, ws) == 0 && (ws == 4 ==> n % 2 == 0 || (rest == [] && n % 4 == 1))
    ensures var pad := Padding(pos + 4 + ws + n, ws);
      Drop(Zeros(Mod(n, ws)) + rest, pad) == rest && Mod(pos + 4 + ws + n + pad, ws) == 0
  {
    ModOn(pos, n, ws);
    PadBack(n, pos + 4 + ws + n, rest, ws);
    Aligned(pos + 4 + ws + n, ws);
  }

  /** A string that was written, and what the parser's own padding leaves. */
  lemma TextThen(e: Elem, pos: int, rest: Str, ws: nat)
    requires Words(ws) && e.Text? && Fits(e, ws)
    ensures var end := pos + 4 + ws + |e.text|; var pad := Padding(end, ws);
      ParseText(pos, Dump(e, ws) + rest, ws) == Parsed(e, end + pad, Drop(Zeros(Mod(|e.text|, ws)) + rest, pad))
    ensures ParseElement(pos, Dump(e, ws) + rest, ws) == Some(ParseText(pos, Dump(e, ws) + rest, ws))
  {
    hide ParseText, ParseElement, Dump, IntToBytes, Padding;
    TextDump(e, rest, ws);
    TextIs(pos, e.tag, e.text, Zeros(Mod(|e.text|, ws)) + rest, ws);
    DumpLong(e, ws);
    assert (Dump(e, ws) + rest)[3] == Dump(e, ws)[..4][3] == e.tag[3];
    ChoosesText(pos, Dump(e, ws) + rest, ws);
  }

  lemma TextBack(e: Elem, pos: int, rest: Str, ws: nat)
    requires Words(ws) && e.Text? && Good(e, rest == [], ws) && Mod(pos, ws) == 0
    ensures var r := ParseElement(pos, Dump(e, ws) + rest, ws);
      r.Some? && r.value.v == e && r.value.rest == rest && Mod(r.value.pos, ws) == 0
  {
    hide ParseElement, ParseText, Dump;
    var n := |e.text|;
    TextRest(pos, n, rest, ws);
    TextThen(e, pos, rest, ws);
  }

  lemma UnsignedBack(e: Elem, pos: int, rest: Str, ws: nat)
    requires Words(ws) && e.Unsigned? && Fits(e, ws) && Mod(pos, ws) == 0
    ensures var r := ParseElement(pos, Dump(e, ws) + rest, ws);
      r.Some? && r.value.v == e && r.value.rest == rest && Mod(r.value.pos, ws) == 0
  {
    hide ParseElement, IntToBytes;
    Assoc(e.tag, IntToBytes(e.value, ws), rest);
    UnsignedIs(pos, e.tag, e.value, rest, ws);
    ModOn(pos, 0, ws);
  }

  lemma Aligned(end: int, ws: nat)
    requires Words(ws)
    ensures Mod(end + Padding(end, ws), ws) == 0
  {
  }

  /** A parsed element is what was written, and what follows is left. */
  lemma {:induction false} ElementBack(e: Elem, pos: int, rest: Str, ws: nat)
    requires Words(ws) && Good(e, rest == [], ws) && Mod(pos, ws) == 0
    ensures var r := ParseElement(pos, Dump(e, ws) + rest, ws);
      r.Some? && r.value.v == e && r.value.rest == rest && Mod(r.value.pos, ws) == 0
    decreases e
  {
    hide ParseElement, IntToBytes, ParseAll, Padding;
    match e
    case Text(tag, s) => TextBack(e, pos, rest, ws);
    case Unsigned(tag, n) => UnsignedBack(e, pos, rest, ws);
    case List(tag, es) =>
      ListDump(tag, es, rest, ws);
      ListIs(pos, tag, DumpAll(es, ws), rest, ws);
      ModOn(pos, 0, ws);
      AllBack(es, pos + 4 + ws, ws);
  }

  lemma ListDump(tag: Str, es: seq<Elem>, rest: Str, ws: nat)
    requires Words(ws)
    ensures Dump(List(tag, es), ws) + rest == tag + (IntToBytes(|DumpAll(es, ws)|, ws) + (DumpAll(es, ws) + rest))
  {
    Regroup(tag, IntToBytes(|DumpAll(es, ws)|, ws), DumpAll(es, ws), rest);
  }

  lemma {:induction false} AllBack(es: seq<Elem>, pos: int, ws: nat)
    requires Words(ws) && AllFit(es, ws) && (ws == 4 ==> Safe(es)) && Mod(pos, ws) == 0
    ensures var r := ParseAll(pos, DumpAll(es, ws), ws); r.Some? && r.value.0 == es && Mod(r.value.1, ws) == 0
    decreases es
  {
    if es == [] {
    } else {
      var rest := DumpAll(es[1..], ws);
      DumpEmpty(es, ws);
      DumpEmpty(es[1..], ws);
      ElementBack(es[0], pos, rest, ws);
      SafeRest(es, ws);
      AllBack(es[1..], ParseElement(pos, Dump(es[0], ws) + rest, ws).value.pos, ws);
    }
  }

  lemma SafeRest(es: seq<Elem>, ws: nat)
    requires es != [] && (ws == 4 ==> Safe(es))
    ensures ws == 4 ==> Safe(es[1..])
  {
    if ws == 4 {
      forall k | 0 <= k < |es| - 1 ensures SafeElem(es[1..][k], k == |es[1..]| - 1) {
        assert SafeElem(es[k + 1], k + 1 == |es| - 1);
      }
    }
  }

  // ---- what goes wrong otherwise ----

  /** No tag consists of the same two characters twice. */
  predicate NoRepeats(e: Elem)
    decreases e
  {
    |e.tag| == 4 && !(e.tag[0] == e.tag[2] && e.tag[1] == e.tag[3])
    && (e.List? ==> forall k :: 0 <= k < |e.elems| ==> NoRepeats(e.elems[k]))
  }

  predicate NoneRepeats(es: seq<Elem>) {
    forall k :: 0 <= k < |es| ==> NoRepeats(es[k])
  }

  lemma TagRead(data: Str, pos: int, ws: nat)
    requires ws > 0 && ParseElement(pos, data, ws).Some?
    ensures |data| >= 4 && ParseElement(pos, data, ws).value.v.tag == data[..4]
  {
    assert Take(data, 4) == data[..4];
  }

  /** Two zeros in front of what is left: it cannot be parsed as what it is. */
  lemma ZerosInFront(es: seq<Elem>, pos: int)
    requires AllFit(es, 4)
    ensures var r := ParseAll(pos, [0, 0] + DumpAll(es, 4), 4); r.None? || r.value.0 != es
  {
    var data := [0, 0] + DumpAll(es, 4);
    if es != [] && ParseElement(pos, data, 4).Some? {
      TagRead(data, pos, 4);
      DumpLong(es[0], 4);
      var t := es[0].tag;
      assert data[3] == DumpAll(es, 4)[1] == t[1] && data[1] == 0;
      assert Fits(es[0], 4) && t[3] > 0;
      assert data[..4][3] == data[3] && data[..4][1] == 0;
    }
  }

  /** Nor can what is left when its first two bytes are missing. */
  lemma TwoMissing(es: seq<Elem>, pos: int)
    requires AllFit(es, 4) && es != [] && NoRepeats(es[0]) && |DumpAll(es, 4)| >= 2
    ensures var r := ParseAll(pos, DumpAll(es, 4)[2..], 4); r.None? || r.value.0 != es
  {
    DumpLong(es[0], 4);
    var data := DumpAll(es, 4)[2..];
    if ParseElement(pos, data, 4).Some? {
      TagRead(data, pos, 4);
      var t := es[0].tag;
      assert data[0] == DumpAll(es, 4)[2] == t[2] && data[1] == DumpAll(es, 4)[3] == t[3];
      assert data[..4][0] == data[0] && data[..4][1] == data[1];
    }
  }

  /** An odd string with something behind it, or one that leaves three modulo four. */
  lemma OddFails(e: Elem, tl: seq<Elem>, pos: int)
    requires e.Text? && Fits(e, 4) && AllFit(tl, 4) && NoneRepeats(tl) && Mod(pos, 4) == 0 && |e.text| % 2 == 1
    requires |e.text| % 4 == 1 ==> tl != []
    ensures var r := ParseAll(pos, Dump(e, 4) + DumpAll(tl, 4), 4); r.None? || r.value.0 != [e] + tl
  {
    var after := DumpAll(tl, 4);
    if tl != [] { DumpLong(tl[0], 4); }
    DumpEmpty(tl, 4);
    var at := OddRest(e, after, pos);
    assert ([e] + tl)[1..] == tl;
    if |e.text| % 4 == 1 { TwoMissing(tl, at); } else { ZerosInFront(tl, at); }
  }

  /** What is left behind an odd string. */
  lemma OddRest(e: Elem, after: Str, pos: int) returns (at: int)
    requires e.Text? && Fits(e, 4) && Mod(pos, 4) == 0 && |e.text| % 2 == 1 && (|e.text| % 4 == 1 ==> |after| >= 2)
    ensures ParseElement(pos, Dump(e, 4) + after, 4)
      == Some(Parsed(e, at, if |e.text| % 4 == 1 then after[2..] else [0, 0] + after))
  {
    hide ParseElement, ParseText, Dump, Zeros, Padding, Drop;
    var end := pos + 4 + 4 + |e.text|;
    OddPadding(pos, |e.text|);
    at := end + Padding(end, 4);
    OddDrop(Zeros(Mod(|e.text|, 4)), after, |e.text|, Padding(end, 4));
    TextThen(e, pos, after, 4);
  }

  lemma OddDrop(z: Str, after: Str, n: nat, pad: int)
    requires z == (if n % 4 == 1 then [0] else [0, 0, 0]) && pad == (if n % 4 == 1 then 3 else 1)
    requires n % 4 == 1 ==> |after| >= 2
    ensures Drop(z + after, pad) == if n % 4 == 1 then after[2..] else [0, 0] + after
  {
    if n % 4 == 1 { DropOver([0], after); } else { DropOne(after); }
  }

  lemma DropOne(after: Str)
    ensures Drop([0, 0, 0] + after, 1) == [0, 0] + after
  {
  }

  /** The parser skips three bytes where one was written, and one where three were. */
  lemma OddPadding(pos: int, n: nat)
    requires Mod(pos, 4) == 0 && n % 2 == 1
    ensures Padding(pos + 4 + 4 + n, 4) == if n % 4 == 1 then 3 else 1
    ensures Zeros(n % 4) == if n % 4 == 1 then [0] else [0, 0, 0]
  {
    ModOn(pos, n, 4);
    ZerosAre(n % 4);
  }

  lemma DropOver(z: Str, after: Str)
    requires |z| == 1 && |after| >= 2
    ensures Drop(z + after, 3) == after[2..]
  {
  }

  /** A list that was read back starts with what the first element was read as. */
  lemma HeadRead(es: seq<Elem>, pos: int)
    requires es != [] && AllFit(es, 4)
    requires var r := ParseAll(pos, DumpAll(es, 4), 4); r.Some? && r.value.0 == es
    ensures var e := ParseElement(pos, Dump(es[0], 4) + DumpAll(es[1..], 4), 4);
      e.Some? && e.value.v == es[0] && ParseAll(e.value.pos, e.value.rest, 4).Some?
      && ParseAll(e.value.pos, e.value.rest, 4).value.0 == es[1..]
  {
    DumpEmpty(es, 4);
    hide Dump, ParseElement;
  }

  /** A list that was read back was read back inside. */
  lemma InsideRead(e: Elem, pos: int, after: Str)
    requires e.List? && Fits(e, 4) && Mod(pos, 4) == 0
    requires var r := ParseElement(pos, Dump(e, 4) + after, 4); r.Some? && r.value.v == e
    ensures var r := ParseAll(pos + 8, DumpAll(e.elems, 4), 4); r.Some? && r.value.0 == e.elems
  {
    hide ParseElement, ParseAll, DumpAll;
    ListDump(e.tag, e.elems, after, 4);
    ListIs(pos, e.tag, DumpAll(e.elems, 4), after, 4);
  }

  /** With 32-bit words a tree that comes back from its dump is safe. */
  lemma {:induction false} OnlySafe(es: seq<Elem>, pos: int)
    requires AllFit(es, 4) && NoneRepeats(es) && Mod(pos, 4) == 0
    requires var r := ParseAll(pos, DumpAll(es, 4), 4); r.Some? && r.value.0 == es
    ensures Safe(es)
    decreases es
  {
    if es == [] {
    } else {
      HeadRead(es, pos);
      hide ParseElement, ParseAll, Dump, DumpAll;
      var e, tl := es[0], es[1..];
      assert es == [e] + tl;
      if e.Text? && !SafeElem(e, tl == []) { OddHead(e, tl, pos); }
      if e.List? {
        InsideRead(e, pos, DumpAll(tl, 4));
        ModOn(pos, 0, 4);
        OnlySafe(e.elems, pos + 8);
      }
      DumpEmpty(tl, 4);
      ElementBack(e, pos, DumpAll(tl, 4), 4);
      OnlySafe(tl, ParseElement(pos, Dump(e, 4) + DumpAll(tl, 4), 4).value.pos);
      SafeCons(es);
    }
  }

  lemma OddHead(e: Elem, tl: seq<Elem>, pos: int)
    requires e.Text? && AllFit([e] + tl, 4) && NoneRepeats([e] + tl) && Mod(pos, 4) == 0 && !SafeElem(e, tl == [])
    ensures var r := ParseAll(pos, DumpAll([e] + tl, 4), 4); r.None? || r.value.0 != [e] + tl
  {
    var es := [e] + tl;
    assert es[1..] == tl && es[0] == e;
    forall k | 0 <= k < |tl| ensures Fits(tl[k], 4) && NoRepeats(tl[k]) { assert tl[k] == es[k + 1]; }
    hide ParseAll, Dump;
    OddFails(e, tl, pos);
  }

  lemma SafeCons(es: seq<Elem>)
    requires es != [] && SafeElem(es[0], |es| == 1) && Safe(es[1..])
    ensures Safe(es)
  {
    forall k | 0 <= k < |es| ensures SafeElem(es[k], k == |es| - 1) {
      if k > 0 { assert SafeElem(es[1..][k - 1], k - 1 == |es[1..]| - 1); }
    }
  }

  // ---- whole documents ----

  lemma DocIs(es: seq<Elem>, ws: nat)
    requires Words(ws) && |DumpAll(es, ws)| < Pow256(ws)
    ensures var r := ParseAll(4 + ws, DumpAll(es, ws), ws);
      ParseDoc(DumpDoc(es, ws)) == if r.None? then None else Some((ws, r.value.0))
  {
    var b, h := DumpAll(es, ws), if ws == 2 then SMALL else LARGE;
    WordBack(|b|, ws);
    SliceBack(h + IntToBytes(|b|, ws), b);
    assert DumpDoc(es, ws)[..4] == h;
    assert SMALL[0] != LARGE[0];
  }

  /** With 16-bit words every tree whose values and lengths fit comes back. */
  lemma SmallDocs(es: seq<Elem>)
    requires AllFit(es, 2) && |DumpAll(es, 2)| < Pow256(2)
    ensures ParseDoc(DumpDoc(es, 2)) == Some((2, es))
  {
    DocIs(es, 2);
    AllBack(es, 6, 2);
  }

  /** With 32-bit words every safe tree comes back; in particular, when all strings have even length. */
  lemma LargeDocs(es: seq<Elem>)
    requires AllFit(es, 4) && |DumpAll(es, 4)| < Pow256(4) && Safe(es)
    ensures ParseDoc(DumpDoc(es, 4)) == Some((4, es))
  {
    DocIs(es, 4);
    AllBack(es, 8, 4);
  }

  /** And, but for tags of the same two characters twice, only those. */
  lemma LargeDocsExactly(es: seq<Elem>)
    requires AllFit(es, 4) && NoneRepeats(es) && |DumpAll(es, 4)| < Pow256(4)
    ensures ParseDoc(DumpDoc(es, 4)) == Some((4, es)) <==> Safe(es)
  {
    if Safe(es) { LargeDocs(es); }
    else {
      DocIs(es, 4);
      if ParseDoc(DumpDoc(es, 4)) == Some((4, es)) { OnlySafe(es, 8); }
    }
  }

  // ---- a tree that survives the wrong padding ----

  const LONG: nat := 0x42_0102

  /** A string of one byte in front of a long string of zeros whose tag repeats itself. */
  ghost function Survivor(): seq<Elem> {
    [Text([0x78, 0x78, 0x78, BYTES], [7]), Text([0, BYTES, 0, BYTES], Zeros(LONG))]
  }

  lemma LongLength()
    ensures IntToBytes(LONG, 4) == [0, 0x42, 1, 2] && |Zeros(LONG)| == LONG && Zeros(Mod(LONG, 4)) == [0, 0]
  {
    assert Digits(0x42) == Digits(0) + [0x42] == [0x42];
    assert Digits(0x4201) == Digits(0x42) + [1];
    assert Digits(LONG) == Digits(0x4201) + [2];
    assert Zeros(4 - 3) == [0];
    ZerosAre(LONG);
    ZerosAre(2);
  }

  /** What is left of the second element when its first two bytes are missing. */
  lemma SurvivorRest()
    ensures |DumpAll([Survivor()[1]], 4)| == LONG + 10 && |Zeros(LONG)| == LONG
    ensures DumpAll([Survivor()[1]], 4)[2..] == [0, BYTES, 0, 0x42] + ([1, 2, 0, 0] + (Zeros(LONG)[2..] + [0, 0]))
  {
    LongLength();
    LongFront();
    hide Zeros, IntToBytes;
    var f, z := Survivor()[1], Zeros(LONG);
    assert DumpAll([f], 4) == Dump(f, 4) + DumpAll([f][1..], 4) == Dump(f, 4);
    assert Dump(f, 4) == [0, BYTES, 0, BYTES] + [0, 0x42, 1, 2] + z + [0, 0];
    FrontCut(z);
  }

  lemma LongFront()
    ensures |Zeros(LONG)| > 2 && Zeros(LONG)[0] == Zeros(LONG)[1] == 0
  {
    ZerosAre(LONG);
  }

  lemma FrontCut(z: Str)
    requires |z| > 2 && z[0] == z[1] == 0
    ensures ([0, BYTES, 0, BYTES] + [0, 0x42, 1, 2] + z + [0, 0])[2..]
      == [0, BYTES, 0, 0x42] + ([1, 2, 0, 0] + (z[2..] + [0, 0]))
  {
    assert z == [0, 0] + z[2..];
  }

  /** It is read as the element it is: its length is taken for a much larger one, and all that is left is
      the string. */
  lemma SurvivorRead(pos: int)
    ensures var d := DumpAll([Survivor()[1]], 4);
      |d| > 2 && var r := ParseElement(pos, d[2..], 4);
      r.Some? && r.value.v == Survivor()[1] && r.value.rest == []
  {
    SurvivorRest();
    LongLength();
    ZerosAre(LONG);
    var t, m, y := [0, BYTES, 0, 0x42], [1, 2, 0, 0], Zeros(LONG)[2..] + [0, 0];
    var data := t + (m + y);
    assert BytesToInt(m) == 0x102_0000 by { BigNumber(); }
    hide BytesToInt, Zeros, DumpAll;
    SliceBack(t, m + y);
    SliceBack(m, y);
    assert y == Zeros(LONG);
    ChoosesText(pos, data, 4);
  }

  lemma BigNumber()
    ensures BytesToInt([1, 2, 0, 0]) == 0x102_0000
  {
    var a: Str, b: Str, c: Str, d: Str := [1], [1, 2], [1, 2, 0], [1, 2, 0, 0];
    assert a[..0] == [] && b[..1] == a && c[..2] == b && d[..3] == c;
    assert BytesToInt(a) == 1;
    assert BytesToInt(b) == 0x102;
    assert BytesToInt(c) == 0x1_0200;
  }

  lemma TwoRead(pos: int, data: Str, e: Elem, f: Elem, p: int, rest: Str)
    requires data != [] && rest != [] && ParseElement(pos, data, 4) == Some(Parsed(e, p, rest))
    requires var r := ParseElement(p, rest, 4); r.Some? && r.value.v == f && r.value.rest == []
    ensures var r := ParseAll(pos, data, 4); r.Some? && r.value.0 == [e, f]
  {
    hide ParseElement;
    var r := ParseElement(p, rest, 4).value;
    assert ParseAll(r.pos, [], 4) == Some(([], r.pos));
    assert ParseAll(p, rest, 4) == Some(([f] + [], r.pos));
    assert [f] + [] == [f] && [e] + [f] == [e, f];
  }

  lemma SurvivorParsed()
    ensures var es := Survivor(); var r := ParseAll(8, DumpAll(es, 4), 4); r.Some? && r.value.0 == es
  {
    var es := Survivor();
    var d := DumpAll([es[1]], 4);
    SurvivorRest();
    assert es[1..] == [es[1]] && Fits(es[0], 4) && Pow256(4) == 0x1_0000_0000;
    hide ParseElement, ParseAll, Dump;
    var at := OddRest(es[0], d, 8);
    SurvivorRead(at);
    DumpLong(es[0], 4);
    TwoRead(8, Dump(es[0], 4) + d, es[0], es[1], at, d[2..]);
  }

  /** Not safe, and still it comes back: without the condition on tags the only-if half is false. */
  lemma UnsafeSurvives()
    ensures var es := Survivor();
      AllFit(es, 4) && |DumpAll(es, 4)| < Pow256(4) && !Safe(es) && !NoneRepeats(es)
      && ParseDoc(DumpDoc(es, 4)) == Some((4, es))
  {
    var es := Survivor();
    assert !SafeElem(es[0], false) && !NoRepeats(es[1]);
    hide ParseAll, DumpAll, DumpDoc, ParseDoc, Zeros;
    SurvivorFits();
    DocIs(es, 4);
    SurvivorParsed();
  }

  lemma SurvivorFits()
    ensures var es := Survivor(); AllFit(es, 4) && |DumpAll(es, 4)| < Pow256(4) && DumpAll(es, 4) != []
  {
    var es := Survivor();
    assert Pow256(4) == 0x1_0000_0000;
    LongLength();
    SurvivorRest();
    assert es[1..] == [es[1]];
    WordBack(1, 4);
    ZerosAre(1);
    assert |Dump(es[0], 4)| == 10;
  }

  /** The header of a document: the name of the word size, and a word with the number of bytes that follow. */
  lemma DocHeader(es: seq<Elem>, ws: nat)
    requires Words(ws) && |DumpAll(es, ws)| < Pow256(ws)
    ensures var d := DumpDoc(es, ws);
      && d[..4] == (if ws == 2 then SMALL else LARGE) && |d| == 4 + ws + |DumpAll(es, ws)|
      && BytesToInt(d[4..4 + ws]) == |d| - 4 - ws
  {
    var n := |DumpAll(es, ws)|;
    WordBack(n, ws);
    assert DumpDoc(es, ws)[4..4 + ws] == IntToBytes(n, ws);
  }
}
