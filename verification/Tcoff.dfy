/** The TCOFF encoding of numbers and strings, and the records that the librarian looks at. */
module Tcoff {
  import opened Common

  type Text = seq<Byte>

  // ---- numbers ----

  /** n in k bytes, the least significant first. */
  function LittleEndian(n: int, k: nat): (s: seq<Byte>)
    ensures |s| == k
    decreases k
  {
    if k == 0 then [] else [n % 256] + LittleEndian(n / 256, k - 1)
  }

  function FromLittle(s: seq<Byte>): int {
    if s == [] then 0 else s[0] + 256 * FromLittle(s[1..])
  }

  /** How many bytes n needs. */
  function Needed(n: nat): (k: nat)
    ensures k >= 1
  {
    if n < 256 then 1 else 1 + Needed(n / 256)
  }

  /** bytes_to_tag: how many bytes are used, and the byte that says so. */
  function Width(k: nat): nat {
    if k <= 1 then 1 else if k == 2 then 2 else if k <= 4 then 4 else 8
  }

  function WidthTag(w: nat): Byte {
    if w == 1 then 251 else if w == 2 then 252 else if w == 4 then 253 else 254
  }

  function PutNat(n: nat): seq<Byte> {
    if n <= 250 then [n]
    else
      var w := Width(Needed(n));
      [WidthTag(w)] + LittleEndian(n, w)
  }

  /** tcoff_putl. */
  function PutL(n: int): seq<Byte> {
    if n < 0 then [255] + PutNat(-n - 1) else PutNat(n)
  }

  /** tcoff_putul. */
  function PutUl(n: int): (s: seq<Byte>)
    ensures |s| == 4
  {
    LittleEndian(n, 4)
  }

  function SizeNat(n: nat): nat {
    if n <= 250 then 1 else 1 + Width(Needed(n))
  }

  /** tcoff_sizel. */
  function SizeL(n: int): nat {
    if n < 0 then 1 + SizeNat(-n - 1) else SizeNat(n)
  }

  /** tcoff_getl_test: the number at the front and what follows it; None at the end of the file. */
  function GetNat(s: seq<Byte>): Option<(int, seq<Byte>)> {
    if s == [] then None
    else if s[0] <= 250 then Some((s[0], s[1..]))
    else if s[0] == 255 then None
    else
      var w := if s[0] == 251 then 1 else if s[0] == 252 then 2 else if s[0] == 253 then 4 else 8;
      if |s| < 1 + w then None else Some((FromLittle(s[1..1 + w]), s[1 + w..]))
  }

  function GetL(s: seq<Byte>): Option<(int, seq<Byte>)> {
    if s != [] && s[0] == 255 then
      var r := GetNat(s[1..]);
      if r.None? then None else Some((-r.value.0 - 1, r.value.1))
    else GetNat(s)
  }

  lemma {:induction false} NeededEnough(n: nat, k: nat)
    requires n < Pow256(k) && k >= 1
    ensures Needed(n) <= k && n < Pow256(Needed(n))
    decreases n
  {
    assert Pow256(1) == 256;
    if n < 256 {
    } else {
      assert k > 1;
      assert n / 256 < Pow256(k - 1);
      NeededEnough(n / 256, k - 1);
    }
  }

  lemma {:induction false} PowGrows(j: nat, k: nat)
    requires j <= k
    ensures Pow256(j) <= Pow256(k)
  {
    if j >= k {
    } else {
      PowGrows(j, k - 1);
    }
  }

  /** Of any number the low bytes come back. */
  lemma {:induction false} LittleLow(n: int, k: nat)
    ensures FromLittle(LittleEndian(n, k)) == n % Pow256(k)
    decreases k
  {
    if k == 0 {
      assert Pow256(0) == 1;
    } else {
      var p := Pow256(k - 1);
      assert LittleEndian(n, k)[1..] == LittleEndian(n / 256, k - 1);
      LittleLow(n / 256, k - 1);
      LowDigit(n, p);
    }
  }

  lemma LowDigit(n: int, p: nat)
    requires p >= 1
    ensures n % (256 * p) == n % 256 + 256 * ((n / 256) % p)
  {
    var q, r := n / 256 / p, n % 256 + 256 * ((n / 256) % p);
    assert n / 256 == p * q + (n / 256) % p;
    assert n == 256 * (p * q) + r && 256 * (p * q) == (256 * p) * q;
    ModIs(n, 256 * p, q, r);
  }

  lemma {:induction false} LittleBack(n: nat, k: nat)
    requires n < Pow256(k)
    ensures FromLittle(LittleEndian(n, k)) == n
    decreases k
  {
    if k == 0 {
    } else {
      assert LittleEndian(n, k)[1..] == LittleEndian(n / 256, k - 1);
      LittleBack(n / 256, k - 1);
    }
  }

  /** Every number a long can hold takes exactly SizeL bytes and is read back. */
  lemma NumberRoundTrip(n: int, rest: seq<Byte>)
    requires -Pow256(8) <= n < Pow256(8)
    ensures |PutL(n)| == SizeL(n) && GetL(PutL(n) + rest) == Some((n, rest))
  {
    var m := if n < 0 then -n - 1 else n;
    NatRoundTrip(m, rest);
    if n < 0 { assert (PutL(n) + rest)[1..] == PutNat(m) + rest; }
  }

  lemma NatRoundTrip(n: nat, rest: seq<Byte>)
    requires n < Pow256(8)
    ensures |PutNat(n)| == SizeNat(n) && GetNat(PutNat(n) + rest) == Some((n, rest)) && PutNat(n)[0] != 255
  {
    if n <= 250 { assert ([n] + rest)[1..] == rest; }
    else {
      NeededEnough(n, 8);
      var w := Width(Needed(n));
      PowGrows(Needed(n), w);
      LittleBack(n, w);
      var s := PutNat(n) + rest;
      assert s[1..1 + w] == LittleEndian(n, w) && s[1 + w..] == rest;
    }
  }

  lemma SizeIs(n: int)
    ensures |PutL(n)| == SizeL(n) && SizeL(n) > 0
  {
  }

  function PutS(s: Text): seq<Byte> {
    PutL(|s|) + s
  }

  // ---- records ----

  const LINKABLE: int := 1
  const START_MODULE: int := 2
  const END_MODULE: int := 3
  const SECTION: int := 11
  const DEFINE_LABEL: int := 14
  const DEFINE_SYMBOL: int := 15
  const LIB_INDEX_START: int := 22
  const LIB_INDEX_END: int := 23
  const INDEX_ENTRY: int := 24
  const DESCRIPTOR: int := 26
  const LINKED_UNIT: int := 28
  const SYMBOL: int := 30
  const SPECIFIC_SYMBOL: int := 31

  /** What an index entry says. */
  datatype Key = Key(pos: int, func: int, mode: int, lang: int, desc: Text, name: Text)

  /** A record, as far as the librarian reads it.  Other covers everything that is skipped. */
  datatype Rec =
    | Format(linked: bool, body: Text)
    | StartModule(func: int, mode: int, lang: int, title: Text)
    | EndModule
    | Section(kind: int, scope: int, name: Text)
    | Symbol(scope: int, name: Text, origin: Option<int>)
    | Descriptor(id: int, lang: int, text: Text)
    | DefineLabel(id: int)
    | DefineSymbol(id: int, value: Text)
    | IndexStart
    | IndexEntry(key: Key)
    | IndexEnd
    | Other(tag: int, body: Text)

  function FormatTag(linked: bool): int {
    if linked then LINKED_UNIT else LINKABLE
  }

  function Tag(r: Rec): int {
    match r
    case Format(l, _) => FormatTag(l)
    case StartModule(_, _, _, _) => START_MODULE
    case EndModule => END_MODULE
    case Section(_, _, _) => SECTION
    case Symbol(_, _, o) => if o.Some? then SPECIFIC_SYMBOL else SYMBOL
    case Descriptor(_, _, _) => DESCRIPTOR
    case DefineLabel(_) => DEFINE_LABEL
    case DefineSymbol(_, _) => DEFINE_SYMBOL
    case IndexStart => LIB_INDEX_START
    case IndexEntry(_) => INDEX_ENTRY
    case IndexEnd => LIB_INDEX_END
    case Other(t, _) => t
  }

  function KeyBody(k: Key): Text {
    PutUl(k.pos) + PutL(k.func) + PutL(k.mode) + PutL(k.lang) + PutS(k.desc) + PutS(k.name)
  }

  function Body(r: Rec): Text {
    match r
    case Format(_, b) => b
    case StartModule(f, m, l, t) => PutL(f) + PutL(m) + PutL(l) + PutS(t)
    case EndModule => []
    case Section(k, s, n) => PutL(k) + PutL(s) + PutS(n)
    case Symbol(s, n, o) => PutL(s) + PutS(n) + if o.Some? then PutL(o.value) else []
    case Descriptor(i, l, t) => PutL(i) + PutL(l) + PutS(t)
    case DefineLabel(i) => PutL(i)
    case DefineSymbol(i, v) => PutL(i) + v
    case IndexStart => []
    case IndexEntry(k) => KeyBody(k)
    case IndexEnd => []
    case Other(_, b) => b
  }

  /** The bytes of a record: its tag, the length of its body, its body. */
  function Bytes(r: Rec): seq<Byte> {
    PutL(Tag(r)) + PutL(|Body(r)|) + Body(r)
  }

  function AllBytes(l: seq<Rec>): seq<Byte> {
    if l == [] then [] else Bytes(l[0]) + AllBytes(l[1..])
  }

  lemma {:induction false} BytesSplit(a: seq<Rec>, b: seq<Rec>)
    ensures AllBytes(a + b) == AllBytes(a) + AllBytes(b)
    decreases |a|
  {
    if a == [] { assert a + b == b; }
    else {
      assert (a + b)[1..] == a[1..] + b;
      BytesSplit(a[1..], b);
    }
  }

  // ---- reading records back ----

  /** A record as it is in a file: its tag and its body. */
  datatype Raw = Raw(tag: int, body: Text)

  /** The record at the front, by its tag and its length. */
  function ReadRaw(s: seq<Byte>): Option<(Raw, seq<Byte>)> {
    var t := GetL(s);
    if t.None? then None
    else
      var n := GetL(t.value.1);
      if n.None? || n.value.0 < 0 || n.value.0 > |n.value.1| then None
      else Some((Raw(t.value.0, n.value.1[..n.value.0]), n.value.1[n.value.0..]))
  }

  /** Records up to the end of the file. */
  function ReadAll(s: seq<Byte>): Option<seq<Raw>>
    decreases |s|
  {
    if s == [] then Some([])
    else
      var r := ReadRaw(s);
      if r.None? || |r.value.1| >= |s| then None
      else
        var rest := ReadAll(r.value.1);
        if rest.None? then None else Some([r.value.0] + rest.value)
  }

  function Raws(l: seq<Rec>): seq<Raw> {
    if l == [] then [] else [Raw(Tag(l[0]), Body(l[0]))] + Raws(l[1..])
  }

  /** Tag and length can be held in a long. */
  predicate Fits(r: Rec) {
    -Pow256(8) <= Tag(r) < Pow256(8) && |Body(r)| < Pow256(8)
  }

  lemma ReadsRecord(tag: int, body: Text, rest: seq<Byte>)
    requires -Pow256(8) <= tag < Pow256(8) && |body| < Pow256(8)
    ensures ReadRaw(PutL(tag) + PutL(|body|) + body + rest) == Some((Raw(tag, body), rest))
  {
    hide PutL, GetL, SizeL;
    Regroup(PutL(tag), PutL(|body|), body, rest);
    NumberRoundTrip(tag, PutL(|body|) + (body + rest));
    NumberRoundTrip(|body|, body + rest);
    JoinParts(body, rest);
  }

  /** Every list of records is read back from its bytes. */
  lemma {:induction false} ReadsAll(l: seq<Rec>)
    requires forall k :: 0 <= k < |l| ==> Fits(l[k])
    ensures ReadAll(AllBytes(l)) == Some(Raws(l))
    decreases |l|
  {
    if l == [] {
    } else {
      var t, b, rest := Tag(l[0]), Body(l[0]), AllBytes(l[1..]);
      assert Fits(l[0]);
      ReadsRecord(t, b, rest);
      SizeIs(t);
      assert AllBytes(l) == PutL(t) + PutL(|b|) + b + rest;
      ReadsAll(l[1..]);
    }
  }

  // ---- index entries ----

  /** A string at the front: its length, and as many bytes. */
  function GetS(s: seq<Byte>): Option<(Text, seq<Byte>)> {
    var n := GetL(s);
    if n.None? || n.value.0 < 0 || n.value.0 > |n.value.1| then None
    else Some((n.value.1[..n.value.0], n.value.1[n.value.0..]))
  }

  /** The fields of an index entry in their order: the position in four bytes, three numbers, two strings. */
  function GetKey(s: seq<Byte>): Option<Key> {
    if |s| < 4 then None
    else
      var f := GetL(s[4..]);
      if f.None? then None
      else
        var m := GetL(f.value.1);
        if m.None? then None
        else
          var l := GetL(m.value.1);
          if l.None? then None else GetTexts(FromLittle(s[..4]), f.value.0, m.value.0, l.value.0, l.value.1)
  }

  function GetTexts(pos: int, func: int, mode: int, lang: int, s: seq<Byte>): Option<Key> {
    var d := GetS(s);
    if d.None? then None
    else
      var n := GetS(d.value.1);
      if n.None? || n.value.1 != [] then None else Some(Key(pos, func, mode, lang, d.value.0, n.value.0))
  }

  /** Numbers that a long can hold. */
  predicate Long(n: int) { -Pow256(8) <= n < Pow256(8) }

  lemma TextBack(t: Text, rest: seq<Byte>)
    requires Long(|t|)
    ensures GetS(PutS(t) + rest) == Some((t, rest))
  {
    hide PutL, GetL;
    Assoc(PutL(|t|), t, rest);
    NumberRoundTrip(|t|, t + rest);
    JoinParts(t, rest);
  }

  /** An index entry is read back from its bytes, the position modulo 2^32. */
  lemma KeyRoundTrip(k: Key)
    requires Long(k.func) && Long(k.mode) && Long(k.lang) && Long(|k.desc|) && Long(|k.name|)
    ensures GetKey(KeyBody(k)) == Some(k.(pos := k.pos % 0x1_0000_0000))
  {
    hide PutL, GetL, PutS, GetS, FromLittle, Long, Pow256;
    var l5 := PutS(k.name);
    var l4 := PutS(k.desc) + l5;
    var l3 := PutL(k.lang) + l4;
    var l2 := PutL(k.mode) + l3;
    var l1 := PutL(k.func) + l2;
    KeySplits(PutUl(k.pos), PutL(k.func), PutL(k.mode), PutL(k.lang), PutS(k.desc), l5);
    JoinParts(PutUl(k.pos), l1);
    FourBack(k.pos);
    LongRoundTrip(k.func, l2);
    LongRoundTrip(k.mode, l3);
    LongRoundTrip(k.lang, l4);
    TextBack(k.desc, l5);
    TextBack(k.name, []);
    assert l5 + [] == l5;
  }

  lemma LongRoundTrip(n: int, rest: seq<Byte>)
    requires Long(n)
    ensures GetL(PutL(n) + rest) == Some((n, rest))
  {
    NumberRoundTrip(n, rest);
  }

  lemma KeySplits(p: Text, f: Text, m: Text, l: Text, d: Text, n: Text)
    ensures p + f + m + l + d + n == p + (f + (m + (l + (d + n))))
  {
  }

  lemma FourBack(n: int)
    ensures FromLittle(PutUl(n)) == n % 0x1_0000_0000
  {
    LittleLow(n, 4);
    assert Pow256(4) == 0x1_0000_0000 by { assert Pow256(2) == 0x1_0000; }
  }

  // ---- the encoding of numbers, from outside ----

  /** The sum of the bytes, the k-th weighing 256 to the power of k. */
  function Weighed(s: seq<Byte>): int {
    if s == [] then 0 else Weighed(s[..|s| - 1]) + s[|s| - 1] * Pow256(|s| - 1)
  }

  /** How a number is written: up to 250 as a byte; else in the fewest of one, two, four or eight bytes,
      behind a byte that says how many; a negative one as 255 and then how far below minus one it is. */
  ghost predicate Written(s: seq<Byte>, n: int)
    decreases if n < 0 then 1 else 0
  {
    if n < 0 then |s| > 1 && s[0] == 255 && Written(s[1..], -n - 1)
    else if n <= 250 then s == [n]
    else
      s != [] && Weighed(s[1..]) == n
      && match |s| - 1
         case 1 => s[0] == 251
         case 2 => s[0] == 252 && n >= 0x100
         case 4 => s[0] == 253 && n >= 0x1_0000
         case 8 => s[0] == 254 && n >= 0x1_0000_0000
         case _ => false
  }

  lemma {:induction false} LittleWeighs(n: nat, k: nat)
    requires n < Pow256(k)
    ensures Weighed(LittleEndian(n, k)) == n
    decreases k
  {
    if k == 0 {
    } else {
      var rest := LittleEndian(n / 256, k - 1);
      LittleWeighs(n / 256, k - 1);
      WeighedFront(n % 256, rest);
    }
  }

  lemma {:induction false} WeighedFront(b: Byte, s: seq<Byte>)
    ensures Weighed([b] + s) == b + 256 * Weighed(s)
    decreases |s|
  {
    var t := [b] + s;
    if s == [] {
      assert t[..0] == [] && Pow256(0) == 1;
    } else {
      var k, x := |s| - 1, s[|s| - 1];
      assert t[..|t| - 1] == [b] + s[..k];
      WeighedFront(b, s[..k]);
      Regrouped(x, Pow256(k));
    }
  }

  lemma Regrouped(x: int, p: int)
    ensures x * (256 * p) == 256 * (x * p)
  {
  }

  /** What tcoff_putl writes is the encoding of its number. */
  lemma NumberIsWritten(n: int)
    requires Long(n)
    ensures Written(PutL(n), n)
    decreases if n < 0 then 1 else 0
  {
    if n < 0 {
      NumberIsWritten(-n - 1);
      assert PutL(n)[1..] == PutNat(-n - 1) == PutL(-n - 1);
    } else if n > 250 {
      var w := Width(Needed(n));
      NeededEnough(n, 8);
      PowGrows(Needed(n), w);
      LittleWeighs(n, w);
      assert PutL(n)[1..] == LittleEndian(n, w);
      NeededAtLeast(n, 1);
      NeededAtLeast(n, 2);
      NeededAtLeast(n, 4);
      assert Pow256(1) == 0x100 && Pow256(2) == 0x1_0000;
      assert Pow256(4) == 0x1_0000 * Pow256(2);
    }
  }

  lemma {:induction false} NeededAtLeast(n: nat, k: nat)
    requires k >= 1
    ensures Needed(n) > k ==> n >= Pow256(k)
    decreases k
  {
    assert Pow256(1) == 256;
    if k == 1 || n < 256 {
    } else {
      NeededAtLeast(n / 256, k - 1);
    }
  }
}
