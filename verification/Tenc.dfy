/** TEnc trees: how they are written, how they are parsed, and exactly which trees survive both. */
module Tenc {
  import opened Common

  type Str = seq<Byte>

  // The last character of a tag says what kind of element it is.
  const BYTES: int := 0x42              // 'B'
  const SIGNED: int := 0x49             // 'I'
  const LIST: int := 0x4C               // 'L'
  const STRING: int := 0x53             // 'S'
  const UNSIGNED: int := 0x55           // 'U'

  /** An element; the position that the parser also stores is left out. */
  datatype Elem = List(tag: Str, elems: seq<Elem>) | Unsigned(tag: Str, value: nat)
      | Signed(tag: Str, value: nat) | Text(tag: Str, text: Str)

  // ---- numbers ----

  function Digits(n: nat): Str {
    if n == 0 then [] else Digits(n / 256) + [n % 256]
  }

  function Zeros(n: int): Str
    decreases n
  {
    if n <= 0 then [] else [0] + Zeros(n - 1)
  }

  /** int_to_bytes: as many digits as needed, filled up with zeros on the left. */
  function IntToBytes(n: nat, ws: nat): Str {
    Zeros(ws - |Digits(n)|) + Digits(n)
  }

  /** bytes_to_int. */
  function BytesToInt(s: Str): nat {
    if s == [] then 0 else 256 * BytesToInt(s[..|s| - 1]) + s[|s| - 1]
  }

  lemma {:induction false} DigitsFit(n: nat, k: nat)
    requires n < Pow256(k)
    ensures |Digits(n)| <= k
    decreases k
  {
    if k == 0 || n == 0 {
    } else {
      DigitsFit(n / 256, k - 1);
    }
  }

  lemma {:induction false} ZerosAre(n: nat)
    ensures |Zeros(n)| == n && forall i :: 0 <= i < n ==> Zeros(n)[i] == 0
  {
    if n == 0 {
    } else {
      ZerosAre(n - 1);
    }
  }

  lemma {:induction false} LeadingZeros(k: nat, s: Str)
    ensures BytesToInt(Zeros(k) + s) == BytesToInt(s)
    decreases |s|
  {
    ZerosAre(k);
    if s == [] {
      assert Zeros(k) + s == Zeros(k);
      AllZero(Zeros(k));
    } else {
      assert (Zeros(k) + s)[..|Zeros(k) + s| - 1] == Zeros(k) + s[..|s| - 1];
      LeadingZeros(k, s[..|s| - 1]);
    }
  }

  lemma {:induction false} AllZero(s: Str)
    requires forall i :: 0 <= i < |s| ==> s[i] == 0
    ensures BytesToInt(s) == 0
    decreases |s|
  {
    if s == [] {
    } else {
      AllZero(s[..|s| - 1]);
    }
  }

  lemma {:induction false} DigitsBack(n: nat)
    ensures BytesToInt(Digits(n)) == n
  {
    if n == 0 {
    } else {
      assert Digits(n)[..|Digits(n)| - 1] == Digits(n / 256);
      DigitsBack(n / 256);
    }
  }

  /** A number that fits a word takes exactly a word and is read back. */
  lemma WordBack(n: nat, ws: nat)
    requires n < Pow256(ws)
    ensures |IntToBytes(n, ws)| == ws && BytesToInt(IntToBytes(n, ws)) == n
  {
    DigitsFit(n, ws);
    ZerosAre(ws - |Digits(n)|);
    LeadingZeros(ws - |Digits(n)|, Digits(n));
    DigitsBack(n);
  }

  lemma {:induction false} DigitAt(n: nat, i: nat)
    ensures if i < |Digits(n)| then Digits(n)[|Digits(n)| - 1 - i] == n / Pow256(i) % 256 else n / Pow256(i) == 0
    decreases i
  {
    if n == 0 || i == 0 {
      if n == 0 { assert 0 / Pow256(i) == 0; }
    } else {
      DigitAt(n / 256, i - 1);
      DivTwice(n, Pow256(i - 1));
    }
  }

  lemma DivTwice(n: nat, p: int)
    requires p >= 1
    ensures n / 256 / p == n / (256 * p)
  {
    var q, r, d := n / 256 / p, n / 256 % p, n % 256;
    assert n == 256 * (p * q + r) + d;
    assert 256 * (p * q) == (256 * p) * q;
    DivIs(n, 256 * p, q, 256 * r + d);
  }

  /** The bytes of a word: the most significant first. */
  lemma WordIs(n: nat, ws: nat, i: nat)
    requires n < Pow256(ws) && i < ws
    ensures |IntToBytes(n, ws)| == ws && IntToBytes(n, ws)[ws - 1 - i] == n / Pow256(i) % 256
  {
    DigitsFit(n, ws);
    ZerosAre(ws - |Digits(n)|);
    DigitAt(n, i);
  }

  /** The remainder by the word size, which is 2 or 4 in every document. */
  function Mod(n: int, ws: nat): int {
    if ws == 2 then n % 2 else n % 4
  }

  // ---- writing ----

  /** The bytes methods; a string is followed by as many zeros as its length leaves modulo the word. */
  function Dump(e: Elem, ws: nat): Str
    requires ws > 0
    decreases e
  {
    match e
    case List(tag, es) => tag + IntToBytes(|DumpAll(es, ws)|, ws) + DumpAll(es, ws)
    case Unsigned(tag, n) => tag + IntToBytes(n, ws)
    case Signed(tag, n) => tag + IntToBytes(n, ws)
    case Text(tag, s) => tag + IntToBytes(|s|, ws) + s + Zeros(Mod(|s|, ws))
  }

  function DumpAll(es: seq<Elem>, ws: nat): Str
    requires ws > 0
    decreases es
  {
    if es == [] then [] else Dump(es[0], ws) + DumpAll(es[1..], ws)
  }

  // The two headers.
  const SMALL: Str := [0x74, 0x65, 0x6E, 0x63]           // 'tenc'
  const LARGE: Str := [0x54, 0x45, 0x6E, 0x63]           // 'TEnc'

  function DumpDoc(es: seq<Elem>, ws: nat): Str
    requires ws > 0
  {
    (if ws == 2 then SMALL else LARGE) + IntToBytes(|DumpAll(es, ws)|, ws) + DumpAll(es, ws)
  }

  // ---- parsing ----

  /** Slices that may reach past the end. */
  function Take(s: Str, n: nat): Str { if n <= |s| then s[..n] else s }

  function Drop(s: Str, n: int): Str { if n <= 0 then s else if n <= |s| then s[n..] else [] }

  function Padding(pos: int, ws: nat): int
    requires ws > 0
  {
    if Mod(pos, ws) == 0 then 0 else ws - Mod(pos, ws)
  }

  datatype Parsed<T> = Parsed(v: T, pos: int, rest: Str)

  function ParseNumber(pos: int, data: Str, ws: nat): Parsed<nat> {
    Parsed(BytesToInt(Take(data, ws)), pos + ws, Drop(data, ws))
  }

  function ParseText(pos: int, data: Str, ws: nat): Parsed<Elem>
    requires ws > 0
  {
    var n := ParseNumber(pos + 4, Drop(data, 4), ws);
    var end := n.pos + n.v;
    var pad := Padding(end, ws);
    Parsed(Text(Take(data, 4), Take(n.rest, n.v)), end + pad, Drop(Drop(n.rest, n.v), pad))
  }

  /** parse_element; None is one of the exceptions. */
  function ParseElement(pos: int, data: Str, ws: nat): (r: Option<Parsed<Elem>>)
    requires ws > 0
    ensures r.Some? ==> |r.value.rest| < |data|
    decreases |data|, 0
  {
    if |data| < 4 then None
    else if data[3] == BYTES || data[3] == STRING then Some(ParseText(pos, data, ws))
    else
      var n := ParseNumber(pos + 4, data[4..], ws);
      if data[3] == SIGNED then Some(Parsed(Signed(data[..4], n.v), n.pos, n.rest))
      else if data[3] == UNSIGNED then Some(Parsed(Unsigned(data[..4], n.v), n.pos, n.rest))
      else if data[3] == LIST then
        var es := ParseAll(n.pos, Take(n.rest, n.v), ws);
        if es.None? then None else Some(Parsed(List(data[..4], es.value.0), es.value.1, Drop(n.rest, n.v)))
      else None
  }

  /** Elements until the data is used up, and the position reached. */
  function ParseAll(pos: int, data: Str, ws: nat): Option<(seq<Elem>, int)>
    requires ws > 0
    decreases |data|, 1
  {
    if data == [] then Some(([], pos))
    else
      var e := ParseElement(pos, data, ws);
      if e.None? then None
      else
        var es := ParseAll(e.value.pos, e.value.rest, ws);
        if es.None? then None else Some(([e.value.v] + es.value.0, es.value.1))
  }

  /** The header decides the word size; the size in it is not used. */
  function ParseDoc(data: Str): Option<(nat, seq<Elem>)> {
    if |data| < 4 || (data[..4] != SMALL && data[..4] != LARGE) then None
    else
      var ws := if data[..4] == SMALL then 2 else 4;
      var es := ParseAll(4 + ws, Drop(data, 4 + ws), ws);
      if es.None? then None else Some((ws, es.value.0))
  }

  // ---- which trees ----

  /** Tags are four bytes that say the kind; values and lengths fit a word. */
  predicate Fits(e: Elem, ws: nat)
    requires ws > 0
    decreases e
  {
    |e.tag| == 4 && match e
      case List(tag, es) =>
        tag[3] == LIST && |DumpAll(es, ws)| < Pow256(ws) && forall k :: 0 <= k < |es| ==> Fits(es[k], ws)
      case Unsigned(tag, n) => tag[3] == UNSIGNED && n < Pow256(ws)
      case Signed(tag, n) => false
      case Text(tag, s) => (tag[3] == BYTES || tag[3] == STRING) && |s| < Pow256(ws)
  }

  predicate AllFit(es: seq<Elem>, ws: nat)
    requires ws > 0
  {
    forall k :: 0 <= k < |es| ==> Fits(es[k], ws)
  }

  /** With 32-bit words: the length of every string is even, or it leaves one modulo four and the string
      is the last element of its list. */
  predicate Safe(es: seq<Elem>)
    decreases es
  {
    forall k :: 0 <= k < |es| ==> SafeElem(es[k], k == |es| - 1)
  }

  predicate SafeElem(e: Elem, last: bool)
    decreases e
  {
    match e
    case List(_, es) => Safe(es)
    case Text(_, s) => |s| % 2 == 0 || (last && |s| % 4 == 1)
    case _ => true
  }
}
