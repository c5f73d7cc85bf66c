/** The loops of the TEnc tool: numbers digit by digit, lists element by element. */
module TencRun {
  import opened Common
  import opened Tenc

  /** int_to_bytes. */
  method EncodeInt(n: nat, ws: nat) returns (b: Str)
    ensures b == IntToBytes(n, ws)
  {
    b := [];
    var left := n;
    while left > 0
      invariant Digits(n) == Digits(left) + b
    {
      assert Digits(left) + b == Digits(left / 256) + ([left % 256] + b);
      b := [left % 256] + b;
      left := left / 256;
    }
    assert Digits(n) == b;
    b := Zeros(ws - |b|) + b;
  }

  /** bytes_to_int. */
  method DecodeInt(s: Str) returns (i: nat)
    ensures i == BytesToInt(s)
  {
    i := 0;
    for k := 0 to |s|
      invariant i == BytesToInt(s[..k])
    {
      assert s[..k + 1][..k] == s[..k];
      i := s[k] + i * 256;
    }
    assert s[..|s|] == s;
  }

  /** The bytes method of an element. */
  method Encode(e: Elem, ws: nat) returns (s: Str)
    requires ws > 0
    ensures s == Dump(e, ws)
    decreases e, 1
  {
    match e
    case List(tag, es) =>
      var body := EncodeAll(es, ws);
      var n := EncodeInt(|body|, ws);
      s := tag + n + body;
    case Unsigned(tag, v) =>
      var n := EncodeInt(v, ws);
      s := tag + n;
    case Signed(tag, v) =>
      var n := EncodeInt(v, ws);
      s := tag + n;
    case Text(tag, t) =>
      var n := EncodeInt(|t|, ws);
      s := tag + n + t + Zeros(Mod(|t|, ws));
  }

  method EncodeAll(es: seq<Elem>, ws: nat) returns (s: Str)
    requires ws > 0
    ensures s == DumpAll(es, ws)
    decreases es, 0
  {
    s := [];
    assert es[0..] == es;
    for k := 0 to |es|
      invariant s + DumpAll(es[k..], ws) == DumpAll(es, ws)
    {
      var b := Encode(es[k], ws);
      assert es[k..][0] == es[k] && es[k..][1..] == es[k + 1..];
      Assoc(s, b, DumpAll(es[k + 1..], ws));
      s := s + b;
    }
    assert es[|es|..] == [];
    assert s + [] == s;
  }

  /** dump_bytes of a whole document. */
  method EncodeDoc(es: seq<Elem>, ws: nat) returns (s: Str)
    requires ws > 0
    ensures s == DumpDoc(es, ws)
  {
    var body := EncodeAll(es, ws);
    var n := EncodeInt(|body|, ws);
    s := (if ws == 2 then SMALL else LARGE) + n + body;
  }

  class Parser {
    const data: Str
    var wordSize: nat
    var size: nat

    constructor (d: Str)
      ensures data == d
    {
      data, wordSize, size := d, 0, 0;
    }

    /** parse; None is one of the exceptions. */
    method Parse() returns (r: Option<(nat, seq<Elem>)>)
      modifies this
      ensures r == ParseDoc(data)
    {
      var ok, pos, rest := Header();
      if !ok { return None; }
      var es := Elements(pos, rest);
      r := if es.None? then None else Some((wordSize, es.value.0));
    }

    /** parse_header. */
    method Header() returns (ok: bool, pos: nat, rest: Str)
      modifies this
      ensures ok == (|data| >= 4 && (data[..4] == SMALL || data[..4] == LARGE))
      ensures ok ==> wordSize == (if data[..4] == SMALL then 2 else 4) && pos == 4 + wordSize && rest == Drop(data, pos)
    {
      ok, pos, rest := true, 0, [];
      if Take(data, 4) == SMALL { wordSize := 2; }
      else if Take(data, 4) == LARGE { wordSize := 4; }
      else { return false, 0, []; }
      size := DecodeInt(Take(Drop(data, 4), wordSize));
      pos := 4 + wordSize;
      rest := Drop(data, pos);
    }

    /** parse_element and the methods it chooses from. */
    method Element(pos: int, d: Str) returns (r: Option<Parsed<Elem>>)
      requires wordSize > 0
      ensures r == ParseElement(pos, d, wordSize)
      decreases |d|, 0
    {
      if |d| < 4 { return None; }
      if d[3] == BYTES || d[3] == STRING { return Some(ParseText(pos, d, wordSize)); }
      var n := ParseNumber(pos + 4, d[4..], wordSize);
      if d[3] == SIGNED { return Some(Parsed(Signed(d[..4], n.v), n.pos, n.rest)); }
      if d[3] == UNSIGNED { return Some(Parsed(Unsigned(d[..4], n.v), n.pos, n.rest)); }
      if d[3] != LIST { return None; }
      var es := Elements(n.pos, Take(n.rest, n.v));
      r := if es.None? then None else Some(Parsed(List(d[..4], es.value.0), es.value.1, Drop(n.rest, n.v)));
    }

    /** The loop over the elements of a list or of the document. */
    method Elements(pos: int, d: Str) returns (r: Option<(seq<Elem>, int)>)
      requires wordSize > 0
      ensures r == ParseAll(pos, d, wordSize)
      decreases |d|, 1
    {
      var at, rest, es := pos, d, [];
      ghost var all := ParseAll(pos, d, wordSize);
      if all.Some? { assert [] + all.value.0 == all.value.0; }
      while rest != []
        invariant |rest| <= |d|
        invariant var t := ParseAll(at, rest, wordSize);
          ParseAll(pos, d, wordSize) == if t.None? then None else Some((es + t.value.0, t.value.1))
        decreases |rest|
      {
        var e := Element(at, rest);
        if e.None? { return None; }
        ghost var t := ParseAll(e.value.pos, e.value.rest, wordSize);
        if t.Some? { Assoc(es, [e.value.v], t.value.0); }
        es := es + [e.value.v];
        at, rest := e.value.pos, e.value.rest;
      }
      assert es + [] == es;
      r := Some((es, at));
    }
  }
}
