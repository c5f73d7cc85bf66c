/** The tokeniser for argument strings: whitespace separates tokens, double quotes delimit them, and a
    double quote inside quotes is doubled. */
module Tokens {
  import opened Common

  const QUOTE: char := '\"'
  const NUL: char := '\0'

  predicate IsSpace(c: char) {
    c == ' ' || c == '\t' || c == '\n' || c == '\r' || c == 11 as char || c == 12 as char
  }

  /** Whitespace by character codes: the blank, and the codes from the tabulator to the carriage return. */
  lemma SpaceCodes(c: char)
    ensures IsSpace(c) <==> c as int == 32 || 9 <= c as int <= 13
  {
    assert '\t' as int == 9 && '\n' as int == 10 && '\r' as int == 13;
  }

  // ---- the grammar ----

  /** Nothing more: the end of the string, or a zero character. */
  predicate AtEnd(s: string) { s == "" || s[0] == NUL }

  predicate EndsToken(s: string) { AtEnd(s) || IsSpace(s[0]) }

  /** Behind an opening quote: the token and what follows it; None when the closing quote is missing or is
      followed by something else. */
  function QuotedToken(s: string): Option<(string, string)>
    decreases |s|
  {
    if AtEnd(s) then None
    else if s[0] == QUOTE then
      if |s| > 1 && s[1] == QUOTE then
        var r := QuotedToken(s[2..]);
        if r.None? then None else Some(([QUOTE] + r.value.0, r.value.1))
      else if EndsToken(s[1..]) then Some(("", s[1..]))
      else None
    else
      var r := QuotedToken(s[1..]);
      if r.None? then None else Some(([s[0]] + r.value.0, r.value.1))
  }

  function PlainToken(s: string): (string, string) {
    if EndsToken(s) then ("", s)
    else
      var r := PlainToken(s[1..]);
      ([s[0]] + r.0, r.1)
  }

  function NextToken(s: string): Option<(string, string)> {
    if s != "" && s[0] == QUOTE then QuotedToken(s[1..]) else Some(PlainToken(s))
  }

  function SkipSpace(s: string): (r: string)
    ensures |r| <= |s| && (r == "" || !IsSpace(r[0]))
  {
    if s != "" && IsSpace(s[0]) then SkipSpace(s[1..]) else s
  }

  lemma {:induction false} QuotedShorter(s: string)
    ensures QuotedToken(s).Some? ==> |QuotedToken(s).value.1| < |s|
    decreases |s|
  {
    if AtEnd(s) {
    } else {
      if s[0] == QUOTE && |s| > 1 && s[1] == QUOTE { QuotedShorter(s[2..]); }
      else if s[0] != QUOTE { QuotedShorter(s[1..]); }
    }
  }

  lemma {:induction false} PlainShorter(s: string)
    ensures |PlainToken(s).1| <= |s| && (!EndsToken(s) ==> |PlainToken(s).1| < |s|)
    decreases |s|
  {
    if EndsToken(s) {
    } else {
      PlainShorter(s[1..]);
    }
  }

  lemma TokenShorter(s: string)
    requires !EndsToken(s)
    ensures NextToken(s).Some? ==> |NextToken(s).value.1| < |s|
  {
    if s[0] == QUOTE { QuotedShorter(s[1..]); } else { PlainShorter(s); }
  }

  /** The tokens of a string, and whether all is well; a bad token is empty, and the last one. */
  function TokensOf(s: string): (seq<string>, bool)
    decreases |s|
  {
    var t := SkipSpace(s);
    if AtEnd(t) then ([], true)
    else
      TokenShorter(t);
      var n := NextToken(t);
      if n.None? then ([""], false)
      else
        var r := TokensOf(n.value.1);
        ([n.value.0] + r.0, r.1)
  }

  // ---- rendering ----

  /** One token, with the whitespace before it and whether it is put in quotes. */
  datatype Piece = Piece(gap: string, token: string, quoted: bool)

  function Doubled(t: string): string {
    if t == "" then ""
    else if t[0] == QUOTE then [QUOTE, QUOTE] + Doubled(t[1..])
    else [t[0]] + Doubled(t[1..])
  }

  function Written(p: Piece): string {
    if p.quoted then [QUOTE] + Doubled(p.token) + [QUOTE] else p.token
  }

  function Render(ps: seq<Piece>, tail: string): string {
    if ps == [] then tail else ps[0].gap + Written(ps[0]) + Render(ps[1..], tail)
  }

  predicate AllSpace(s: string) { forall i :: 0 <= i < |s| ==> IsSpace(s[i]) }

  /** A token may stand without quotes when it is not empty, has no whitespace and does not begin with a
      quote; no token holds a zero character. */
  predicate PieceOk(p: Piece, first: bool) {
    && AllSpace(p.gap) && (first || p.gap != "") && (forall i :: 0 <= i < |p.token| ==> p.token[i] != NUL)
    && (!p.quoted ==> p.token != "" && p.token[0] != QUOTE && forall i :: 0 <= i < |p.token| ==> !IsSpace(p.token[i]))
  }

  predicate PiecesOk(ps: seq<Piece>, first: bool) {
    forall k :: 0 <= k < |ps| ==> PieceOk(ps[k], first && k == 0)
  }

  function Texts(ps: seq<Piece>): seq<string> {
    if ps == [] then [] else [ps[0].token] + Texts(ps[1..])
  }

  lemma {:induction false} GapSkipped(gap: string, s: string)
    requires AllSpace(gap) && (s == "" || !IsSpace(s[0]))
    ensures SkipSpace(gap + s) == s
    decreases |gap|
  {
    if gap == "" { assert gap + s == s; }
    else {
      assert (gap + s)[1..] == gap[1..] + s;
      GapSkipped(gap[1..], s);
    }
  }

  lemma {:induction false} QuotedBack(t: string, rest: string)
    requires (forall i :: 0 <= i < |t| ==> t[i] != NUL) && EndsToken(rest)
    ensures QuotedToken(Doubled(t) + [QUOTE] + rest) == Some((t, rest))
    decreases |t|
  {
    var s := Doubled(t) + [QUOTE] + rest;
    if t == "" {
      assert s == [QUOTE] + rest && s[1..] == rest;
    } else {
      QuotedBack(t[1..], rest);
      assert t == [t[0]] + t[1..];
      var r := Doubled(t[1..]) + [QUOTE] + rest;
      if t[0] == QUOTE { assert s == [QUOTE, QUOTE] + r && s[2..] == r; }
      else { assert s == [t[0]] + r && s[1..] == r; }
    }
  }

  lemma {:induction false} PlainBack(t: string, rest: string)
    requires (forall i :: 0 <= i < |t| ==> t[i] != NUL && !IsSpace(t[i])) && EndsToken(rest)
    ensures PlainToken(t + rest) == (t, rest)
    decreases |t|
  {
    if t == "" { assert t + rest == rest; }
    else {
      assert (t + rest)[1..] == t[1..] + rest;
      PlainBack(t[1..], rest);
      assert t == [t[0]] + t[1..];
    }
  }

  lemma PieceBack(p: Piece, rest: string)
    requires PieceOk(p, true) && EndsToken(rest)
    ensures NextToken(Written(p) + rest) == Some((p.token, rest))
    ensures Written(p) != "" && !EndsToken(Written(p) + rest)
  {
    var s := Written(p) + rest;
    if p.quoted {
      assert s[1..] == Doubled(p.token) + [QUOTE] + rest;
      QuotedBack(p.token, rest);
    } else {
      PlainBack(p.token, rest);
      assert s[0] == p.token[0];
    }
  }

  /** What can follow a token in a rendering ends it. */
  lemma RenderEnds(ps: seq<Piece>, tail: string)
    requires PiecesOk(ps, false) && AllSpace(tail)
    ensures EndsToken(Render(ps, tail))
  {
    if ps != [] { assert PieceOk(ps[0], false); }
  }

  /** Rendering any list of tokens, with quotes where they are needed and anywhere else, and with any
      whitespace between, before and behind, and taking it apart again gives the list. */
  lemma {:induction false} RenderBack(ps: seq<Piece>, tail: string, first: bool)
    requires PiecesOk(ps, first) && AllSpace(tail)
    ensures TokensOf(Render(ps, tail)) == (Texts(ps), true)
    decreases |ps|
  {
    if ps == [] {
      assert tail + "" == tail;
      GapSkipped(tail, "");
    } else {
      var p, rest := ps[0], Render(ps[1..], tail);
      assert PieceOk(p, first);
      assert PiecesOk(ps[1..], false) by {
        forall k | 0 <= k < |ps| - 1 ensures PieceOk(ps[1..][k], false) { assert PieceOk(ps[k + 1], false); }
      }
      RenderEnds(ps[1..], tail);
      PieceBack(p, rest);
      Assoc(p.gap, Written(p), rest);
      GapSkipped(p.gap, Written(p) + rest);
      RenderBack(ps[1..], tail, false);
    }
  }

  // ---- every accepted string is a rendering ----

  predicate NoZero(s: string) { forall i :: 0 <= i < |s| ==> s[i] != NUL }

  lemma {:induction false} QuotedIs(s: string)
    requires QuotedToken(s).Some?
    ensures var (tok, rest) := QuotedToken(s).value;
      s == Doubled(tok) + [QUOTE] + rest && EndsToken(rest) && NoZero(tok)
    decreases |s|
  {
    var (tok, rest) := QuotedToken(s).value;
    if s[0] == QUOTE && !(|s| > 1 && s[1] == QUOTE) {
      assert s == [QUOTE] + s[1..] && Doubled(tok) == "";
    } else {
      var n := if s[0] == QUOTE then 2 else 1;
      QuotedIs(s[n..]);
      assert tok[1..] == QuotedToken(s[n..]).value.0;
      assert s == s[..n] + s[n..];
      Regroup(s[..n], Doubled(tok[1..]), [QUOTE], rest);
      Assoc(Doubled(tok[1..]), [QUOTE], rest);
      assert Doubled(tok) == s[..n] + Doubled(tok[1..]);
    }
  }

  /** No zero character and no whitespace. */
  predicate Solid(s: string) {
    NoZero(s) && forall i :: 0 <= i < |s| ==> !IsSpace(s[i])
  }

  lemma SolidFront(c: char, s: string)
    requires Solid(s) && c != NUL && !IsSpace(c)
    ensures Solid([c] + s)
  {
  }

  lemma {:induction false} PlainIs(s: string)
    ensures var (tok, rest) := PlainToken(s); s == tok + rest && EndsToken(rest) && Solid(tok)
    decreases |s|
  {
    if EndsToken(s) {
      assert "" + s == s;
    } else {
      PlainIs(s[1..]);
      SolidFront(s[0], PlainToken(s[1..]).0);
      hide Solid;
      assert s == [s[0]] + s[1..];
      Assoc([s[0]], PlainToken(s[1..]).0, PlainToken(s[1..]).1);
    }
  }

  lemma {:induction false} GapIs(s: string) returns (gap: string)
    ensures s == gap + SkipSpace(s) && AllSpace(gap) && (s != "" && IsSpace(s[0]) ==> gap != "")
    decreases |s|
  {
    if s == "" || !IsSpace(s[0]) {
      gap := "";
      assert "" + s == s;
    } else {
      gap := GapIs(s[1..]);
      Assoc([s[0]], gap, SkipSpace(s));
      assert s == [s[0]] + s[1..];
      gap := [s[0]] + gap;
    }
  }

  /** The token at the front of t, as a piece of a rendering. */
  lemma PieceIs(gap: string, t: string) returns (p: Piece)
    requires AllSpace(gap) && !EndsToken(t) && NextToken(t).Some?
    ensures var (tok, rest) := NextToken(t).value;
      p.gap == gap && p.token == tok && t == Written(p) + rest && PieceOk(p, true) && EndsToken(rest)
  {
    var (tok, rest) := NextToken(t).value;
    p := Piece(gap, tok, t[0] == QUOTE);
    if t[0] == QUOTE {
      QuotedIs(t[1..]);
      assert t == [QUOTE] + t[1..];
      Assoc([QUOTE], Doubled(tok) + [QUOTE], rest);
      Assoc([QUOTE], Doubled(tok), [QUOTE]);
    } else {
      PlainIs(t);
      assert tok != "" && tok[0] == t[0];
    }
  }

  /** A string without errors is a rendering of its tokens, up to its zero character if it has one. */
  lemma {:induction false} AcceptedIs(s: string, first: bool) returns (ps: seq<Piece>, tail: string, beyond: string)
    requires TokensOf(s).1 && (first || EndsToken(s))
    ensures s == Render(ps, tail) + beyond && PiecesOk(ps, first) && AllSpace(tail) && AtEnd(beyond)
    ensures Texts(ps) == TokensOf(s).0
    decreases |s|
  {
    var gap := GapIs(s);
    var t := SkipSpace(s);
    if AtEnd(t) {
      ps, tail, beyond := [], gap, t;
    } else {
      TokenShorter(t);
      var rest := NextToken(t).value.1;
      var p := PieceIs(gap, t);
      assert gap == "" ==> s == t by { if gap == "" { assert gap + t == t; } }
      ps, tail, beyond := AcceptedIs(rest, false);
      Rendered(p, ps, tail, beyond, rest, t, s);
      forall k | 0 <= k < |[p] + ps| ensures PieceOk(([p] + ps)[k], first && k == 0) {
        if k > 0 { assert PieceOk(ps[k - 1], false); }
      }
      assert ([p] + ps)[1..] == ps;
      ps := [p] + ps;
    }
  }

  lemma Rendered(p: Piece, ps: seq<Piece>, tail: string, beyond: string, rest: string, t: string, s: string)
    requires rest == Render(ps, tail) + beyond && t == Written(p) + rest && s == p.gap + t
    ensures s == Render([p] + ps, tail) + beyond
  {
    var r := Render(ps, tail);
    assert ([p] + ps)[1..] == ps;
    hide Render, Written;
    Assoc(Written(p), r, beyond);
    Assoc(p.gap, Written(p) + r, beyond);
    Assoc(p.gap, Written(p), r);
  }

  // ---- the functions that walk along the string ----

  /** copy_token's copying: a quote stands for the character after it, and the last quote for nothing. */
  function Undoubled(t: string): string
    decreases |t|
  {
    if t == "" then ""
    else if t[0] != QUOTE then [t[0]] + Undoubled(t[1..])
    else if |t| == 1 then ""
    else [t[1]] + Undoubled(t[2..])
  }

  /** What is copied from the characters t of a token. */
  function Meant(quoted: bool, t: string): string {
    if quoted then Undoubled(t) else t
  }

  /** One round of the copying, from the k-th of n characters. */
  lemma MeantStep(quoted: bool, s: string, k: nat, n: nat, done: string)
    requires k < n <= |s|
    ensures !(quoted && s[k] == QUOTE) ==> done + Meant(quoted, s[k..n]) == (done + [s[k]]) + Meant(quoted, s[k + 1..n])
    ensures quoted && s[k] == QUOTE && k + 1 == n ==> done + Meant(quoted, s[k..n]) == done
    ensures quoted && s[k] == QUOTE && k + 1 < n ==>
      done + Meant(quoted, s[k..n]) == (done + [s[k + 1]]) + Meant(quoted, s[k + 2..n])
  {
    var t := s[k..n];
    assert t[1..] == s[k + 1..n] && t[0] == s[k] && t == [t[0]] + t[1..];
    if k + 1 < n { assert t[2..] == s[k + 2..n] && t[1] == s[k + 1]; }
  }

  lemma MeantNothing(quoted: bool, s: string, n: nat, done: string)
    requires n <= |s|
    ensures done + Meant(quoted, s[n..n]) == done
  {
    assert s[n..n] == "" && done + "" == done;
  }

  /** Between the opening quote and the end of the token lies the token, doubled quotes and all. */
  lemma {:induction false} QuotedSpan(s: string)
    requires QuotedToken(s).Some?
    ensures var (tok, rest) := QuotedToken(s).value;
      |rest| < |s| && s[|s| - |rest|..] == rest && Undoubled(s[..|s| - |rest|]) == tok
    decreases |s|
  {
    var rest := QuotedToken(s).value.1;
    QuotedShorter(s);
    var t := s[..|s| - |rest|];
    if s[0] == QUOTE {
      if |s| > 1 && s[1] == QUOTE {
        QuotedSpan(s[2..]);
        assert t[2..] == s[2..][..|s[2..]| - |rest|];
      } else {
        assert t == [QUOTE];
      }
    } else {
      QuotedSpan(s[1..]);
      assert t[1..] == s[1..][..|s[1..]| - |rest|];
    }
  }

  lemma {:induction false} PlainSpan(s: string)
    ensures var (tok, rest) := PlainToken(s);
      |rest| <= |s| && s[|s| - |rest|..] == rest && s[..|s| - |rest|] == tok
    decreases |s|
  {
    var rest := PlainToken(s).1;
    if EndsToken(s) {
    } else {
      PlainSpan(s[1..]);
      assert s[..|s| - |rest|] == [s[0]] + s[1..][..|s[1..]| - |rest|];
    }
  }

  class Arguments {
    const text: string
    const continues: bool                 // what the user's error handler answers
    var argc: nat
    var argv: array<string>

    constructor (s: string, c: bool)
      ensures text == s && continues == c && argc == 0
    {
      text, continues, argc := s, c, 0;
      argv := new string[0];
    }

    /** The character a pointer points at. */
    function At(i: nat): char
      reads this
    {
      if i < |text| then text[i] else NUL
    }

    /** scan_token: where the token that starts at st ends; None is a null pointer, the token in error. */
    method ScanToken(st: nat) returns (en: Option<nat>)
      requires st < |text| && !EndsToken(text[st..])
      ensures var n := NextToken(text[st..]);
        en.Some? == n.Some? && (en.Some? ==> st < en.value <= |text| && text[en.value..] == n.value.1)
    {
      TokenShorter(text[st..]);
      if At(st) == QUOTE {
        var e := st + 1;
        assert text[st..][1..] == text[e..];
        while At(e) != NUL
          invariant st < e <= |text|
          invariant var a, b := QuotedToken(text[st + 1..]), QuotedToken(text[e..]);
            a.Some? == b.Some? && (a.Some? ==> a.value.1 == b.value.1)
          decreases |text| - e
        {
          ghost var r := text[e..];
          assert r[1..] == text[e + 1..];
          if At(e) == QUOTE {
            e := e + 1;
            if At(e) != QUOTE {
              if IsSpace(At(e)) || At(e) == NUL { return Some(e); }
              return None;
            }
            assert r[2..] == text[e + 1..];
          }
          e := e + 1;
        }
        return None;
      } else {
        var e := st;
        while !IsSpace(At(e)) && At(e) != NUL
          invariant st <= e <= |text| && PlainToken(text[st..]).1 == PlainToken(text[e..]).1
          decreases |text| - e
        {
          assert text[e..][1..] == text[e + 1..];
          e := e + 1;
        }
        return Some(e);
      }
    }

    /** copy_token: the token between st and en, in a buffer of its own. */
    method CopyToken(st: nat, en: Option<nat>) returns (tok: string)
      requires st < |text| && (en.Some? ==> st < en.value <= |text|)
      ensures en.None? ==> tok == ""
      ensures en.Some? ==> tok == Meant(text[st] == QUOTE, text[if text[st] == QUOTE then st + 1 else st..en.value])
    {
      if en.None? { return ""; }
      tok := CopyChars(text, text[st] == QUOTE, if text[st] == QUOTE then st + 1 else st, en.value);
    }

    /** The copying loop of copy_token. */
    static method CopyChars(s: string, quoted: bool, from: nat, end: nat) returns (tok: string)
      requires from <= end <= |s|
      ensures tok == Meant(quoted, s[from..end])
    {
      hide Meant;
      var buf := new char[end - from + 1](_ => NUL);
      var src, dst: nat := from, 0;
      ghost var all := Meant(quoted, s[from..end]);
      while src < end
        invariant from <= src <= end && dst <= src - from && all == buf[..dst] + Meant(quoted, s[src..end])
        decreases end - src
      {
        ghost var done := buf[..dst];
        MeantStep(quoted, s, src, end, done);
        if s[src] == QUOTE && quoted {
          src := src + 1;
          if src == end { return buf[..dst]; }
        }
        buf[dst] := s[src];
        dst := dst + 1;
        Snoc(buf, dst, done, s[src]);
        src := src + 1;
      }
      tok := buf[..dst];
      MeantNothing(quoted, s, end, tok);
    }

    static lemma Snoc(buf: array<char>, n: nat, done: string, c: char)
      requires 0 < n <= buf.Length && buf[..n - 1] == done && buf[n - 1] == c
      ensures buf[..n] == done + [c]
    {
    }

    lemma TokenSpan(st: nat, en: nat)
      requires st < en <= |text| && NextToken(text[st..]).Some? && text[en..] == NextToken(text[st..]).value.1
      ensures Meant(text[st] == QUOTE, text[if text[st] == QUOTE then st + 1 else st..en])
        == NextToken(text[st..]).value.0
    {
      var s := text[st..];
      if text[st] == QUOTE {
        QuotedSpan(s[1..]);
        assert s[1..][..|s[1..]| - |text[en..]|] == text[st + 1..en];
      } else {
        PlainSpan(s);
        assert s[..|s| - |text[en..]|] == text[st..en];
      }
    }

    /** parse_string from position st on: count the tokens on the way in, allocate the table at the end,
        fill it on the way out.  The result says whether to go on. */
    method ParseString(str: Option<nat>) returns (ok: bool)
      requires str.Some? ==> str.value <= |text|
      modifies this
      ensures var r := if str.None? then ([], true) else TokensOf(text[str.value..]);
        var n := old(argc);
        ok == (r.1 || continues) && (!ok ==> argc == 0)
        && (ok ==> argc == n + |r.0| && argv.Length == argc && argv[n..] == r.0 && fresh(argv))
      decreases if str.None? then 0 else |text| - str.value + 1
    {
      var n := argc;
      if str.None? {
        argv := new string[n](_ => "");
        return true;
      }
      var st := str.value;
      while IsSpace(At(st))
        invariant str.value <= st <= |text| && SkipSpace(text[str.value..]) == SkipSpace(text[st..])
        decreases |text| - st
      {
        assert text[st..][1..] == text[st + 1..];
        st := st + 1;
      }
      assert SkipSpace(text[str.value..]) == text[st..];
      if At(st) == NUL {
        argv := new string[n](_ => "");
        return true;
      }
      var en := ScanToken(st);
      if en.None? && !continues {
        argc := 0;
        return false;
      }
      argc := argc + 1;
      ok := ParseString(en);
      if ok {
        var tok := CopyToken(st, en);
        if en.Some? { TokenSpan(st, en.value); }
        ghost var behind := argv[n + 1..];
        argv[n] := tok;
        assert argv[n..] == [tok] + behind;
      }
    }

    /** The whole of a string that was rendered from tokens. */
    method ParseRendered(ghost ps: seq<Piece>, ghost tail: string) returns (ok: bool)
      requires PiecesOk(ps, true) && AllSpace(tail) && text == Render(ps, tail) && argc == 0
      modifies this
      ensures ok && argc == |Texts(ps)| && argv[..] == Texts(ps)
    {
      RenderBack(ps, tail, true);
      assert text[0..] == text;
      ok := ParseString(Some(0));
    }
  }
}
