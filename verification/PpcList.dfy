/** The prevalidation of a whole list, jumps and labels included, keeps its meaning. */
module PpcList {
  import opened Common
  import opened PpcRtl
  import opened PpcPass
  import opened PpcKeeps

  /** The pass over a list: what is put after an instruction is looked at in its turn. */
  function Pass(l: seq<Ins>, v: int): (seq<Ins>, int)
    decreases Total(l)
  {
    if l == [] then ([], v)
    else
      var o := Rewrite(l[0], v);
      Lighter(l[0], v);
      TotalSplit(o.post, l[1..]);
      var (c, w) := Pass(o.post + l[1..], o.v);
      (o.pre + [o.cur] + c, w)
  }

  function Code(l: seq<Ins>, v: int): seq<Ins> { Pass(l, v).0 }

  function Next(l: seq<Ins>, v: int): int { Pass(l, v).1 }

  /** One instruction of the pass. */
  lemma PassOne(l: seq<Ins>, v: int)
    requires l != []
    ensures var o := Rewrite(l[0], v);
      Code(l, v) == o.pre + [o.cur] + Code(o.post + l[1..], o.v) && Next(l, v) == Next(o.post + l[1..], o.v)
      && Total(o.post + l[1..]) < Total(l)
  {
    var o := Rewrite(l[0], v);
    Lighter(l[0], v);
    TotalSplit(o.post, l[1..]);
  }

  lemma {:induction false} PassSplit(a: seq<Ins>, b: seq<Ins>, v: int)
    ensures Code(a + b, v) == Code(a, v) + Code(b, Next(a, v)) && Next(a + b, v) == Next(b, Next(a, v))
    decreases Total(a)
  {
    if a == [] { assert a + b == b; }
    else {
      hide *;
      var o := Rewrite(a[0], v);
      PassOne(a, v);
      PassOne(a + b, v);
      assert (a + b)[0] == a[0] && (a + b)[1..] == a[1..] + b;
      Assoc(o.post, a[1..], b);
      PassSplit(o.post + a[1..], b, o.v);
      Assoc(o.pre + [o.cur], Code(o.post + a[1..], o.v), Code(b, Next(a, v)));
    }
  }

  lemma GoodRaise(l: seq<Ins>, v: int, w: int)
    requires AllGood(l, v) && v <= w
    ensures AllGood(l, w)
  {
    forall k | 0 <= k < |l| ensures Good(l[k], w) { assert Good(l[k], v); }
  }

  /** On straight lists the pass keeps the meaning. */
  lemma {:induction false} PassLine(env: Env, l: seq<Ins>, v: int, t: Mach)
    requires Lawful(env) && AllGood(l, v) && Line(env, l, t).Some?
    ensures v <= Next(l, v) && Line(env, Code(l, v), t).Some?
    ensures Agree(Line(env, l, t).value, Line(env, Code(l, v), t).value, v)
    ensures forall k :: 0 <= k < |Code(l, v)| ==> Straight(Code(l, v)[k])
    decreases Total(l)
  {
    if l == [] {
    } else {
      var i, rest := l[0], l[1..];
      var o := Rewrite(i, v);
      var hd := o.pre + [o.cur];
      Lighter(i, v);
      TotalSplit(o.post, rest);
      var m1 := Do(env, i, t).value;
      KeepsMeaning(env, i, t, t, v);
      LineSplit(env, hd, o.post, t);
      var u := Line(env, hd, t).value;
      var z := Line(env, o.post, u).value;
      AgreeLine(env, rest, m1, z, v);
      LineSplit(env, o.post, rest, u);
      PostGood(o, rest, v);
      PassLine(env, o.post + rest, o.v, u);
      LineSplit(env, hd, Code(o.post + rest, o.v), t);
      AgreeTrans(Line(env, l, t).value, Line(env, o.post + rest, u).value, Line(env, Code(l, v), t).value, v, o.v);
      StraightJoin(o, Code(o.post + rest, o.v));
    }
  }

  lemma PostGood(o: Out, rest: seq<Ins>, v: int)
    requires v <= o.v && AllGood(Lined(o), o.v) && AllGood(rest, v)
    ensures AllGood(o.post + rest, o.v)
  {
    GoodRaise(rest, v, o.v);
    forall k | 0 <= k < |o.post| ensures Good(o.post[k], o.v) { assert o.post[k] == Lined(o)[|o.pre| + 1 + k]; }
  }

  lemma StraightJoin(o: Out, c: seq<Ins>)
    requires AllGood(Lined(o), o.v) && forall k :: 0 <= k < |c| ==> Straight(c[k])
    ensures forall k :: 0 <= k < |o.pre + [o.cur] + c| ==> Straight((o.pre + [o.cur] + c)[k])
  {
    forall k | 0 <= k < |o.pre + [o.cur]| ensures Straight((o.pre + [o.cur])[k]) {
      assert (o.pre + [o.cur])[k] == Lined(o)[k];
    }
  }

  // ---- where things are ----

  /** Numeric label 7 is the pass's own. */
  predicate NotSeven(t: Arg) {
    t.Addr? ==> t.p != FLabelAt(7) && t.p != BLabelAt(7)
  }

  /** What the pass is given: no fresh registers yet, nothing unsupported, and numeric label 7 unused. */
  predicate Fine(l: seq<Ins>, v: int) {
    forall k :: 0 <= k < |l| ==> FineIns(l[k], v)
  }

  predicate FineIns(i: Ins, v: int) {
    Below(i, v) && Supported(i) && i != SetFLabel(7) && ((i.Jump? || i.CJump?) ==> NotSeven(i.t))
  }

  predicate IsLabel(i: Ins) {
    i.SetLabel? || (i.SetFLabel? && i.f != 7)
  }

  /** Where the i-th instruction of the list starts after the pass. */
  function Pos(l: seq<Ins>, v: int, i: nat): nat
    requires i <= |l|
  {
    |Code(l[..i], v)|
  }

  function Block(l: seq<Ins>, v: int, i: nat): seq<Ins>
    requires i < |l|
  {
    Code([l[i]], Next(l[..i], v))
  }

  /** The output is made of one block for each instruction. */
  lemma BlockAt(l: seq<Ins>, v: int, i: nat)
    requires i < |l|
    ensures Pos(l, v, i + 1) == Pos(l, v, i) + |Block(l, v, i)| <= |Code(l, v)|
    ensures Code(l, v)[Pos(l, v, i)..Pos(l, v, i + 1)] == Block(l, v, i)
  {
    var a := l[..i];
    assert l[..i + 1] == a + [l[i]];
    PassSplit(a, [l[i]], v);
    assert l == l[..i + 1] + l[i + 1..];
    PassSplit(l[..i + 1], l[i + 1..], v);
    var c := Code(l[..i + 1], v);
    assert Code(l, v)[..|c|] == c;
    assert c[|Code(a, v)|..] == Block(l, v, i);
  }

  /** An instruction that is left alone is its own block. */
  lemma BlockSame(i: Ins, v: int)
    requires Rewrite(i, v) == Out.Out([], i, [], v)
    ensures Code([i], v) == [i] && Next([i], v) == v
  {
    PassOne([i], v);
    assert [] + [i][1..] == [];
    assert [] + [i] + [] == [i];
  }

  lemma BlockJump(i: Ins, v: int)
    requires i.CJump? && IsName(i.t)
    ensures Code([i], v) == [CJump(Flip(i.cond), Addr(FLabelAt(7), false, 0)), Jump(i.t), SetFLabel(7)]
  {
    var o := Rewrite(i, v);
    PassOne([i], v);
    assert o.post + [i][1..] == [Jump(i.t)] + [SetFLabel(7)];
    BlockSame(Jump(i.t), v);
    BlockSame(SetFLabel(7), v);
    PassSplit([Jump(i.t)], [SetFLabel(7)], v);
  }

  lemma {:induction false} PassLabels(l: seq<Ins>, v: int, x: Ins)
    requires IsLabel(x) && x !in l
    ensures x !in Code(l, v)
    decreases Total(l)
  {
    if l == [] {
    } else {
      var o := Rewrite(l[0], v);
      Lighter(l[0], v);
      TotalSplit(o.post, l[1..]);
      assert l[0] != x && x !in l[1..];
      RewriteLabels(l[0], v, x);
      PassLabels(o.post + l[1..], o.v, x);
    }
  }

  lemma RewriteLabels(i: Ins, v: int, x: Ins)
    requires IsLabel(x) && i != x
    ensures x !in Rewrite(i, v).pre && x != Rewrite(i, v).cur && x !in Rewrite(i, v).post
  {
  }

  lemma {:induction false} FindSkip(q: seq<Ins>, a: nat, b: nat, x: Ins)
    requires a <= b <= |q| && forall j :: a <= j < b ==> q[j] != x
    ensures FindNext(q, a, x) == FindNext(q, b, x)
    ensures FindPrev(q, b, x) == FindPrev(q, a, x)
    decreases b - a
  {
    if a >= b {
    } else {
      FindSkip(q, a + 1, b, x);
      FindPrevSkip(q, a, b, x);
    }
  }

  lemma {:induction false} FindPrevSkip(q: seq<Ins>, a: nat, b: nat, x: Ins)
    requires a <= b <= |q| && forall j :: a <= j < b ==> q[j] != x
    ensures FindPrev(q, b, x) == FindPrev(q, a, x)
    decreases b
  {
    if a >= b {
    } else {
      FindPrevSkip(q, a, b - 1, x);
    }
  }

  function Moved(l: seq<Ins>, v: int, o: Option<nat>): Option<nat>
    requires o.Some? ==> o.value <= |l|
  {
    if o.Some? then Some(Pos(l, v, o.value)) else None
  }

  /** A block holds a label exactly when it is that label's own. */
  lemma BlockLabel(l: seq<Ins>, v: int, k: nat, x: Ins)
    requires k < |l| && IsLabel(x)
    ensures l[k] == x ==> Block(l, v, k) == [x]
    ensures l[k] != x ==> x !in Block(l, v, k)
  {
    if l[k] == x { BlockSame(x, Next(l[..k], v)); }
    else { PassLabels([l[k]], Next(l[..k], v), x); }
  }

  lemma NotInStretch(q: seq<Ins>, a: nat, b: nat, x: Ins)
    requires a <= b <= |q| && x !in q[a..b]
    ensures forall j :: a <= j < b ==> q[j] != x
  {
    forall j | a <= j < b ensures q[j] != x { assert q[j] == q[a..b][j - a]; }
  }

  lemma {:induction false} NextMoved(l: seq<Ins>, v: int, k: nat, x: Ins)
    requires k <= |l| && IsLabel(x)
    ensures FindNext(Code(l, v), Pos(l, v, k), x) == Moved(l, v, FindNext(l, k, x))
    decreases |l| - k
  {
    if k == |l| { assert l[..k] == l; }
    else {
      var q := Code(l, v);
      BlockAt(l, v, k);
      BlockLabel(l, v, k, x);
      if l[k] == x {
        assert q[Pos(l, v, k)..Pos(l, v, k + 1)][0] == x;
      } else {
        NotInStretch(q, Pos(l, v, k), Pos(l, v, k + 1), x);
        FindSkip(q, Pos(l, v, k), Pos(l, v, k + 1), x);
        NextMoved(l, v, k + 1, x);
      }
    }
  }

  lemma {:induction false} PrevMoved(l: seq<Ins>, v: int, k: nat, x: Ins)
    requires k <= |l| && IsLabel(x)
    ensures Pos(l, v, k) <= |Code(l, v)|
    ensures FindPrev(Code(l, v), Pos(l, v, k), x) == Moved(l, v, FindPrev(l, k, x))
    decreases k
  {
    if k > 0 {
      var q := Code(l, v);
      BlockAt(l, v, k - 1);
      BlockLabel(l, v, k - 1, x);
      PrevMoved(l, v, k - 1, x);
      if l[k - 1] == x {
        assert q[Pos(l, v, k - 1)..Pos(l, v, k)][0] == x;
      } else {
        NotInStretch(q, Pos(l, v, k - 1), Pos(l, v, k), x);
        FindPrevSkip(q, Pos(l, v, k - 1), Pos(l, v, k), x);
      }
    } else {
      assert l[..0] == [];
    }
  }

  /** Jumps go to the same places. */
  lemma WhitherMoved(env: Env, l: seq<Ins>, v: int, k: nat, m: Mach, t: Mach, a: Arg)
    requires k < |l| && Agree(m, t, v) && NotSeven(a) && ArgBelow(a, v) && Pos(l, v, k) < |Code(l, v)|
    ensures var x, y := Whither(env, l, k, m, a), Whither(env, Code(l, v), Pos(l, v, k), t, a);
      match x
      case At(j) => j < |l| && y == At(Pos(l, v, j))
      case _ => y == x
  {
    AgreeValue(env, m, t, v, a);
    match a {
      case Addr(LabelAt(x), _, _) =>
        assert l[..0] == [];
        NextMoved(l, v, 0, SetLabel(x));
      case Addr(FLabelAt(x), _, _) => NextMoved(l, v, k, SetFLabel(x));
      case Addr(BLabelAt(x), _, _) => PrevMoved(l, v, k, SetFLabel(x));
      case _ =>
    }
  }

  // ---- whole runs ----

  ghost predicate SameEnd(e: End, f: End, v: int) {
    match e
    case Halt(m) => f.Halt? && Agree(m, f.m, v)
    case Left(m, a) => f.Left? && f.address == a && Agree(m, f.m, v)
    case _ => false
  }

  /** What the run of the rewritten list has to do with the run of the original. */
  ghost predicate Follows(env: Env, l: seq<Ins>, v: int, k: nat, m: Mach, t: Mach, n: nat, j: nat)
    requires k <= |l|
  {
    var e, q := Run(env, l, k, m, n), Code(l, v);
    && ((e.Halt? || e.Left?) ==> SameEnd(e, Run(env, q, Pos(l, v, k), t, j), v))
    && (e.Timeout? ==> Run(env, q, Pos(l, v, k), t, n).Timeout?)
  }

  lemma NextUp(env: Env, l: seq<Ins>, v: int, k: nat)
    requires Fine(l, v) && k <= |l|
    ensures v <= Next(l[..k], v)
  {
    NextGrows(l[..k], v);
  }

  lemma {:induction false} NextGrows(l: seq<Ins>, v: int)
    ensures v <= Next(l, v)
    decreases Total(l)
  {
    if l == [] {
    } else {
      PassOne(l, v);
      NextGrows(Rewrite(l[0], v).post + l[1..], Rewrite(l[0], v).v);
    }
  }

  /** An instruction that does not jump: its block runs as a whole. */
  lemma StraightFollows(env: Env, l: seq<Ins>, v: int, k: nat, m: Mach, t: Mach, n: nat) returns (u: Mach, b: nat)
    requires Lawful(env) && Fine(l, v) && k < |l| && Agree(m, t, v) && Straight(l[k]) && Do(env, l[k], m).Some?
    ensures Agree(Do(env, l[k], m).value, u, v) && b > 0
    ensures forall j: nat :: j >= b ==>
      Run(env, Code(l, v), Pos(l, v, k), t, j) == Run(env, Code(l, v), Pos(l, v, k + 1), u, j - b)
    ensures forall j: nat :: j < b ==> Run(env, Code(l, v), Pos(l, v, k), t, j) == Timeout
  {
    hide Rewrite, Pass, Total, Do, Agree, Run, Lawful;
    var i, w := l[k], Next(l[..k], v);
    assert FineIns(i, v);
    NextGrows(l[..k], v);
    BlockAt(l, v, k);
    AgreeDo(env, i, m, t, v);
    Line1(env, i, t);
    PassLine(env, [i], w, t);
    var c := Block(l, v, k);
    u, b := Line(env, c, t).value, |c|;
    AgreeTrans(Do(env, i, m).value, Do(env, i, t).value, u, v, w);
    PassOne([i], w);
    forall j: nat
      ensures j >= b ==>
        Run(env, Code(l, v), Pos(l, v, k), t, j) == Run(env, Code(l, v), Pos(l, v, k + 1), u, j - b)
      ensures j < b ==> Run(env, Code(l, v), Pos(l, v, k), t, j) == Timeout
    {
      LineRuns(env, Code(l, v), Pos(l, v, k), c, t, j);
    }
  }

  /** A jump, or a conditional jump not to a name, is left alone. */
  lemma JumpAlone(l: seq<Ins>, v: int, k: nat)
    requires k < |l| && (l[k].Jump? || (l[k].CJump? && !IsName(l[k].t)))
    ensures Pos(l, v, k + 1) == Pos(l, v, k) + 1 <= |Code(l, v)| && Code(l, v)[Pos(l, v, k)] == l[k]
  {
    BlockAt(l, v, k);
    BlockSame(l[k], Next(l[..k], v));
    assert Code(l, v)[Pos(l, v, k)..Pos(l, v, k + 1)][0] == l[k];
  }

  /** A conditional jump to a name has become three instructions. */
  lemma JumpThree(l: seq<Ins>, v: int, k: nat)
    requires k < |l| && l[k].CJump? && IsName(l[k].t)
    ensures var q, p := Code(l, v), Pos(l, v, k);
      Pos(l, v, k + 1) == p + 3 <= |q| && q[p] == CJump(Flip(l[k].cond), Addr(FLabelAt(7), false, 0))
      && q[p + 1] == Jump(l[k].t) && q[p + 2] == SetFLabel(7)
  {
    var q, p := Code(l, v), Pos(l, v, k);
    BlockAt(l, v, k);
    BlockJump(l[k], Next(l[..k], v));
    var b := q[p..p + 3];
    assert q[p] == b[0] && q[p + 1] == b[1] && q[p + 2] == b[2];
  }

  lemma NamedFollows(env: Env, l: seq<Ins>, v: int, k: nat, t: Mach, n: nat)
    requires k < |l| && l[k].CJump? && IsName(l[k].t) && n > 2
    ensures var q, p := Code(l, v), Pos(l, v, k);
      Run(env, q, p, t, n) == if Taken(env, l[k].cond, t.fl) then Left(t, Word(env.place(l[k].t.p)))
        else Run(env, q, Pos(l, v, k + 1), t, n - 2)
  {
    var q, p := Code(l, v), Pos(l, v, k);
    JumpThree(l, v, k);
    assert Taken(env, Flip(l[k].cond), t.fl) == !Taken(env, l[k].cond, t.fl);
    if Taken(env, l[k].cond, t.fl) {
      assert Run(env, q, p, t, n) == Run(env, q, p + 1, t, n - 1);
    } else {
      assert FindNext(q, p, SetFLabel(7)) == FindNext(q, p + 1, SetFLabel(7)) == Some(p + 2);
      assert Run(env, q, p, t, n) == Run(env, q, p + 2, t, n - 1);
      assert Do(env, q[p + 2], t) == Some(t);
    }
  }

  lemma {:induction false} RunFollows(env: Env, l: seq<Ins>, v: int, k: nat, m: Mach, t: Mach, n: nat) returns (j: nat)
    requires Lawful(env) && Fine(l, v) && k <= |l| && Agree(m, t, v)
    ensures Follows(env, l, v, k, m, t, n, j)
    decreases n
  {
    var q, p := Code(l, v), Pos(l, v, k);
    j := n;
    if n == 0 { return; }
    if k == |l| {
      assert l[..k] == l;
    } else if Straight(l[k]) {
      if Do(env, l[k], m).Some? { j := StraightStep(env, l, v, k, m, t, n); }
    } else if l[k].CJump? && IsName(l[k].t) {
      j := NamedStep(env, l, v, k, m, t, n);
    } else {
      j := JumpStep(env, l, v, k, m, t, n);
    }
  }

  lemma {:induction false} StraightStep(env: Env, l: seq<Ins>, v: int, k: nat, m: Mach, t: Mach, n: nat)
    returns (j: nat)
    requires Lawful(env) && Fine(l, v) && k < |l| && Agree(m, t, v) && Straight(l[k]) && Do(env, l[k], m).Some? && n > 0
    ensures Follows(env, l, v, k, m, t, n, j)
    decreases n, 0
  {
    hide Code, Pos, Do, Agree, Lawful, FineIns;
    var u, b := StraightFollows(env, l, v, k, m, t, n);
    var m1 := Do(env, l[k], m).value;
    var i := RunFollows(env, l, v, k + 1, m1, u, n - 1);
    j := i + b;
    var e := Run(env, l, k, m, n);
    assert e == Run(env, l, k + 1, m1, n - 1);
    if e.Timeout? && n >= b { TimeoutEarlier(env, Code(l, v), Pos(l, v, k + 1), u, n - 1, n - b); }
  }

  lemma {:induction false} NamedStep(env: Env, l: seq<Ins>, v: int, k: nat, m: Mach, t: Mach, n: nat) returns (j: nat)
    requires Lawful(env) && Fine(l, v) && k < |l| && Agree(m, t, v) && l[k].CJump? && IsName(l[k].t) && n > 0
    ensures Follows(env, l, v, k, m, t, n, j)
    decreases n, 0
  {
    j := n + 3;
    NamedFollows(env, l, v, k, t, j);
    if !Taken(env, l[k].cond, m.fl) {
      var i := RunFollows(env, l, v, k + 1, m, t, n - 1);
      j := i + 3;
      NamedFollows(env, l, v, k, t, j);
      MoreRun(env, Code(l, v), Pos(l, v, k + 1), t, i, i + 1);
      if n > 2 { NamedFollows(env, l, v, k, t, n); } else { NamedShort(env, l, v, k, t, n); }
      if Run(env, l, k + 1, m, n - 1).Timeout? && n > 2 {
        TimeoutEarlier(env, Code(l, v), Pos(l, v, k + 1), t, n - 1, n - 2);
      }
    }
  }

  /** A run that has ended does not change with more instructions to spend. */
  lemma {:induction false} MoreRun(env: Env, l: seq<Ins>, pc: nat, m: Mach, n: nat, k: nat)
    requires n <= k
    ensures Run(env, l, pc, m, n).Halt? || Run(env, l, pc, m, n).Left?
      ==> Run(env, l, pc, m, k) == Run(env, l, pc, m, n)
    decreases n
  {
    if n == 0 || pc >= |l| {
    } else {
      var i := l[pc];
      if i.Jump? || (i.CJump? && Taken(env, i.cond, m.fl)) {
        var w := Whither(env, l, pc, m, i.t);
        if w.At? { MoreRun(env, l, w.k, m, n - 1, k - 1); }
      } else if i.CJump? {
        MoreRun(env, l, pc + 1, m, n - 1, k - 1);
      } else if Do(env, i, m).Some? {
        MoreRun(env, l, pc + 1, Do(env, i, m).value, n - 1, k - 1);
      }
    }
  }

  lemma NamedShort(env: Env, l: seq<Ins>, v: int, k: nat, t: Mach, n: nat)
    requires k < |l| && l[k].CJump? && IsName(l[k].t) && n <= 2 && !Taken(env, l[k].cond, t.fl)
    ensures Run(env, Code(l, v), Pos(l, v, k), t, n).Timeout?
  {
    NamedFollows(env, l, v, k, t, 3);
    NamedLast(env, l, v, k, t);
    TimeoutEarlier(env, Code(l, v), Pos(l, v, k), t, 2, n);
  }

  lemma NamedLast(env: Env, l: seq<Ins>, v: int, k: nat, t: Mach)
    requires k < |l| && l[k].CJump? && IsName(l[k].t) && !Taken(env, l[k].cond, t.fl)
    ensures Run(env, Code(l, v), Pos(l, v, k), t, 2).Timeout?
  {
    var q, p := Code(l, v), Pos(l, v, k);
    JumpThree(l, v, k);
    assert Taken(env, Flip(l[k].cond), t.fl);
    assert FindNext(q, p, SetFLabel(7)) == FindNext(q, p + 1, SetFLabel(7)) == Some(p + 2);
    assert Run(env, q, p, t, 2) == Run(env, q, p + 2, t, 1);
    assert Do(env, q[p + 2], t) == Some(t);
  }

  lemma {:induction false} JumpStep(env: Env, l: seq<Ins>, v: int, k: nat, m: Mach, t: Mach, n: nat) returns (j: nat)
    requires Lawful(env) && Fine(l, v) && k < |l| && Agree(m, t, v) && n > 0
    requires l[k].Jump? || (l[k].CJump? && !IsName(l[k].t))
    ensures Follows(env, l, v, k, m, t, n, j)
    decreases n, 0
  {
    hide Code, Pos, Do, Lawful;
    assert FineIns(l[k], v);
    JumpAlone(l, v, k);
    WhitherMoved(env, l, v, k, m, t, l[k].t);
    j := n;
    if l[k].CJump? && !Taken(env, l[k].cond, m.fl) {
      var i := RunFollows(env, l, v, k + 1, m, t, n - 1);
      j := i + 1;
    } else {
      var w := Whither(env, l, k, m, l[k].t);
      if w.At? {
        var i := RunFollows(env, l, v, w.k, m, t, n - 1);
        j := i + 1;
      }
    }
  }

  /** The pass keeps the meaning of every list it is meant for.  Where the original ends, by running off
      its end or by jumping away, the rewritten list ends in the same way, at the same address, with the
      same memory, flags and registers, fresh registers aside; and where the original does not end, the
      rewritten list does not either. */
  lemma PassKeeps(env: Env, l: seq<Ins>, v: int, m: Mach, n: nat)
    requires Standard(env) && Fine(l, v)
    ensures var e := Run(env, l, 0, m, n);
      && ((e.Halt? || e.Left?) ==> exists j: nat :: SameEnd(e, Run(env, Code(l, v), 0, m, j), v))
      && (e.Timeout? ==> Run(env, Code(l, v), 0, m, n).Timeout?)
  {
    StandardIsLawful(env);
    assert l[..0] == [] && Pos(l, v, 0) == 0;
    var j := RunFollows(env, l, v, 0, m, m, n);
  }
}
