/** The prevalidation of one instruction keeps its meaning, fresh registers aside. */
module PpcKeeps {
  import opened Common
  import opened PpcRtl
  import opened PpcPass

  predicate ArgBelow(a: Arg, v: int) {
    (a.Reg? ==> a.r < v) && (a.Ind? ==> a.base < v)
  }

  /** No register of the instruction is v or above. */
  predicate Below(i: Ins, v: int) {
    match i
    case Lea(s, d) => ArgBelow(s, v) && ArgBelow(d, v)
    case Move(s, d) => ArgBelow(s, v) && ArgBelow(d, v)
    case MoveB(s, d) => ArgBelow(s, v) && ArgBelow(d, v)
    case Alu(_, a, b, d, _) => ArgBelow(a, v) && ArgBelow(b, v) && ArgBelow(d, v)
    case Not(s, d) => ArgBelow(s, v) && ArgBelow(d, v)
    case ZExt(s, d) => ArgBelow(s, v) && ArgBelow(d, v)
    case Step(_, x, _) => ArgBelow(x, v)
    case Cmp(a, b) => ArgBelow(a, v) && ArgBelow(b, v)
    case Swap(x, y) => ArgBelow(x, v) && ArgBelow(y, v)
    case CJump(_, t) => ArgBelow(t, v)
    case Jump(t) => ArgBelow(t, v)
    case _ => true
  }

  /** What the pass handles correctly: a constant or a register is not written to a name with a displacement,
      a constant byte is not written to a name, zero extension is into a register. */
  predicate Supported(i: Ins) {
    match i
    case Move(s, d) => IsName(d) && (s.Const? || s.Reg?) ==> Word(d.off) == 0
    case MoveB(s, d) => !(s.Const? && IsName(d))
    case ZExt(s, d) => d.Reg?
    case _ => true
  }

  predicate Good(i: Ins, v: int) {
    Below(i, v) && Supported(i) && Straight(i)
  }

  predicate AllGood(l: seq<Ins>, v: int) {
    forall k :: 0 <= k < |l| ==> Good(l[k], v)
  }

  /** The same memory, flags, and registers below v. */
  ghost predicate Agree(m: Mach, t: Mach, v: int) {
    m.mem == t.mem && m.fl == t.fl && forall r :: r < v ==> Get(t, r) == Get(m, r)
  }

  lemma AgreeValue(env: Env, m: Mach, t: Mach, v: int, a: Arg)
    requires Agree(m, t, v) && ArgBelow(a, v)
    ensures Value(env, t, a) == Value(env, m, a) && Value8(env, t, a) == Value8(env, m, a)
    ensures Address(env, t, a) == Address(env, m, a)
  {
  }

  lemma AgreeSet(m: Mach, t: Mach, v: int, r: int, x: W32)
    requires Agree(m, t, v)
    ensures Agree(Set(m, r, x), Set(t, r, x), v)
  {
    forall q | q < v ensures Get(Set(t, r, x), q) == Get(Set(m, r, x), q) { assert Get(t, q) == Get(m, q); }
  }

  lemma AgreeParts(m: Mach, t: Mach, v: int, mem: map<int, int>, fl: (int, int))
    requires Agree(m, t, v)
    ensures Agree(m.(mem := mem), t.(mem := mem), v) && Agree(m.(fl := fl), t.(fl := fl), v)
  {
    forall q | q < v
      ensures Get(t.(mem := mem), q) == Get(m.(mem := mem), q) && Get(t.(fl := fl), q) == Get(m.(fl := fl), q)
    {
      assert Get(t, q) == Get(m, q);
    }
  }

  lemma AgreeStore(env: Env, m: Mach, t: Mach, v: int, a: Arg, x: W32)
    requires Agree(m, t, v) && ArgBelow(a, v)
    ensures Store(env, m, a, x).Some? ==>
      (Store(env, t, a, x).Some? && Agree(Store(env, m, a, x).value, Store(env, t, a, x).value, v))
  {
    match a {
      case Reg(r) => AgreeSet(m, t, v, r, x);
      case Ind(r, d) => AgreeParts(m, t, v, StoreN(m.mem, Word(Get(m, r) + d), 4, x), m.fl);
      case Addr(p, c, d) => AgreeParts(m, t, v, StoreN(m.mem, Word(env.place(p) + d), 4, x), m.fl);
      case _ =>
    }
  }

  lemma AgreeStore8(env: Env, m: Mach, t: Mach, v: int, a: Arg, x: W32)
    requires Agree(m, t, v) && ArgBelow(a, v)
    ensures Store8(env, m, a, x).Some? ==>
      (Store8(env, t, a, x).Some? && Agree(Store8(env, m, a, x).value, Store8(env, t, a, x).value, v))
  {
    match a {
      case Reg(r) => AgreeSet(m, t, v, r, Get(m, r) - Get(m, r) % 256 + x % 256);
      case Ind(r, d) => AgreeParts(m, t, v, StoreN(m.mem, Word(Get(m, r) + d), 1, x), m.fl);
      case Addr(p, c, d) => AgreeParts(m, t, v, StoreN(m.mem, Word(env.place(p) + d), 1, x), m.fl);
      case _ =>
    }
  }

  /** The result is stored and, perhaps, the flags are set. */
  lemma AgreeFlag(env: Env, m: Mach, t: Mach, v: int, a: Arg, x: W32, on: bool)
    requires Agree(m, t, v) && ArgBelow(a, v) && Store(env, m, a, x).Some?
    ensures var (p, q) := (Flag(Store(env, m, a, x), on, x), Flag(Store(env, t, a, x), on, x));
      q.Some? && Agree(p.value, q.value, v)
  {
    AgreeStore(env, m, t, v, a, x);
    AgreeParts(Store(env, m, a, x).value, Store(env, t, a, x).value, v, map[], (0, x));
  }

  /** A register that is not looked at may be given any value. */
  lemma AgreeFresh(m: Mach, t: Mach, v: int, r: int, x: W32)
    requires Agree(m, t, v) && r >= v
    ensures Agree(m, Set(t, r, x), v)
  {
  }

  lemma AgreeTrans(a: Mach, b: Mach, c: Mach, v: int, w: int)
    requires Agree(a, b, v) && Agree(b, c, w) && v <= w
    ensures Agree(a, c, v)
  {
  }

  /** An instruction does the same in machines that agree on its registers. */
  lemma AgreeDo(env: Env, i: Ins, m: Mach, t: Mach, v: int)
    requires Below(i, v) && Agree(m, t, v) && Do(env, i, m).Some?
    ensures Do(env, i, t).Some? && Agree(Do(env, i, m).value, Do(env, i, t).value, v)
  {
    match i {
      case Lea(s, d) =>
        AgreeValue(env, m, t, v, s);
        AgreeStore(env, m, t, v, d, Address(env, m, s).value);
      case Move(s, d) =>
        AgreeValue(env, m, t, v, s);
        AgreeStore(env, m, t, v, d, Value(env, m, s));
      case MoveB(s, d) =>
        AgreeValue(env, m, t, v, s);
        AgreeStore8(env, m, t, v, d, Value8(env, m, s));
      case Alu(op, a, b, d, cc) =>
        AgreeValue(env, m, t, v, a);
        AgreeValue(env, m, t, v, b);
        AgreeFlag(env, m, t, v, d, env.alu(op, Value(env, m, a), Value(env, m, b)), cc);
      case Not(s, d) =>
        AgreeValue(env, m, t, v, s);
        AgreeStore(env, m, t, v, d, W - 1 - Value(env, m, s));
      case ZExt(s, d) =>
        AgreeValue(env, m, t, v, s);
        AgreeStore(env, m, t, v, d, Value8(env, m, s));
      case Step(up, x, cc) =>
        AgreeValue(env, m, t, v, x);
        AgreeFlag(env, m, t, v, x, Word(Value(env, m, x) + if up then 1 else -1), cc || !x.Reg?);
      case Cmp(a, b) =>
        AgreeValue(env, m, t, v, a);
        AgreeValue(env, m, t, v, b);
        AgreeParts(m, t, v, m.mem, (Value(env, m, a), Value(env, m, b)));
      case Swap(x, y) =>
        AgreeValue(env, m, t, v, x);
        AgreeValue(env, m, t, v, y);
        AgreeSet(m, t, v, x.r, Get(m, y.r));
        AgreeSet(Set(m, x.r, Get(m, y.r)), Set(t, x.r, Get(m, y.r)), v, y.r, Get(m, x.r));
      case _ =>
    }
  }

  lemma {:induction false} AgreeLine(env: Env, l: seq<Ins>, m: Mach, t: Mach, v: int)
    requires (forall k :: 0 <= k < |l| ==> Below(l[k], v)) && Agree(m, t, v) && Line(env, l, m).Some?
    ensures Line(env, l, t).Some? && Agree(Line(env, l, m).value, Line(env, l, t).value, v)
    decreases |l|
  {
    if l == [] {
    } else {
      AgreeDo(env, l[0], m, t, v);
      AgreeLine(env, l[1..], Do(env, l[0], m).value, Do(env, l[0], t).value, v);
    }
  }

  // ---- short lists ----

  lemma Line1(env: Env, i: Ins, m: Mach)
    ensures Line(env, [i], m) == Do(env, i, m)
  {
    assert [i][1..] == [];
  }

  lemma Line2(env: Env, i: Ins, j: Ins, m: Mach, m1: Mach)
    requires Do(env, i, m) == Some(m1)
    ensures Line(env, [i, j], m) == Do(env, j, m1)
  {
    assert [i, j][1..] == [j];
    Line1(env, j, m1);
  }

  lemma Line3(env: Env, i: Ins, j: Ins, k: Ins, m: Mach, m1: Mach, m2: Mach)
    requires Do(env, i, m) == Some(m1) && Do(env, j, m1) == Some(m2)
    ensures Line(env, [i, j, k], m) == Do(env, k, m2)
  {
    assert [i, j, k][1..] == [j, k];
    Line2(env, j, k, m1, m2);
  }

  function Lined(o: Out): seq<Ins> {
    o.pre + [o.cur] + o.post
  }

  /** The rewritten instructions do what m1 says, fresh registers aside, and are themselves in order. */
  ghost predicate Keeps(env: Env, o: Out, t: Mach, m1: Mach, v: int) {
    && v <= o.v && AllGood(Lined(o), o.v)
    && Line(env, Lined(o), t).Some? && Agree(m1, Line(env, Lined(o), t).value, v)
  }

  /** Nothing changes. */
  lemma KeepsSame(env: Env, i: Ins, m: Mach, t: Mach, v: int)
    requires Good(i, v) && Agree(m, t, v) && Do(env, i, m).Some?
    ensures Keeps(env, Out([], i, [], v), t, Do(env, i, m).value, v)
  {
    assert Lined(Out([], i, [], v)) == [i];
    AgreeDo(env, i, m, t, v);
    Line1(env, i, t);
  }

  // ---- the cases ----

  lemma WordAdd(x: int, y: int)
    ensures Word(x + Word(y)) == Word(x + y) && Word(Word(x) + y) == Word(x + y) && Word(Word(x)) == Word(x)
  {
  }

  /** What the pass relies on: how additions, and operations with certain constants, come out. */
  ghost predicate Lawful(env: Env) {
    && (forall n: int, b: W32 :: env.alu(ADD, Word(n), b) == Word(b + n))
    && (forall n: int, b: W32 :: env.alu(SUB, Word(n), b) == Word(b - n))
    && (forall b: W32 :: env.alu(XOR, Word(-1), b) == 0xffff_ffff - b)
    && (forall b: W32 :: env.alu(AND, Word(0xff), b) == b % 256)
  }

  lemma AddsTo(env: Env, n: int, b: W32)
    requires Lawful(env)
    ensures env.alu(ADD, Word(n), b) == Word(b + n)
  {
  }

  lemma SubIsAdd(env: Env, n: int, b: W32)
    requires Lawful(env)
    ensures env.alu(SUB, Word(n), b) == env.alu(ADD, Word(Negated(n)), b)
  {
    AddsTo(env, Negated(n), b);
  }

  lemma WordSub(x: int, y: int)
    ensures Word(x - Word(y)) == Word(x - y)
  {
    assert y == 0x1_0000_0000 * (y / 0x1_0000_0000) + Word(y);
  }

  /** LEA of memory becomes an addition. */
  lemma KeepsLeaInd(env: Env, r: int, d: int, x: int, m: Mach, t: Mach, v: int)
    requires Lawful(env) && r < v && x < v && Agree(m, t, v)
    ensures Keeps(env, Out([], Alu(ADD, Const(d), Reg(r), Reg(x), false), [], v), t, Set(m, x, Word(Get(m, r) + d)), v)
  {
    var o := Out([], Alu(ADD, Const(d), Reg(r), Reg(x), false), [], v);
    assert Lined(o) == [o.cur];
    Line1(env, o.cur, t);
    AddsTo(env, d, Get(t, r));
    AgreeSet(m, t, v, x, Word(Get(m, r) + d));
  }

  /** LEA of a label becomes a move of its address and an addition of the displacement. */
  lemma KeepsLeaLabel(env: Env, s: Arg, x: int, m: Mach, t: Mach, v: int)
    requires Lawful(env) && s.Addr? && x < v && Agree(m, t, v)
    ensures Keeps(env, Rewrite(Lea(s, Reg(x)), v), t, Set(m, x, Word(env.place(s.p) + s.off)), v)
  {
    var o := Rewrite(Lea(s, Reg(x)), v);
    var a, b := Word(env.place(s.p)), Word(env.place(s.p) + s.off);
    var t1 := Set(t, x, a);
    WordAdd(env.place(s.p), s.off);
    if s.off == 0 {
      assert Lined(o) == [o.cur];
      Line1(env, o.cur, t);
      AgreeSet(m, t, v, x, b);
    } else {
      assert Lined(o) == [o.cur, o.post[0]];
      Line2(env, o.cur, o.post[0], t, t1);
      AddsTo(env, s.off, a);
      AgreeTwice(m, t, v, x, a, b);
    }
  }

  lemma AgreeTwice(m: Mach, t: Mach, v: int, x: int, a: W32, b: W32)
    requires Agree(m, t, v)
    ensures Agree(Set(m, x, b), Set(Set(t, x, a), x, b), v)
  {
    forall q | q < v ensures Get(Set(Set(t, x, a), x, b), q) == Get(Set(m, x, b), q) { assert Get(t, q) == Get(m, q); }
  }

  lemma KeepsLea(env: Env, i: Ins, m: Mach, t: Mach, v: int)
    requires Lawful(env) && i.Lea? && Good(i, v) && Agree(m, t, v) && Do(env, i, m).Some?
    ensures Keeps(env, Rewrite(i, v), t, Do(env, i, m).value, v)
  {
    if !i.dst.Reg? || !(i.src.Ind? || i.src.Addr?) { KeepsSame(env, i, m, t, v); }
    else if i.src.Ind? { KeepsLeaInd(env, i.src.base, i.src.d, i.dst.r, m, t, v); }
    else { KeepsLeaLabel(env, i.src, i.dst.r, m, t, v); }
  }

  lemma KeepsMoveB(env: Env, i: Ins, m: Mach, t: Mach, v: int)
    requires i.MoveB? && Good(i, v) && Agree(m, t, v) && Do(env, i, m).Some?
    ensures Keeps(env, RewriteMoveB(i, v), t, Do(env, i, m).value, v)
  {
    if i.src.Const? && i.dst.Ind? {
      var o := RewriteMoveB(i, v);
      assert Lined(o) == [o.cur, o.post[0]];
      var x := Word(i.src.n);
      var t1 := Set(t, v, x);
      AgreeFresh(m, t, v, v, x);
      Line2(env, o.cur, o.post[0], t, t1);
      assert x % 256 == i.src.n % 256;
      AgreeStore8(env, m, t1, v, i.dst, i.src.n % 256);
    } else { KeepsSame(env, i, m, t, v); }
  }

  /** A value fetched into a fresh register and stored from it. */
  lemma ViaReg(env: Env, s: Arg, d: Arg, m: Mach, t: Mach, v: int)
    requires ArgBelow(s, v) && ArgBelow(d, v) && Agree(m, t, v) && Store(env, m, d, Value(env, m, s)).Some?
    requires !IsName(d)
    ensures Keeps(env, Out([], Move(s, Reg(v)), [Move(Reg(v), d)], v + 1), t,
          Store(env, m, d, Value(env, m, s)).value, v)
  {
    var o := Out([], Move(s, Reg(v)), [Move(Reg(v), d)], v + 1);
    assert Lined(o) == [o.cur, o.post[0]];
    var x := Value(env, m, s);
    AgreeValue(env, m, t, v, s);
    AgreeFresh(m, t, v, v, x);
    var t1 := Set(t, v, x);
    Line2(env, o.cur, o.post[0], t, t1);
    AgreeStore(env, m, t1, v, d, x);
  }

  lemma NoDistance(a: int, d: int)
    requires Word(d) == 0
    ensures Word(a + d) == Word(a)
  {
  }

  /** A constant written to a name goes through two fresh registers. */
  lemma KeepsConstToName(env: Env, n: int, d: Arg, m: Mach, t: Mach, v: int)
    requires IsName(d) && Word(d.off) == 0 && Agree(m, t, v)
    ensures Keeps(env, RewriteMove(Move(Const(n), d), v), t,
          m.(mem := StoreN(m.mem, Word(env.place(d.p) + d.off), 4, Word(n))), v)
  {
    hide StoreN;
    var o := RewriteMove(Move(Const(n), d), v);
    assert Lined(o) == [o.cur, o.post[0], o.post[1]];
    var a := Word(env.place(d.p));
    NoDistance(env.place(d.p), d.off);
    var t1 := Set(t, v + 1, a);
    var t2 := Set(t1, v, Word(n));
    AgreeFresh(m, t, v, v + 1, a);
    AgreeFresh(m, t1, v, v, Word(n));
    Line3(env, o.cur, o.post[0], o.post[1], t, t1, t2);
    assert Get(t2, v + 1) == a && Get(t2, v) == Word(n);
    AgreeParts(m, t2, v, StoreN(m.mem, a, 4, Word(n)), m.fl);
  }

  lemma KeepsRegToName(env: Env, r: int, d: Arg, m: Mach, t: Mach, v: int)
    requires IsName(d) && Word(d.off) == 0 && Agree(m, t, v) && r < v
    ensures Keeps(env, RewriteMove(Move(Reg(r), d), v), t,
          m.(mem := StoreN(m.mem, Word(env.place(d.p) + d.off), 4, Get(m, r))), v)
  {
    hide StoreN;
    var o := RewriteMove(Move(Reg(r), d), v);
    assert Lined(o) == [o.cur, o.post[0]];
    var a := Word(env.place(d.p));
    NoDistance(env.place(d.p), d.off);
    var t1 := Set(t, v, a);
    AgreeFresh(m, t, v, v, a);
    Line2(env, o.cur, o.post[0], t, t1);
    assert Get(t1, v) == a && Get(t1, r) == Get(m, r);
    AgreeParts(m, t1, v, StoreN(m.mem, a, 4, Get(m, r)), m.fl);
  }

  lemma KeepsNameToReg(env: Env, s: Arg, r: int, m: Mach, t: Mach, v: int)
    requires IsName(s) && !s.isConst && Agree(m, t, v) && r < v
    ensures Keeps(env, RewriteMove(Move(s, Reg(r)), v), t, Set(m, r, Value(env, m, s)), v)
  {
    var o := RewriteMove(Move(s, Reg(r)), v);
    assert Lined(o) == [o.cur, o.post[0]];
    var a := Word(env.place(s.p) + s.off);
    var t1 := Set(t, v, a);
    AgreeFresh(m, t, v, v, a);
    Line2(env, o.cur, o.post[0], t, t1);
    assert Get(t1, v) == a;
    AgreeSet(m, t1, v, r, Value(env, m, s));
  }

  lemma KeepsMove(env: Env, i: Ins, m: Mach, t: Mach, v: int)
    requires i.Move? && Good(i, v) && Agree(m, t, v) && Do(env, i, m).Some?
    ensures Keeps(env, Rewrite(i, v), t, Do(env, i, m).value, v)
  {
    var (s, d) := (i.src, i.dst);
    if IsName(d) && s.Const? { KeepsConstToName(env, s.n, d, m, t, v); }
    else if IsName(d) && s.Reg? { KeepsRegToName(env, s.r, d, m, t, v); }
    else if d.Reg? && IsName(s) && !s.isConst { KeepsNameToReg(env, s, d.r, m, t, v); }
    else if d.Ind? && (s.Const? || (s.Addr? && s.isConst)) { ViaReg(env, s, d, m, t, v); }
    else { KeepsSame(env, i, m, t, v); }
  }

  // ---- arithmetic ----

  lemma {:induction false} XorOnes(y: int, n: nat)
    requires 0 <= y < Pow2(n)
    ensures Bits(XOR, Pow2(n) - 1, y, n) == Pow2(n) - 1 - y
  {
    if n == 0 {
    } else {
      assert (Pow2(n) - 1) / 2 == Pow2(n - 1) - 1 && (Pow2(n) - 1) % 2 == 1;
      XorOnes(y / 2, n - 1);
    }
  }

  lemma {:induction false} AndNothing(y: int, n: nat)
    ensures Bits(AND, 0, y, n) == 0
    decreases n
  {
    if n == 0 {
    } else {
      AndNothing(y / 2, n - 1);
    }
  }

  lemma {:induction false} AndOnes(y: int, k: nat, n: nat)
    requires k <= n
    ensures Bits(AND, Pow2(k) - 1, y, n) == y % Pow2(k)
    decreases k
  {
    if k == 0 { AndNothing(y, n); }
    else {
      assert (Pow2(k) - 1) / 2 == Pow2(k - 1) - 1 && (Pow2(k) - 1) % 2 == 1;
      AndOnes(y / 2, k - 1, n - 1);
      HalfMod(y, Pow2(k - 1));
    }
  }

  lemma HalfMod(y: int, p: int)
    requires p >= 1
    ensures y % (2 * p) == 2 * ((y / 2) % p) + y % 2
  {
    var q, r := y / 2 / p, (y / 2) % p;
    assert y == 2 * (y / 2) + y % 2 && y / 2 == p * q + r;
    assert y == (2 * p) * q + (2 * r + y % 2) by { assert 2 * (p * q) == (2 * p) * q; }
    ModIs(y, 2 * p, q, 2 * r + y % 2);
  }

  lemma Two32()
    ensures Pow2(WORD_BITS) == 0x1_0000_0000 && Pow2(8) == 256
  {
    assert Pow2(8) == 256;
    assert Pow2(16) == 256 * Pow2(8);
    assert Pow2(24) == 256 * Pow2(16);
    assert Pow2(32) == 256 * Pow2(24);
  }

  lemma XorAll(ones: int, y: int, n: nat)
    requires ones == Pow2(n) - 1 && 0 <= y <= ones
    ensures Bits(XOR, ones, y, n) == ones - y
  {
    XorOnes(y, n);
  }

  lemma NotIsXor(y: W32)
    ensures Bitwise(XOR, 0xffff_ffff, y) == 0xffff_ffff - y
  {
    Two32();
    XorAll(0xffff_ffff, y, WORD_BITS);
    SmallWord(0xffff_ffff - y);
  }

  lemma SmallWord(b: W32)
    ensures Word(b) == b
  {
  }

  lemma AndByte(y: W32)
    ensures Bitwise(AND, 0xff, y) == y % 256
  {
    BitwiseIs(AND, 0xff, y);
    SmallWord(y % 256);
    hide *;
    Two32();
    AndOnes(y, 8, WORD_BITS);
  }

  lemma BitwiseIs(op: Op, a: W32, b: W32)
    ensures Bitwise(op, a, b) == Word(Bits(op, a, b, WORD_BITS))
  {
  }

  lemma SumIs(n: int, b: W32)
    ensures Apply(ADD, Word(n), b) == Word(b + n)
  {
    WordAdd(b, n);
  }

  lemma DifferenceIs(n: int, b: W32)
    ensures Apply(SUB, Word(n), b) == Word(b - n)
  {
    WordSub(b, n);
  }

  lemma SmallWords()
    ensures Word(-1) == 0xffff_ffff && Word(0xff) == 0xff
  {
  }

  lemma NotLaw(env: Env, b: W32)
    requires env.alu(XOR, Word(-1), b) == Bitwise(XOR, Word(-1), b)
    ensures env.alu(XOR, Word(-1), b) == 0xffff_ffff - b
  {
    SmallWords();
    NotIsXor(b);
  }

  lemma ByteLaw(env: Env, b: W32)
    requires env.alu(AND, Word(0xff), b) == Bitwise(AND, Word(0xff), b)
    ensures env.alu(AND, Word(0xff), b) == b % 256
  {
    SmallWords();
    AndByte(b);
  }

  lemma StandardSums(env: Env)
    requires Standard(env)
    ensures forall n: int, b: W32 :: env.alu(ADD, Word(n), b) == Word(b + n)
  {
    forall n: int, b: W32 ensures env.alu(ADD, Word(n), b) == Word(b + n) { SumIs(n, b); }
  }

  lemma StandardDifferences(env: Env)
    requires Standard(env)
    ensures forall n: int, b: W32 :: env.alu(SUB, Word(n), b) == Word(b - n)
  {
    forall n: int, b: W32 ensures env.alu(SUB, Word(n), b) == Word(b - n) { DifferenceIs(n, b); }
  }

  lemma StandardBits(env: Env)
    requires Standard(env)
    ensures forall b: W32 :: env.alu(XOR, Word(-1), b) == 0xffff_ffff - b
    ensures forall b: W32 :: env.alu(AND, Word(0xff), b) == b % 256
  {
    forall b: W32 ensures env.alu(XOR, Word(-1), b) == 0xffff_ffff - b { NotLaw(env, b); }
    forall b: W32 ensures env.alu(AND, Word(0xff), b) == b % 256 { ByteLaw(env, b); }
  }

  lemma StandardIsLawful(env: Env)
    requires Standard(env)
    ensures Lawful(env)
  {
    StandardSums(env);
    StandardDifferences(env);
    StandardBits(env);
  }

  // ---- arithmetic instructions ----

  lemma KeepsAluIn(env: Env, i: Ins, m: Mach, t: Mach, v: int)
    requires i.Alu? && Good(i, v) && Agree(m, t, v) && Do(env, i, m).Some?
    ensures Keeps(env, AluIn(i, v), t, Do(env, i, m).value, v)
  {
    var o := AluIn(i, v);
    if o.pre == [] { KeepsSame(env, i, m, t, v); }
    else {
      assert Lined(o) == [o.pre[0], o.cur];
      var x := Value(env, m, i.a);
      AgreeValue(env, m, t, v, i.a);
      AgreeFresh(m, t, v, v, x);
      var t1 := Set(t, v, x);
      Line2(env, o.pre[0], o.cur, t, t1);
      AgreeValue(env, m, t1, v, i.b);
      AgreeFlag(env, m, t1, v, i.dst, env.alu(i.op, x, Value(env, m, i.b)), i.cc);
    }
  }

  /** A result that goes to memory is computed in a fresh register. */
  lemma KeepsAluOut(env: Env, i: Ins, m: Mach, t: Mach, v: int)
    requires i.Alu? && Good(i, v) && Agree(m, t, v) && Do(env, i, m).Some?
    ensures Keeps(env, AluOut(i, v), t, Do(env, i, m).value, v)
  {
    var o := AluOut(i, v);
    if !i.dst.Ind? { KeepsSame(env, i, m, t, v); }
    else {
      assert Lined(o) == [o.pre[0], o.cur, o.post[0]];
      var y := Value(env, m, i.b);
      var x := env.alu(i.op, Value(env, m, i.a), y);
      var t1 := Set(t, v, y);
      AgreeValue(env, m, t, v, i.b);
      AgreeFresh(m, t, v, v, y);
      AgreeValue(env, m, t1, v, i.a);
      var t2 := Set(t1, v, x);
      AgreeFresh(m, t1, v, v, x);
      var t3 := if i.cc then t2.(fl := (0, x)) else t2;
      var m3 := if i.cc then m.(fl := (0, x)) else m;
      AgreeParts(m, t2, v, m.mem, (0, x));
      Line3(env, o.pre[0], o.cur, o.post[0], t, t1, t3);
      assert Get(t3, v) == x;
      AgreeStore(env, m3, t3, v, i.dst, x);
    }
  }

  /** What replaces the instruction in the middle of a list may differ in fresh registers. */
  lemma KeepsInside(env: Env, o: Out, r: Out, c: Ins, t: Mach, m1: Mach, v: int)
    requires Keeps(env, o, t, m1, v) && r.post == []
    requires forall u: Mach :: Do(env, o.cur, u) == Do(env, c, u)
    requires forall u: Mach :: Do(env, c, u).Some? ==> Keeps(env, r, u, Do(env, c, u).value, o.v)
    ensures Keeps(env, Out(o.pre + r.pre, r.cur, o.post, r.v), t, m1, v)
  {
    var z := Out(o.pre + r.pre, r.cur, o.post, r.v);
    LineSplit(env, o.pre + [o.cur], o.post, t);
    LineSplit(env, o.pre, [o.cur], t);
    var u := Line(env, o.pre, t).value;
    Line1(env, o.cur, u);
    var u1 := Do(env, o.cur, u).value;
    assert Keeps(env, r, u, u1, o.v);
    assert Lined(r) == r.pre + [r.cur];
    var w1 := Line(env, Lined(r), u).value;
    forall k | 0 <= k < |o.post| ensures Below(o.post[k], o.v) { assert o.post[k] == Lined(o)[|o.pre| + 1 + k]; }
    AgreeLine(env, o.post, u1, w1, o.v);
    assert Lined(z) == (o.pre + Lined(r)) + o.post;
    LineSplit(env, o.pre, Lined(r), t);
    LineSplit(env, o.pre + Lined(r), o.post, t);
    AgreeTrans(m1, Line(env, Lined(o), t).value, Line(env, Lined(z), t).value, v, o.v);
    GoodInside(o, r, z);
  }

  lemma GoodInside(o: Out, r: Out, z: Out)
    requires AllGood(Lined(o), o.v) && AllGood(Lined(r), r.v) && o.v <= r.v && r.post == []
    requires z == Out(o.pre + r.pre, r.cur, o.post, r.v)
    ensures AllGood(Lined(z), z.v)
  {
    forall k | 0 <= k < |Lined(z)| ensures Good(Lined(z)[k], z.v) {
      if k < |o.pre| { assert Lined(z)[k] == Lined(o)[k]; }
      else if k < |o.pre| + |r.pre| + 1 { assert Lined(z)[k] == Lined(r)[k - |o.pre|]; }
      else { assert Lined(z)[k] == Lined(o)[k - |r.pre|]; }
    }
  }

  lemma KeepsAlu(env: Env, i: Ins, m: Mach, t: Mach, v: int)
    requires Lawful(env) && i.Alu? && Good(i, v) && Agree(m, t, v) && Do(env, i, m).Some?
    ensures Keeps(env, Rewrite(i, v), t, Do(env, i, m).value, v)
  {
    var o := AluOut(i, v);
    KeepsAluOut(env, i, m, t, v);
    var c := AluSub(o.cur);
    assert Good(o.cur, o.v) by { assert o.cur == Lined(o)[|o.pre|]; }
    forall u: Mach ensures Do(env, o.cur, u) == Do(env, c, u) {
      if o.cur.op == SUB && o.cur.a.Const? { SubIsAdd(env, o.cur.a.n, Value(env, u, o.cur.b)); }
    }
    forall u: Mach | Do(env, c, u).Some? ensures Keeps(env, AluIn(c, o.v), u, Do(env, c, u).value, o.v) {
      KeepsAluIn(env, c, u, u, o.v);
    }
    KeepsInside(env, o, AluIn(c, o.v), c, t, Do(env, i, m).value, v);
  }

  lemma KeepsNot(env: Env, i: Ins, m: Mach, t: Mach, v: int)
    requires Lawful(env) && i.Not? && Good(i, v) && Agree(m, t, v) && Do(env, i, m).Some?
    ensures Keeps(env, Rewrite(i, v), t, Do(env, i, m).value, v)
  {
    var o := Rewrite(i, v);
    assert Lined(o) == [o.pre[0], o.cur];
    var t1 := Set(t, v, Word(-1));
    AgreeFresh(m, t, v, v, Word(-1));
    Line2(env, o.pre[0], o.cur, t, t1);
    AgreeValue(env, m, t1, v, i.src);
    AgreeStore(env, m, t1, v, i.dst, W - 1 - Value(env, m, i.src));
  }

  /** A register whose low byte is replaced. */
  function WithByte(g: W32, x: W32): (y: W32)
    ensures x < 256 ==> y % 256 == x
  {
    g - g % 256 + x % 256
  }

  lemma TakesByte(env: Env, y: W32)
    requires Lawful(env)
    ensures env.alu(AND, Word(0xff), y) == y % 256
  {
  }

  lemma KeepsZExt(env: Env, i: Ins, m: Mach, t: Mach, v: int)
    requires Lawful(env) && i.ZExt? && Good(i, v) && Agree(m, t, v)
    ensures Keeps(env, Rewrite(i, v), t, Do(env, i, m).value, v)
  {
    var o := Rewrite(i, v);
    assert o.post == [Alu(AND, Const(0xff), i.dst, i.dst, false)];
    assert Lined(o) == [o.cur, o.post[0]];
    hide LoadN, StoreN, ByteAt, Lawful;
    var x := Value8(env, m, i.src);
    AgreeValue(env, m, t, v, i.src);
    var y := WithByte(Get(t, i.dst.r), x);
    var t1 := Set(t, i.dst.r, y);
    Line2(env, o.cur, o.post[0], t, t1);
    TakesByte(env, y);
    AgreeTwice(m, t, v, i.dst.r, y, x);
  }

  lemma KeepsStep(env: Env, i: Ins, m: Mach, t: Mach, v: int)
    requires Lawful(env) && i.Step? && Good(i, v) && Agree(m, t, v) && Do(env, i, m).Some?
    ensures Keeps(env, Rewrite(i, v), t, Do(env, i, m).value, v)
  {
    var d: int := if i.up then 1 else -1;
    var y: int := Value(env, m, i.x);
    var x := Word(y + d);
    AgreeValue(env, m, t, v, i.x);
    if i.x.Reg? {
      var o := Rewrite(i, v);
      assert Lined(o) == [o.cur];
      Line1(env, o.cur, t);
      AddsTo(env, d, y);
      AgreeFlag(env, m, t, v, i.x, x, i.cc);
    } else if i.x.Ind? { KeepsStepInd(env, i, m, t, v, x); }
    else { KeepsSame(env, i, m, t, v); }
  }

  lemma KeepsStepInd(env: Env, i: Ins, m: Mach, t: Mach, v: int, x: W32)
    requires Lawful(env) && i.Step? && i.x.Ind? && Good(i, v) && Agree(m, t, v)
    requires x == Word(Value(env, m, i.x) + if i.up then 1 else -1)
    ensures Keeps(env, Rewrite(i, v), t, Do(env, i, m).value, v)
  {
    hide StoreN, LoadN;
    var o := Rewrite(i, v);
    var l := [o.cur, o.post[0]];
    var y: int := Value(env, m, i.x);
    AgreeValue(env, m, t, v, i.x);
    assert Lined(o) == l + [o.post[1], o.post[2]];
    var t1 := Set(t, v, y);
    AgreeFresh(m, t, v, v, y);
    Line2(env, o.cur, o.post[0], t, t1);
    assert Get(t1, v) == y;
    AddsTo(env, 1, y);
    assert env.alu(SUB, Word(1), y) == Word(y - 1);
    var t2 := Set(t1, v, x);
    AgreeFresh(m, t1, v, v, x);
    LineSplit(env, l, [o.post[1], o.post[2]], t);
    AgreeStore(env, m, t2, v, i.x, x);
    var t3 := Store(env, t2, i.x, x).value;
    Line2(env, o.post[1], o.post[2], t2, t3);
    assert Get(t3, v) == x;
    AgreeParts(Store(env, m, i.x, x).value, t3, v, m.mem, (0, x));
  }

  lemma KeepsCmpSecond(env: Env, i: Ins, m: Mach, t: Mach, v: int)
    requires i.Cmp? && Good(i, v) && Agree(m, t, v)
    ensures Keeps(env, CmpSecond(i, v), t, Do(env, i, m).value, v)
  {
    if i.b.Reg? { KeepsSame(env, i, m, t, v); }
    else {
      var o := CmpSecond(i, v);
      assert Lined(o) == [o.cur, o.post[0]];
      var y := Value(env, m, i.b);
      AgreeValue(env, m, t, v, i.b);
      var t1 := Set(t, v, y);
      AgreeFresh(m, t, v, v, y);
      Line2(env, o.cur, o.post[0], t, t1);
      AgreeValue(env, m, t1, v, i.a);
      AgreeParts(m, t1, v, m.mem, (Value(env, m, i.a), y));
    }
  }

  lemma KeepsCmp(env: Env, i: Ins, m: Mach, t: Mach, v: int)
    requires i.Cmp? && Good(i, v) && Agree(m, t, v)
    ensures Keeps(env, Rewrite(i, v), t, Do(env, i, m).value, v)
  {
    if i.a.Reg? { KeepsCmpSecond(env, i, m, t, v); }
    else {
      var x := Value(env, m, i.a);
      AgreeValue(env, m, t, v, i.a);
      var t1 := Set(t, v, x);
      AgreeFresh(m, t, v, v, x);
      var c := Cmp(Reg(v), i.b);
      var r := CmpSecond(c, v + 1);
      KeepsCmpSecond(env, c, t1, t1, v + 1);
      var o := Rewrite(i, v);
      assert Lined(r) == [r.cur] + r.post;
      assert Lined(o) == [o.cur] + Lined(r);
      LineSplit(env, [o.cur], Lined(r), t);
      Line1(env, o.cur, t);
      AgreeValue(env, m, t1, v, i.b);
      AgreeParts(m, t1, v, m.mem, (x, Value(env, m, i.b)));
      AgreeTrans(Do(env, i, m).value, Do(env, c, t1).value, Line(env, Lined(o), t).value, v, v + 1);
      GoodCons(o.cur, Lined(r), o.v);
    }
  }

  lemma GoodCons(i: Ins, l: seq<Ins>, v: int)
    requires Good(i, v) && AllGood(l, v)
    ensures AllGood([i] + l, v)
  {
  }

  lemma KeepsSwap(env: Env, i: Ins, m: Mach, t: Mach, v: int)
    requires i.Swap? && Good(i, v) && Agree(m, t, v) && Do(env, i, m).Some?
    ensures Keeps(env, Rewrite(i, v), t, Do(env, i, m).value, v)
  {
    var o := Rewrite(i, v);
    assert Lined(o) == [o.pre[0], o.cur, o.post[0]];
    var (x, y) := (i.x.r, i.y.r);
    var (a, b) := (Get(m, x), Get(m, y));
    var t1 := Set(t, v, a);
    var t2 := Set(t1, x, b);
    AgreeFresh(m, t, v, v, a);
    assert Get(t1, y) == b && Get(t2, v) == a;
    Line3(env, o.pre[0], o.cur, o.post[0], t, t1, t2);
    AgreeSet(m, t1, v, x, b);
    AgreeSet(Set(m, x, b), t2, v, y, a);
  }

  /** Every instruction that does not jump keeps its meaning. */
  lemma KeepsMeaning(env: Env, i: Ins, m: Mach, t: Mach, v: int)
    requires Lawful(env) && Good(i, v) && Agree(m, t, v) && Do(env, i, m).Some?
    ensures Keeps(env, Rewrite(i, v), t, Do(env, i, m).value, v)
  {
    match i
    case Lea(_, _) => KeepsLea(env, i, m, t, v);
    case Move(_, _) => KeepsMove(env, i, m, t, v);
    case MoveB(_, _) => KeepsMoveB(env, i, m, t, v);
    case Alu(_, _, _, _, _) => KeepsAlu(env, i, m, t, v);
    case Not(_, _) => KeepsNot(env, i, m, t, v);
    case ZExt(_, _) => KeepsZExt(env, i, m, t, v);
    case Step(_, _, _) => KeepsStep(env, i, m, t, v);
    case Cmp(_, _) => KeepsCmp(env, i, m, t, v);
    case Swap(_, _) => KeepsSwap(env, i, m, t, v);
    case _ => KeepsSame(env, i, m, t, v);
  }
}
