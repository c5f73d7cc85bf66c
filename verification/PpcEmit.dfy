/** What the pass leaves for the assembler stage to write out: exactly which lists come out in
    instructions that it has a form for. */
module PpcEmit {
  import opened Common
  import opened PpcRtl
  import opened PpcPass
  import opened PpcList

  // ---- what the assembler stage has a form for ----

  /** The constant fits the field of an immediate instruction, as the assembler stage decides it. */
  predicate Short(n: int) {
    -0x4000 <= Signed(Word(n)) < 0x8000
  }

  /** Only the high half is in use, so the constant fits the field of a shifted immediate instruction. */
  predicate HighHalf(n: int) {
    Word(n) != 0 && Word(n) % 0x1_0000 == 0
  }

  /** Constants with which an operation that does not set the flags has an immediate form.  addi extends the
      sign; ori and xori do not; there is no andi that leaves the flags alone. */
  predicate Immediate(op: Op, n: int) {
    match op
    case ADD => Short(n) || HighHalf(n)
    case OR => (Short(n) && Signed(Word(n)) >= 0) || HighHalf(n)
    case XOR => (Short(n) && Signed(Word(n)) >= 0) || HighHalf(n)
    case AND => HighHalf(n)
    case _ => false
  }

  /** Values that can be moved to a register. */
  predicate Fetchable(a: Arg) {
    a.Reg? || a.Const? || a.Ind? || (a.Addr? && a.isConst)
  }

  predicate Emits(i: Ins) {
    match i
    case Move(s, Reg(_)) => Fetchable(s)
    case Move(s, Ind(_, _)) => s.Reg?
    case Move(s, Addr(p, _, _)) => (p.NameAt? || p.LabelAt?) && (s.Reg? || s.Const? || (s.Addr? && s.isConst))
    case MoveB(s, d) => (s.Reg? && (d.Reg? || d.Ind?)) || (s.Ind? && d.Reg?)
    case Alu(op, a, b, d, cc) => b.Reg? && d.Reg? && (a.Reg? || (a.Const? && !cc && Immediate(op, a.n)))
    case Cmp(a, b) => a.Reg? && b.Reg?
    case CJump(_, t) => t.Addr? && !IsName(t)
    case Jump(t) => t.Reg? || t.Addr?
    case SetLabel(_) => true
    case SetFLabel(_) => true
    case _ => false
  }

  ghost predicate AllEmit(l: seq<Ins>) {
    forall k :: 0 <= k < |l| ==> Emits(l[k])
  }

  // ---- what may go in ----

  /** The operand of an operation that comes out in a register or as an immediate. */
  predicate Operand(op: Op, a: Arg, cc: bool) {
    match a
    case Reg(_) => true
    case Ind(_, _) => true
    case Const(n) =>
      cc || op in {ADD, SUB, AND}
      || (if op in {OR, XOR} then !(Short(n) && Signed(Word(n)) < 0) else !Short(n) && !HighHalf(n))
    case _ => false
  }

  predicate ByteCodable(s: Arg, d: Arg) {
    Emits(MoveB(s, d)) || (s.Const? && (d.Ind? || IsName(d)))
  }

  /** Instructions that the pass brings into a form that can be written out. */
  predicate Codable(i: Ins) {
    match i
    case Lea(s, d) => d.Reg? && ((s.Ind? && Immediate(ADD, s.d)) || s.Addr?)
    case Move(s, d) =>
      Emits(i) || (d.Reg? && IsName(s)) || (d.Ind? && (s.Const? || (s.Addr? && s.isConst)))
    case MoveB(s, d) => ByteCodable(s, d)
    case Alu(op, a, b, d, cc) => Operand(op, a, cc) && ((d.Reg? && b.Reg?) || (d.Ind? && Fetchable(b)))
    case Not(s, d) => s.Reg? && d.Reg?
    case ZExt(s, d) => ByteCodable(s, d) && (d.Reg? || d.Ind?)
    case Step(_, x, cc) => (x.Reg? && !cc) || x.Ind?
    case Cmp(a, b) => Fetchable(a) && (Fetchable(b) || (!a.Reg? && IsName(b)))
    case CJump(_, t) => t.Addr?
    case Swap(x, y) => x.Reg? && y.Reg?
    case _ => Emits(i)
  }

  ghost predicate AllCodable(l: seq<Ins>) {
    forall k :: 0 <= k < |l| ==> Codable(l[k])
  }

  // ---- the widths of constants ----

  lemma {:induction false} CountsBits(n: nat, k: nat)
    requires k >= 1
    ensures BitCount(n) < k <==> n < Pow2(k - 1)
    decreases k
  {
    if k == 1 {
      assert BitCount(n) < 1 <==> n == 0;
    } else if n > 0 {
      CountsBits(n / 2, k - 1);
    }
  }

  lemma Two15()
    ensures Pow2(15) == 0x8000
  {
    assert Pow2(5) == 32;
    assert Pow2(10) == 32 * Pow2(5);
    assert Pow2(15) == 32 * Pow2(10);
  }

  /** What rtl_const_bitwidth says of a constant, in numbers. */
  lemma Widths(n: int)
    ensures BitWidth(n, true) < 16 <==> Short(n)
    ensures BitWidth(n, false) < 16 <==> Word(n) < 0x8000
  {
    var u := Word(n);
    Two15();
    CountsBits(u, 16);
    CountsBits(W - 1 - Word(2 * u), 16);
    if u >= W / 2 { assert Word(2 * u) == 2 * u - W; }
  }

  lemma Halves(n: int)
    ensures n % 0x1_0000 == Word(n) % 0x1_0000
    ensures HighHalf(n) ==> !Short(n) && Word(n) >= 0x1_0000
  {
    assert n == W * (n / W) + Word(n);
  }

  /** A constant stays in an operation that does not set the flags exactly when it is short, or has a high
      half only; and a short one does not stay in AND. */
  lemma Stays(op: Op, n: int, cc: bool)
    ensures NeedsReg(op, n, cc) <==> !(!cc && (HighHalf(n) || (Short(n) && op != AND)))
  {
    Widths(n);
    Halves(n);
  }

  /** The negated constant. */
  lemma Immediates(n: int)
    ensures Short(n) || HighHalf(n) ==> Immediate(ADD, n)
    ensures !NeedsReg(ADD, n, false) ==> Immediate(ADD, n)
  {
    Stays(ADD, n, false);
  }

  // ---- one instruction ----

  /** What is written before and in place of the instruction can be written out, and what is put behind
      it will be. */
  ghost predicate Comes(o: Out) {
    AllEmit(o.pre) && Emits(o.cur) && AllCodable(o.post)
  }

  lemma AllEmitJoin(a: seq<Ins>, b: seq<Ins>)
    ensures AllEmit(a + b) <==> AllEmit(a) && AllEmit(b)
  {
    if AllEmit(a + b) {
      forall k | 0 <= k < |a| ensures Emits(a[k]) { assert (a + b)[k] == a[k]; }
      forall k | 0 <= k < |b| ensures Emits(b[k]) { assert (a + b)[|a| + k] == b[k]; }
    }
  }

  lemma AllCodableJoin(a: seq<Ins>, b: seq<Ins>)
    ensures AllCodable(a + b) <==> AllCodable(a) && AllCodable(b)
  {
    if AllCodable(a + b) {
      forall k | 0 <= k < |a| ensures Codable(a[k]) { assert (a + b)[k] == a[k]; }
      forall k | 0 <= k < |b| ensures Codable(b[k]) { assert (a + b)[|a| + k] == b[k]; }
    }
  }

  lemma Ones(i: Ins, j: Ins)
    ensures AllEmit([]) && AllCodable([])
    ensures (AllEmit([i]) <==> Emits(i)) && (AllCodable([i]) <==> Codable(i))
    ensures AllCodable([i, j]) <==> Codable(i) && Codable(j)
  {
    if AllEmit([i]) { assert Emits([i][0]); }
    if AllCodable([i]) { assert Codable([i][0]); }
    if AllCodable([i, j]) { assert Codable([i, j][0]) && Codable([i, j][1]); }
  }

  /** The operand, the destination being a register by now. */
  lemma OperandComes(i: Ins, v: int)
    requires i.Alu?
    ensures var r := AluIn(AluSub(i), v);
      r.post == [] && (AllEmit(r.pre) && Emits(r.cur) <==> i.b.Reg? && i.dst.Reg? && Operand(i.op, i.a, i.cc))
  {
    var s := AluSub(i);
    var r := AluIn(s, v);
    Ones(Move(s.a, Reg(v)), i);
    if s.a.Const? {
      Stays(s.op, s.a.n, s.cc);
      Halves(s.a.n);
    }
  }

  lemma AluComes(i: Ins, v: int)
    requires i.Alu?
    ensures Comes(RewriteAlu(i, v)) <==> Codable(i)
  {
    var o := AluOut(i, v);
    var r := AluIn(AluSub(o.cur), o.v);
    OperandComes(o.cur, o.v);
    AllEmitJoin(o.pre, r.pre);
    Ones(Move(i.b, Reg(v)), i);
    Ones(Move(Reg(v), i.dst), i);
    hide AllEmit, AllCodable, AluIn, AluSub, Operand;
  }

  /** All other instructions. */
  lemma RestComes(i: Ins, v: int)
    requires !i.Alu? && !i.Step? && !i.Cmp? && !i.ZExt?
    ensures Comes(Rewrite(i, v)) <==> Codable(i)
  {
    var o := Rewrite(i, v);
    if |o.pre| == 1 { Ones(o.pre[0], i); assert o.pre == [o.pre[0]]; }
    if |o.post| == 1 { Ones(o.post[0], i); assert o.post == [o.post[0]]; }
    if |o.post| == 2 { Ones(o.post[0], o.post[1]); assert o.post == [o.post[0], o.post[1]]; }
    Ones(i, i);
    hide AllEmit, AllCodable;
    if i.Lea? && i.src.Addr? { Immediates(i.src.off); }
  }

  lemma ExtensionComes(i: Ins, v: int)
    requires i.ZExt?
    ensures Comes(Rewrite(i, v)) <==> Codable(i)
  {
    var b := MoveB(i.src, i.dst);
    var o := RewriteMoveB(b, v);
    var last := Alu(AND, Const(0xff), i.dst, i.dst, false);
    RestComes(b, v);
    AllCodableJoin(o.post, [last]);
    Ones(last, last);
    hide AllEmit, AllCodable, RewriteMoveB;
  }

  lemma ComparisonComes(i: Ins, v: int)
    requires i.Cmp?
    ensures Comes(Rewrite(i, v)) <==> Codable(i)
  {
    var o := Rewrite(i, v);
    Ones(i, i);
    if |o.post| == 1 { Ones(o.post[0], i); assert o.post == [o.post[0]]; }
    if |o.post| == 2 { Ones(o.post[0], o.post[1]); assert o.post == [o.post[0], o.post[1]]; }
    hide AllEmit, AllCodable;
  }

  lemma StepComes(i: Ins, v: int)
    requires i.Step?
    ensures Comes(Rewrite(i, v)) <==> Codable(i)
  {
    var o := Rewrite(i, v);
    Ones(i, i);
    if i.x.Ind? {
      var p := o.post;
      assert p == [p[0], p[1]] + [p[2]];
      AllCodableJoin([p[0], p[1]], [p[2]]);
      Ones(p[0], p[1]);
      Ones(p[2], i);
    }
    assert Short(1) && Short(-1);
    hide AllEmit, AllCodable;
  }

  lemma InsComes(i: Ins, v: int)
    ensures Comes(Rewrite(i, v)) <==> Codable(i)
  {
    if i.Alu? { AluComes(i, v); }
    else if i.Step? { StepComes(i, v); }
    else if i.Cmp? { ComparisonComes(i, v); }
    else if i.ZExt? { ExtensionComes(i, v); }
    else { RestComes(i, v); }
  }

  // ---- lists ----

  /** The pass over a list comes out in instructions that the assembler stage has a form for if and only if
      every instruction of the list is codable. */
  lemma {:induction false} PassEmits(l: seq<Ins>, v: int)
    ensures AllEmit(Code(l, v)) <==> AllCodable(l)
    decreases Total(l)
  {
    if l == [] {
    } else {
      var o := Rewrite(l[0], v);
      PassOne(l, v);
      InsComes(l[0], v);
      PassEmits(o.post + l[1..], o.v);
      AllEmitJoin(o.pre + [o.cur], Code(o.post + l[1..], o.v));
      AllEmitJoin(o.pre, [o.cur]);
      AllCodableJoin(o.post, l[1..]);
      AllCodableJoin([l[0]], l[1..]);
      assert l == [l[0]] + l[1..];
      Ones(l[0], l[0]);
      Ones(o.cur, o.cur);
      hide *;
    }
  }

  /** Four inputs for which something is left that cannot be written out: an address too far from its
      register, a register stepped with its flags, a multiplication by a small constant, and a comparison
      with what a name holds. */
  lemma LeftOver(v: int)
    ensures !AllEmit(Code([Lea(Ind(0, 0x1_2345), Reg(1))], v))
    ensures !AllEmit(Code([Step(true, Reg(0), true)], v))
    ensures !AllEmit(Code([Alu(MUL, Const(10), Reg(0), Reg(0), false)], v))
    ensures !AllEmit(Code([Cmp(Addr(NameAt("x"), false, 0), Reg(0))], v))
  {
    Uncodable(Lea(Ind(0, 0x1_2345), Reg(1)), v);
    Uncodable(Step(true, Reg(0), true), v);
    Uncodable(Alu(MUL, Const(10), Reg(0), Reg(0), false), v);
    Uncodable(Cmp(Addr(NameAt("x"), false, 0), Reg(0)), v);
  }

  lemma Uncodable(i: Ins, v: int)
    requires !Codable(i)
    ensures !AllEmit(Code([i], v))
  {
    PassEmits([i], v);
    Ones(i, i);
  }
}
