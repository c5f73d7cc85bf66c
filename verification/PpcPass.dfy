/** What the prevalidation makes of one instruction and of a list. */
module PpcPass {
  import opened Common
  import opened PpcRtl

  // ---- the size of constants ----

  function BitCount(n: nat): nat {
    if n == 0 then 0 else 1 + BitCount(n / 2)
  }

  /** rtl_const_bitwidth. */
  function BitWidth(n: int, signed: bool): nat {
    var u := Word(n);
    if u == 0 then 1
    else if signed && u >= W / 2 then BitCount(W - 1 - Word(2 * u))
    else BitCount(u)
  }

  /** The constant can be used shifted, its low half being zero. */
  predicate Shiftable(n: int, cc: bool) {
    !cc && BitWidth(n, false) >= 16 && n % 0x1_0000 == 0
  }

  /** The constant has to be in a register. */
  predicate NeedsReg(op: Op, n: int, cc: bool) {
    !Shiftable(n, cc) && (cc || BitWidth(n, true) >= 16 || op == AND)
  }

  /** Negation of a 32-bit constant. */
  function Negated(n: int): int {
    if n == -(W / 2) then n else -n
  }

  // ---- one instruction ----

  /** The instruction in place, what is put before and after it, and the next fresh register. */
  datatype Out = Out(pre: seq<Ins>, cur: Ins, post: seq<Ins>, v: int)

  predicate IsName(a: Arg) { a.Addr? && a.p.NameAt? }

  function AddressOf(a: Arg): Arg
    requires a.Addr?
  {
    a.(isConst := true, off := 0)
  }

  function RewriteLea(i: Ins, v: int): Out
    requires i.Lea?
  {
    if !i.dst.Reg? then Out([], i, [], v)
    else match i.src
      case Ind(r, d) => Out([], Alu(ADD, Const(d), Reg(r), i.dst, false), [], v)
      case Addr(p, c, d) =>
        Out([], Move(AddressOf(i.src), i.dst), if d == 0 then [] else [Alu(ADD, Const(d), i.dst, i.dst, false)], v)
      case _ => Out([], i, [], v)
  }

  function RewriteMoveB(i: Ins, v: int): Out
    requires i.MoveB?
  {
    if i.src.Const? && i.dst.Ind? then Out([], Move(i.src, Reg(v)), [MoveB(Reg(v), i.dst)], v + 1)
    else if i.src.Const? && IsName(i.dst) then
      Out([], Move(i.dst.(isConst := true), Reg(v)), [Move(i.src, Reg(v)), MoveB(Reg(v), Ind(v, 0))], v + 1)
    else Out([], i, [], v)
  }

  function RewriteMove(i: Ins, v: int): Out
    requires i.Move?
  {
    var (s, d) := (i.src, i.dst);
    if IsName(d) && s.Const? then
      Out([], Move(AddressOf(d), Reg(v + 1)), [Move(s, Reg(v)), Move(Reg(v), Ind(v + 1, 0))], v + 2)
    else if IsName(d) && s.Reg? then
      Out([], Move(AddressOf(d), Reg(v)), [Move(s, Ind(v, 0))], v + 1)
    else if d.Reg? && IsName(s) && !s.isConst then
      Out([], Move(s.(isConst := true), Reg(v)), [Move(Ind(v, 0), d)], v + 1)
    else if d.Ind? && (s.Const? || (s.Addr? && s.isConst)) then
      Out([], Move(s, Reg(v)), [Move(Reg(v), d)], v + 1)
    else Out([], i, [], v)
  }

  /** The destination is memory: work in a register. */
  function AluOut(i: Ins, v: int): Out
    requires i.Alu?
    ensures AluOut(i, v).cur.Alu?
  {
    if i.dst.Ind? then Out([Move(i.b, Reg(v))], i.(b := Reg(v), dst := Reg(v)), [Move(Reg(v), i.dst)], v + 1)
    else Out([], i, [], v)
  }

  /** A constant subtracted is added negated. */
  function AluSub(i: Ins): Ins
    requires i.Alu?
    ensures AluSub(i).Alu?
  {
    if i.op == SUB && i.a.Const? then i.(op := ADD, a := Const(Negated(i.a.n))) else i
  }

  /** An operand that cannot stay where it is goes to a register. */
  function AluIn(i: Ins, v: int): Out
    requires i.Alu?
  {
    if (i.a.Const? && NeedsReg(i.op, i.a.n, i.cc)) || (i.a.Ind? && i.b.Reg? && i.dst.Reg?) then
      Out([Move(i.a, Reg(v))], Alu(i.op, Reg(v), i.b, i.dst, i.cc), [], v + 1)
    else Out([], i, [], v)
  }

  function RewriteAlu(i: Ins, v: int): Out
    requires i.Alu?
  {
    var o := AluOut(i, v);
    var r := AluIn(AluSub(o.cur), o.v);
    Out(o.pre + r.pre, r.cur, o.post, r.v)
  }

  function RewriteStep(i: Ins, v: int): Out
    requires i.Step?
  {
    if i.x.Reg? then Out([], Alu(ADD, Const(if i.up then 1 else -1), i.x, i.x, i.cc), [], v)
    else if i.x.Ind? then
      Out([], Move(i.x, Reg(v)),
          [Alu(if i.up then ADD else SUB, Const(1), Reg(v), Reg(v), false), Move(Reg(v), i.x),
           Cmp(Const(0), Reg(v))], v + 1)
    else Out([], i, [], v)
  }

  /** The second part of the comparison case. */
  function CmpSecond(i: Ins, v: int): Out
    requires i.Cmp?
  {
    if !i.b.Reg? then Out([], Move(i.b, Reg(v)), [Cmp(i.a, Reg(v))], v + 1) else Out([], i, [], v)
  }

  function RewriteCmp(i: Ins, v: int): Out
    requires i.Cmp?
  {
    if !i.a.Reg? then
      var o := CmpSecond(Cmp(Reg(v), i.b), v + 1);
      Out([], Move(i.a, Reg(v)), [o.cur] + o.post, o.v)
    else CmpSecond(i, v)
  }

  function RewriteSwap(i: Ins, v: int): Out
    requires i.Swap?
  {
    if i.x.Reg? && i.y.Reg? then Out([Move(i.x, Reg(v))], Move(i.y, i.x), [Move(Reg(v), i.y)], v + 1)
    else Out([], i, [], v)
  }

  function RewriteJump(i: Ins, v: int): Out
    requires i.CJump?
  {
    if IsName(i.t) then
      Out([], CJump(Flip(i.cond), Addr(FLabelAt(7), false, 0)), [Jump(i.t), SetFLabel(7)], v)
    else Out([], i, [], v)
  }

  /** The whole of rtl_prevalidate_instr_ppc, with its second round for zero extension. */
  function Rewrite(i: Ins, v: int): Out {
    match i
    case Lea(_, _) => RewriteLea(i, v)
    case MoveB(_, _) => RewriteMoveB(i, v)
    case Move(_, _) => RewriteMove(i, v)
    case Alu(_, _, _, _, _) => RewriteAlu(i, v)
    case Not(s, d) => Out([Move(Const(-1), Reg(v))], Alu(XOR, Reg(v), s, d, false), [], v + 1)
    case ZExt(s, d) =>
      var o := RewriteMoveB(MoveB(s, d), v);
      o.(post := o.post + [Alu(AND, Const(0xff), d, d, false)])
    case Step(_, _, _) => RewriteStep(i, v)
    case Cmp(_, _) => RewriteCmp(i, v)
    case CJump(_, _) => RewriteJump(i, v)
    case Swap(_, _) => RewriteSwap(i, v)
    case _ => Out([], i, [], v)
  }

  // ---- a list ----

  /** More than everything that is put after the instruction weighs. */
  function Weight(i: Ins): (w: nat)
    ensures w >= 1
  {
    match i
    case Lea(_, _) => 5
    case MoveB(s, d) => if s.Const? && !d.Reg? then 5 else 1
    case Move(s, d) =>
      if d.Reg? && !(IsName(s) && !s.isConst) then 1 else if d.Ind? && s.Reg? then 1 else if d.Reg? then 3 else 5
    case Alu(_, _, _, d, _) => if d.Ind? then 3 else 1
    case ZExt(_, _) => 10
    case Step(_, _, _) => 20
    case Cmp(a, b) => (if a.Reg? then 0 else 4) + (if b.Reg? then 1 else 3)
    case CJump(_, t) => if IsName(t) then 4 else 1
    case Swap(_, _) => 3
    case _ => 1
  }

  function Total(l: seq<Ins>): nat {
    if l == [] then 0 else Weight(l[0]) + Total(l[1..])
  }

  lemma {:induction false} TotalSplit(a: seq<Ins>, b: seq<Ins>)
    ensures Total(a + b) == Total(a) + Total(b)
    decreases |a|
  {
    if a == [] { assert a + b == b; }
    else {
      assert (a + b)[1..] == a[1..] + b;
      TotalSplit(a[1..], b);
    }
  }

  lemma TotalFew(p: seq<Ins>)
    requires |p| <= 3
    ensures Total(p) == (if |p| > 0 then Weight(p[0]) else 0) + (if |p| > 1 then Weight(p[1]) else 0)
      + (if |p| > 2 then Weight(p[2]) else 0)
  {
    if |p| > 0 { assert Total(p) == Weight(p[0]) + Total(p[1..]); }
    if |p| > 1 { assert Total(p[1..]) == Weight(p[1]) + Total(p[1..][1..]) && p[1..][1..] == p[2..]; }
    if |p| > 2 { assert Total(p[2..]) == Weight(p[2]) + Total(p[2..][1..]) && p[2..][1..] == []; }
  }

  lemma Lighter(i: Ins, v: int)
    ensures Total(Rewrite(i, v).post) < Weight(i)
  {
    hide Total, BitWidth;
    TotalFew(Rewrite(i, v).post);
  }
}
