/** A block of instructions that the prevalidation rewrites in place: instructions change their type and
    operands and new ones are spliced in around them. */
module PpcBlock {
  import opened Common
  import opened PpcRtl
  import opened PpcPass
  import opened PpcKeeps
  import opened PpcList

  /** The list c with the instruction at position k replaced by what o says. */
  function Spliced(c: seq<Ins>, k: nat, o: Out): seq<Ins>
    requires k < |c|
  {
    c[..k] + Lined(o) + c[k + 1..]
  }

  /** Splicing at the instruction that an earlier splice left in the middle. */
  lemma SplicedInside(c: seq<Ins>, k: nat, o: Out, x: Ins, r: Out)
    requires k < |c| && r.post == []
    ensures Spliced(Spliced(c, k, o.(cur := x)), k + |o.pre|, r)
      == Spliced(c, k, Out.Out(o.pre + r.pre, r.cur, o.post, r.v))
  {
    var d, h := Spliced(c, k, o.(cur := x)), k + |o.pre|;
    assert d == (c[..k] + o.pre) + [x] + (o.post + c[k + 1..]);
    assert d[..h] == c[..k] + o.pre;
    assert d[h + 1..] == o.post + c[k + 1..];
  }

  /** Changing the instruction in the middle of a splice. */
  lemma SplicedChange(c: seq<Ins>, k: nat, o: Out, x: Ins)
    requires k < |c|
    ensures k + |o.pre| < |Spliced(c, k, o)| && Spliced(c, k, o)[k + |o.pre|] == o.cur
    ensures Spliced(c, k, o)[k + |o.pre| := x] == Spliced(c, k, o.(cur := x))
    ensures Spliced(c, k, o.(cur := x))[k + |o.pre|] == x
  {
    assert Spliced(c, k, o) == (c[..k] + o.pre) + [o.cur] + (o.post + c[k + 1..]);
    assert Spliced(c, k, o.(cur := x)) == (c[..k] + o.pre) + [x] + (o.post + c[k + 1..]);
  }

  class Block {
    var code: seq<Ins>
    var nextReg: int

    constructor (c: seq<Ins>, v: int)
      ensures code == c && nextReg == v
    {
      code, nextReg := c, v;
    }

    /** rtl_get_newvreg. */
    method NewReg() returns (v: int)
      modifies `nextReg
      ensures v == old(nextReg) && nextReg == v + 1
    {
      v := nextReg;
      nextReg := nextReg + 1;
    }

    method Change(k: nat, i: Ins)
      requires k < |code|
      modifies `code
      ensures code == old(code)[..k] + [i] + old(code)[k + 1..]
    {
      code := code[..k] + [i] + code[k + 1..];
    }

    method InsertBefore(k: nat, i: Ins)
      requires k < |code|
      modifies `code
      ensures code == old(code)[..k] + [i] + old(code)[k..]
    {
      code := code[..k] + [i] + code[k..];
    }

    method InsertAfter(k: nat, i: Ins)
      requires k < |code|
      modifies `code
      ensures code == old(code)[..k + 1] + [i] + old(code)[k + 1..]
    {
      code := code[..k + 1] + [i] + code[k + 1..];
    }

    method DoLea(k: nat)
      requires k < |code| && code[k].Lea?
      modifies `code
      ensures code == Spliced(old(code), k, RewriteLea(old(code)[k], nextReg))
    {
      var i := code[k];
      if i.dst.Reg? {
        match i.src
        case Ind(r, d) => Change(k, Alu(ADD, Const(d), Reg(r), i.dst, false));
        case Addr(p, c, d) =>
          Change(k, Move(AddressOf(i.src), i.dst));
          if d != 0 { InsertAfter(k, Alu(ADD, Const(d), i.dst, i.dst, false)); }
        case _ =>
      }
    }

    method DoMoveB(k: nat)
      requires k < |code| && code[k].MoveB?
      modifies this
      ensures var o := RewriteMoveB(old(code)[k], old(nextReg)); code == Spliced(old(code), k, o) && nextReg == o.v
    {
      var i := code[k];
      if i.src.Const? && i.dst.Ind? {
        var v := NewReg();
        Change(k, Move(i.src, Reg(v)));
        InsertAfter(k, MoveB(Reg(v), i.dst));
      } else if i.src.Const? && IsName(i.dst) {
        var v := NewReg();
        Change(k, Move(i.dst.(isConst := true), Reg(v)));
        InsertAfter(k, Move(i.src, Reg(v)));
        InsertAfter(k + 1, MoveB(Reg(v), Ind(v, 0)));
      }
    }

    method DoMove(k: nat)
      requires k < |code| && code[k].Move?
      modifies this
      ensures var o := RewriteMove(old(code)[k], old(nextReg)); code == Spliced(old(code), k, o) && nextReg == o.v
    {
      var s, d := code[k].src, code[k].dst;
      if IsName(d) && s.Const? {
        var v := NewReg();
        var u := NewReg();
        Change(k, Move(AddressOf(d), Reg(u)));
        InsertAfter(k, Move(s, Reg(v)));
        InsertAfter(k + 1, Move(Reg(v), Ind(u, 0)));
      } else if IsName(d) && s.Reg? {
        var v := NewReg();
        Change(k, Move(AddressOf(d), Reg(v)));
        InsertAfter(k, Move(s, Ind(v, 0)));
      } else if d.Reg? && IsName(s) {
        if !s.isConst {
          var v := NewReg();
          Change(k, Move(s.(isConst := true), Reg(v)));
          InsertAfter(k, Move(Ind(v, 0), d));
        }
      } else if d.Ind? && (s.Const? || (s.Addr? && s.isConst)) {
        var v := NewReg();
        Change(k, Move(s, Reg(v)));
        InsertAfter(k, Move(Reg(v), d));
      }
    }

    /** First part of the arithmetic case: a destination in memory. */
    method DoAluOut(k: nat) returns (here: nat)
      requires k < |code| && code[k].Alu?
      modifies this
      ensures var o := AluOut(old(code)[k], old(nextReg));
        code == Spliced(old(code), k, o) && nextReg == o.v && here == k + |o.pre|
    {
      here := k;
      var i := code[k];
      if i.dst.Ind? {
        var v := NewReg();
        Change(k, i.(b := Reg(v), dst := Reg(v)));
        InsertBefore(k, Move(i.b, Reg(v)));
        here := k + 1;
        InsertAfter(here, Move(Reg(v), i.dst));
      }
    }

    /** Last part: an operand that has to be in a register. */
    method DoAluIn(k: nat) returns (here: nat)
      requires k < |code| && code[k].Alu?
      modifies this
      ensures var o := AluIn(old(code)[k], old(nextReg));
        code == Spliced(old(code), k, o) && nextReg == o.v && here == k + |o.pre|
    {
      here := k;
      var i := code[k];
      if i.a.Const? && Shiftable(i.a.n, i.cc) {
      } else if i.a.Const? && (i.cc || BitWidth(i.a.n, true) >= 16 || i.op == AND) {
        var v := NewReg();
        Change(k, Alu(i.op, Reg(v), i.b, i.dst, i.cc));
        InsertBefore(k, Move(i.a, Reg(v)));
        here := k + 1;
      }
      if i.a.Ind? && i.b.Reg? && i.dst.Reg? {
        var v := NewReg();
        Change(k, Alu(i.op, Reg(v), i.b, i.dst, i.cc));
        InsertBefore(k, Move(i.a, Reg(v)));
        here := k + 1;
      }
    }

    /** Second part: a constant subtracted is added negated. */
    method DoAluSub(k: nat)
      requires k < |code| && code[k].Alu?
      modifies `code
      ensures code == old(code)[k := AluSub(old(code)[k])]
    {
      var i := code[k];
      if i.a.Const? && i.op == SUB {
        Change(k, i.(op := ADD, a := Const(Negated(i.a.n))));
      }
    }

    method DoAlu(k: nat) returns (here: nat)
      requires k < |code| && code[k].Alu?
      modifies this
      ensures var o := RewriteAlu(old(code)[k], old(nextReg));
        code == Spliced(old(code), k, o) && nextReg == o.v && here == k + |o.pre|
    {
      ghost var c0, o := code, AluOut(code[k], nextReg);
      here := DoAluOut(k);
      SplicedChange(c0, k, o, AluSub(o.cur));
      DoAluSub(here);
      SplicedInside(c0, k, o, AluSub(o.cur), AluIn(AluSub(o.cur), nextReg));
      here := DoAluIn(here);
    }

    method DoStep(k: nat)
      requires k < |code| && code[k].Step?
      modifies this
      ensures var o := RewriteStep(old(code)[k], old(nextReg)); code == Spliced(old(code), k, o) && nextReg == o.v
    {
      var i := code[k];
      if i.x.Reg? {
        Change(k, Alu(ADD, Const(if i.up then 1 else -1), i.x, i.x, i.cc));
      } else if i.x.Ind? {
        var v := NewReg();
        Change(k, Move(i.x, Reg(v)));
        InsertAfter(k, Alu(if i.up then ADD else SUB, Const(1), Reg(v), Reg(v), false));
        InsertAfter(k + 1, Move(Reg(v), i.x));
        InsertAfter(k + 2, Cmp(Const(0), Reg(v)));
      }
    }

    method DoCmp(k: nat)
      requires k < |code| && code[k].Cmp?
      modifies this
      ensures var o := RewriteCmp(old(code)[k], old(nextReg)); code == Spliced(old(code), k, o) && nextReg == o.v
    {
      var here, i := k, code[k];
      if !i.a.Reg? {
        var v := NewReg();
        Change(k, Move(i.a, Reg(v)));
        i := Cmp(Reg(v), i.b);
        InsertAfter(k, i);
        here := k + 1;
      }
      if !i.b.Reg? {
        var v := NewReg();
        Change(here, Move(i.b, Reg(v)));
        InsertAfter(here, Cmp(i.a, Reg(v)));
      }
    }

    method DoJump(k: nat)
      requires k < |code| && code[k].CJump?
      modifies `code
      ensures code == Spliced(old(code), k, RewriteJump(old(code)[k], nextReg))
    {
      var i := code[k];
      if IsName(i.t) {
        Change(k, CJump(Flip(i.cond), Addr(FLabelAt(7), false, 0)));
        InsertAfter(k, Jump(i.t));
        InsertAfter(k + 1, SetFLabel(7));
      }
    }

    method DoSwap(k: nat) returns (here: nat)
      requires k < |code| && code[k].Swap?
      modifies this
      ensures var o := RewriteSwap(old(code)[k], old(nextReg));
        code == Spliced(old(code), k, o) && nextReg == o.v && here == k + |o.pre|
    {
      here := k;
      var i := code[k];
      if i.x.Reg? && i.y.Reg? {
        var v := NewReg();
        Change(k, Move(i.y, i.x));
        InsertBefore(k, Move(i.x, Reg(v)));
        here := k + 1;
        InsertAfter(here, Move(Reg(v), i.y));
      }
    }

    method DoNot(k: nat) returns (here: nat)
      requires k < |code| && code[k].Not?
      modifies this
      ensures var o := Rewrite(old(code)[k], old(nextReg));
        code == Spliced(old(code), k, o) && nextReg == o.v && here == k + |o.pre|
    {
      var i := code[k];
      var v := NewReg();
      Change(k, Alu(XOR, Reg(v), i.src, i.dst, false));
      InsertBefore(k, Move(Const(-1), Reg(v)));
      here := k + 1;
    }

    /** One round of the case analysis, for anything but a zero extension. */
    method Once(k: nat) returns (here: nat)
      requires k < |code| && !code[k].ZExt?
      modifies this
      ensures var o := Rewrite(old(code)[k], old(nextReg));
        code == Spliced(old(code), k, o) && nextReg == o.v && here == k + |o.pre|
    {
      here := k;
      match code[k]
      case Lea(_, _) => DoLea(k);
      case MoveB(_, _) => DoMoveB(k);
      case Move(_, _) => DoMove(k);
      case Alu(_, _, _, _, _) => here := DoAlu(k);
      case Not(_, _) => here := DoNot(k);
      case Step(_, _, _) => DoStep(k);
      case Cmp(_, _) => DoCmp(k);
      case CJump(_, _) => DoJump(k);
      case Swap(_, _) => here := DoSwap(k);
      case _ =>
    }

    /** rtl_prevalidate_instr_ppc: rewrite the instruction at k, going round again after a zero extension
        has become a byte move.  The position it ends up at is returned. */
    method Prevalidate(k: nat) returns (here: nat)
      requires k < |code|
      modifies this
      ensures var o := Rewrite(old(code)[k], old(nextReg));
        code == Spliced(old(code), k, o) && nextReg == o.v && here == k + |o.pre|
    {
      ghost var c0, i0 := code, code[k];
      var redo := true;
      here := k;
      while redo
        invariant redo ==> here == k < |code| && nextReg == old(nextReg)
        invariant redo && code != c0 ==> i0.ZExt? && code[k] == MoveB(i0.src, i0.dst)
        invariant redo && code != c0 ==>
          code == c0[..k] + [MoveB(i0.src, i0.dst), Alu(AND, Const(0xff), i0.dst, i0.dst, false)] + c0[k + 1..]
        invariant !redo ==> code == Spliced(c0, k, Rewrite(i0, old(nextReg))) && nextReg == Rewrite(i0, old(nextReg)).v
        invariant !redo ==> here == k + |Rewrite(i0, old(nextReg)).pre|
        decreases if !redo then 0 else if code[k].ZExt? then 2 else 1
      {
        redo := false;
        var i := code[k];
        if i.ZExt? {
          Change(k, MoveB(i.src, i.dst));
          InsertAfter(k, Alu(AND, Const(0xff), i.dst, i.dst, false));
          redo := true;
        } else {
          ghost var c1 := code;
          here := Once(k);
          if i0.ZExt? { assert c1[k + 1..] == [Alu(AND, Const(0xff), i0.dst, i0.dst, false)] + c0[k + 1..]; }
        }
      }
    }

    /** One instruction further on, the pass has as much to do with what is left. */
    static lemma OneOn(c: seq<Ins>, k: nat, v: int)
      requires k < |c|
      ensures var o := Rewrite(c[k], v); var t, n := Spliced(c, k, o), k + |o.pre| + 1;
        n <= |t| && t[..n] + Code(t[n..], o.v) == c[..k] + Code(c[k..], v) && Next(t[n..], o.v) == Next(c[k..], v)
        && Total(t[n..]) < Total(c[k..])
    {
      PassOne(c[k..], v);
      hide Rewrite, Pass, Code, Next, Total;
      var o := Rewrite(c[k], v);
      var t, n := Spliced(c, k, o), k + |o.pre| + 1;
      assert c[k..][0] == c[k] && c[k..][1..] == c[k + 1..];
      assert t[..n] == c[..k] + (o.pre + [o.cur]) && t[n..] == o.post + c[k + 1..];
      Assoc(c[..k], o.pre + [o.cur], Code(t[n..], o.v));
    }

    /** rtl_prevalidate_rtl: go along the list, through everything that is put behind an instruction. */
    method PrevalidateAll()
      modifies this
      ensures code == Code(old(code), old(nextReg)) && nextReg == Next(old(code), old(nextReg))
    {
      NothingLeft();
      hide Rewrite, Spliced, Code, Next, Total;
      var k: nat := 0;
      assert code[..0] == [] && code[0..] == code;
      while k < |code|
        invariant k <= |code|
        invariant code[..k] + Code(code[k..], nextReg) == Code(old(code), old(nextReg))
        invariant Next(code[k..], nextReg) == Next(old(code), old(nextReg))
        decreases Total(code[k..])
      {
        OneOn(code, k, nextReg);
        k := Prevalidate(k);
        k := k + 1;
      }
      assert code[..k] == code && code[k..] == [];
    }

    static lemma NothingLeft()
      ensures forall v :: Code([], v) == [] && Next([], v) == v
    {
    }
  }
}
