/** The translator state that the compose functions update, and the compose functions themselves: each
    appends its instructions to the chain, one at a time, and takes new labels and registers. */
module Compose386 {
  import opened Common
  import opened Machine386
  import opened Arith386
  import opened Inline386

  /** The instructions composed so far, followed by rest. */
  function After(s: seq<Ins>, rest: Chain): Chain
    decreases |s|
  {
    if s == [] then rest else Cons(s[0], After(s[1..], rest))
  }

  lemma {:induction false} AfterSnoc(s: seq<Ins>, i: Ins, rest: Chain)
    ensures After(s + [i], rest) == After(s, Cons(i, rest))
    decreases |s|
  {
    if s != [] {
      assert (s + [i])[1..] == s[1..] + [i];
      AfterSnoc(s[1..], i, rest);
    } else {
      assert s + [i] == [i];
    }
  }

  datatype LongOp = LSHL | LSHR | LMUL | LSUM | LDIFF

  class Translator {
    var chain: seq<Ins>
    var lastLab: int
    var regCounter: nat
    var oldA: Reg
    var oldB: Reg
    var oldC: Reg
    var aReg: Option<Reg>
    var bReg: Option<Reg>
    var consts: map<Reg, int>             // constmap: registers known to hold constants

    constructor (a: Reg, b: Reg, c: Reg, firstReg: nat, known: map<Reg, int>)
      ensures chain == [] && lastLab == 0 && regCounter == firstReg && consts == known
      ensures oldA == a && oldB == b && oldC == c && aReg == None && bReg == None
    {
      chain, lastLab, regCounter, consts := [], 0, firstReg, known;
      oldA, oldB, oldC, aReg, bReg := a, b, c, None, None;
    }

    /** The operands are in registers taken earlier. */
    ghost predicate Fresh()
      reads this
    {
      && oldA.V? && oldA.n < regCounter && oldB.V? && oldB.n < regCounter && oldC.V? && oldC.n < regCounter
      && oldA != oldB && oldB != oldC && oldA != oldC
    }

    /** The constant a register holds, if that is known. */
    function Const(r: Reg): Option<int>
      reads this
    {
      if r in consts then Some(consts[r]) else None
    }

    /** add_to_ins_chain. */
    method Emit(i: Ins)
      modifies `chain
      ensures chain == old(chain) + [i]
      ensures forall rest :: After(chain, rest) == After(old(chain), Cons(i, rest))
    {
      forall rest ensures After(chain + [i], rest) == After(chain, Cons(i, rest)) { AfterSnoc(chain, i, rest); }
      chain := chain + [i];
    }

    method NewReg() returns (r: Reg)
      modifies `regCounter
      ensures r == V(old(regCounter)) && regCounter == old(regCounter) + 1
    {
      r := V(regCounter);
      regCounter := regCounter + 1;
    }

    method NewLabel() returns (l: int)
      modifies `lastLab
      ensures l == lastLab == old(lastLab) + 1
    {
      lastLab := lastLab + 1;
      l := lastLab;
    }

    method QuickReschedule()
      modifies `chain
      ensures forall rest :: After(chain, rest) == After(old(chain), QuickCode(rest))
    {
      Emit(Cm(CmpC(Num(0), Fptr)));
      Emit(CJump(NE, FLab(2)));
      Emit(Leave(OccScheduler));
      Emit(SetLabel(FLab(2)));
      Emit(Mv(MovR(Fptr, Wptr)));
      Emit(Mv(Ld(Fptr, LINK, Fptr)));
      Emit(Leave(Resume));
    }

    method Enqueue(p: Reg, f: int)
      modifies `chain
      ensures forall rest :: After(chain, rest) == After(old(chain), EnqueueCode(p, f, rest))
    {
      Emit(Mv(StC(Num(0), p, LINK)));
      Emit(Cm(CmpC(Num(0), Fptr)));
      Emit(CJump(NE, FLab(f)));
      Emit(Mv(MovR(p, Fptr)));
      Emit(Jump(FLab(f + 1)));
      Emit(SetLabel(FLab(f)));
      Emit(Mv(St(p, Bptr, LINK)));
      Emit(SetLabel(FLab(f + 1)));
      Emit(Mv(MovR(p, Bptr)));
    }

    method FullReschedule()
      modifies `chain, `regCounter
      ensures regCounter == old(regCounter) + 2
      ensures forall rest :: (After(chain, rest)
        == After(old(chain), FullCode(V(old(regCounter)), V(old(regCounter) + 1), rest)))
    {
      var t := NewReg();
      var u := NewReg();
      Emit(Mv(Lea(SYNC, u)));
      Emit(Mv(Ld(u, 0, t)));
      Emit(Cm(OrM(u, 4, t)));
      Emit(CJump(E, FLab(3)));
      Emit(Mv(StC(Code(FLab(0)), Wptr, IPTR)));
      Emit(Mv(StC(Num(0), Wptr, LINK)));
      Emit(Cm(OrR(Fptr, Fptr)));
      Emit(CJump(E, FLab(1)));
      Emit(Mv(St(Wptr, Bptr, LINK)));
      Emit(Jump(FLab(2)));
      Emit(SetLabel(FLab(1)));
      Emit(Mv(MovR(Wptr, Fptr)));
      Emit(SetLabel(FLab(2)));
      Emit(Mv(MovR(Wptr, Bptr)));
      Emit(Leave(OccScheduler));
      Emit(SetLabel(FLab(3)));
      Emit(Cm(OrR(Fptr, Fptr)));
      Emit(CJump(E, FLab(0)));
      Emit(Mv(StC(Num(0), Wptr, LINK)));
      Emit(Mv(StC(Code(FLab(0)), Wptr, IPTR)));
      Emit(Cm(CmpR(Fptr, Bptr)));
      Emit(CJump(E, FLab(4)));
      Emit(Mv(St(Wptr, Bptr, LINK)));
      Emit(Mv(MovR(Wptr, Bptr)));
      Emit(Mv(MovR(Fptr, Wptr)));
      Emit(Mv(Ld(Fptr, LINK, Fptr)));
      Emit(Leave(Resume));
      Emit(SetLabel(FLab(4)));
      Emit(Mv(Swap(Wptr, Fptr)));
      Emit(Mv(MovR(Fptr, Bptr)));
      Emit(Leave(Resume));
      Emit(SetLabel(FLab(0)));
    }

    /** The two loops that compose a copy of a known size. */
    method Copy(src: Reg, dst: Reg, t: Reg, size: nat)
      modifies `chain
      ensures forall rest :: After(chain, rest) == After(old(chain), CopyCode(src, dst, t, 0, size, rest))
    {
      hide After;
      var left, offset := size, 0;
      while left > 3
        invariant left + offset == size
        invariant forall rest :: (After(chain, CopyCode(src, dst, t, offset, left, rest))
          == After(old(chain), CopyCode(src, dst, t, 0, size, rest)))
      {
        Emit(By(Ld4(src, offset, t)));
        Emit(By(St4(t, dst, offset)));
        offset := offset + 4;
        left := left - 4;
      }
      while left > 0
        invariant left <= 3 && left + offset == size
        invariant forall rest :: (After(chain, CopyCode(src, dst, t, offset, left, rest))
          == After(old(chain), CopyCode(src, dst, t, 0, size, rest)))
      {
        Emit(By(Ld1(src, offset, t)));
        Emit(By(St1(t, dst, offset)));
        offset := offset + 1;
        left := left - 1;
      }
    }

    /** What is known of the size of an input: the width in bits; without a width, a constant in the first
        register if it is not zero; otherwise only the register. */
    function SizeOf(width: nat): Size
      requires width == 0 ==> Const(oldA) == None || Const(oldA).value >= 0
      reads this
    {
      if width > 0 then Fixed(width / 8)
      else if oldA in consts && consts[oldA] != 0 then Fixed(consts[oldA])
      else Held(oldA)
    }

    /** compose_inline_in_2_i386.  A negative constant size would keep the copying loop from ending. */
    method In(width: nat)
      requires width == 0 ==> Const(oldA) == None || Const(oldA).value >= 0
      requires width == 0 || width >= 8
      modifies `chain, `regCounter
      ensures regCounter == old(regCounter) + Temps(SizeOf(width))
      ensures forall rest :: (After(chain, rest) == After(old(chain),
        InputCode(InChan(width), InDest(width), SizeOf(width), old(regCounter), rest)))
    {
      Input(InChan(width), InDest(width), SizeOf(width));
    }

    /** The channel and the destination, behind the count if there is one. */
    function InChan(width: nat): Reg
      reads this
    {
      if width > 0 then oldA else oldB
    }

    function InDest(width: nat): Reg
      reads this
    {
      if width > 0 then oldB else oldC
    }

    ghost function InputCode(ch: Reg, dst: Reg, size: Size, k: nat, rest: Chain): Chain {
      InCode(ch, dst, V(k), V(k + 1), V(k + 2), size, rest)
    }

    /** How many registers an input takes. */
    function Temps(size: Size): nat {
      if Short(size) then 3 else if size.Fixed? then 2 else 1
    }

    method Input(ch: Reg, dst: Reg, size: Size)
      modifies `chain, `regCounter
      ensures regCounter == old(regCounter) + Temps(size)
      ensures forall rest :: After(chain, rest) == After(old(chain), InputCode(ch, dst, size, old(regCounter), rest))
    {
      hide After, MessageCode, QuickCode;
      Emit(Cm(CmpCM(Num(0), ch, 0)));
      Emit(CJump(NE, FLab(0)));
      Emit(Mv(St(Wptr, ch, 0)));
      Emit(Mv(St(dst, Wptr, PTR)));
      Emit(Mv(StC(Code(FLab(1)), Wptr, IPTR)));
      QuickReschedule();
      Emit(SetLabel(FLab(0)));
      Take(ch, dst, size);
    }

    /** The channel is ready: enqueue the outputter, clear the channel, copy. */
    method Take(ch: Reg, dst: Reg, size: Size)
      modifies `chain, `regCounter
      ensures regCounter == old(regCounter) + Temps(size)
      ensures forall rest :: (After(chain, rest) == After(old(chain),
        TakeCode(ch, dst, V(old(regCounter)), V(old(regCounter) + 1), V(old(regCounter) + 2), size, rest)))
    {
      hide After, MessageCode, EnqueueCode, Temps;
      var t := NewReg();
      Release(ch, t);
      Message(t, dst, size);
      Emit(SetLabel(FLab(1)));
    }

    /** Enqueue the outputter and clear the channel. */
    method Release(ch: Reg, t: Reg)
      modifies `chain
      ensures forall rest :: (After(chain, rest)
        == After(old(chain), Cons(Mv(Ld(ch, 0, t)), EnqueueCode(t, 2, Cons(Mv(StC(Num(0), ch, 0)), rest)))))
    {
      hide After, EnqueueCode;
      Emit(Mv(Ld(ch, 0, t)));
      Enqueue(t, 2);
      Emit(Mv(StC(Num(0), ch, 0)));
    }

    method Message(t: Reg, dst: Reg, size: Size)
      modifies `chain, `regCounter
      ensures regCounter == old(regCounter) + Temps(size) - 1
      ensures forall rest :: (After(chain, rest)
        == After(old(chain), MessageCode(t, dst, V(old(regCounter)), V(old(regCounter) + 1), size, rest)))
    {
      hide After, MessageCode;
      if Short(size) { CopyMessage(t, dst, size); } else { MoveMessage(t, dst, size); }
    }

    /** Find a short message and copy it. */
    method CopyMessage(t: Reg, dst: Reg, size: Size)
      requires Short(size)
      modifies `chain, `regCounter
      ensures regCounter == old(regCounter) + 2
      ensures forall rest :: (After(chain, rest)
        == After(old(chain), MessageCode(t, dst, V(old(regCounter)), V(old(regCounter) + 1), size, rest)))
    {
      hide After;
      var u := NewReg();
      var v := NewReg();
      Emit(Mv(Ld(t, PTR, u)));
      Copy(u, dst, v, size.n);
    }

    /** Copy a message of any other size by a string move. */
    method MoveMessage(t: Reg, dst: Reg, size: Size)
      requires !Short(size)
      modifies `chain, `regCounter
      ensures regCounter == old(regCounter) + if size.Fixed? then 1 else 0
      ensures forall rest :: (After(chain, rest)
        == After(old(chain), MessageCode(t, dst, V(old(regCounter)), V(old(regCounter) + 1), size, rest)))
    {
      hide After;
      Emit(Sr(Push(Fptr)));
      Emit(Sr(Push(Bptr)));
      Emit(Mv(Ld(t, PTR, Fptr)));
      Emit(Mv(MovR(dst, Bptr)));
      match size {
        case Fixed(n) =>
          var u := NewReg();
          Emit(Mv(MovC(Num(if n % 4 == 0 then n / 4 else n), u)));
          Emit(Sr(if n % 4 == 0 then RepMoveL(u) else RepMoveB(u)));
        case Held(g) =>
          Emit(Sr(RepMoveB(g)));
      }
      Emit(Sr(Pop(Bptr)));
      Emit(Sr(Pop(Fptr)));
    }

    /** compose_inline_enbc_i386 for ENBC. */
    method Enbc()
      modifies `chain, `lastLab, `aReg, `consts
      ensures lastLab == old(lastLab) + 2 && aReg == Some(oldA)
      ensures consts == if old(Const(oldA)) == Some(0) then old(consts) else old(consts) - {oldB}
      ensures forall rest :: (After(chain, rest)
        == After(old(chain), EnbcCode(old(Const(oldA)), oldA, oldB, lastLab - 1, lastLab, rest)))
    {
      hide After, EnbcBody;
      var skip := NewLabel();
      var out := NewLabel();
      var guard, ch := oldA, oldB;
      if guard in consts {
        if consts[guard] == 0 {
          aReg := Some(guard);
          return;
        }
      } else {
        Emit(Cm(CmpC(Num(0), guard)));
        Emit(CJump(E, Lab(out)));
      }
      EnableBody(ch, skip, out);
      consts := consts - {ch};
      aReg := Some(guard);
    }

    /** The part of an ENBC behind the test of its guard. */
    method EnableBody(ch: Reg, skip: int, out: int)
      modifies `chain
      ensures forall rest :: After(chain, rest) == After(old(chain), EnbcBody(ch, skip, out, rest))
    {
      hide After;
      Emit(Cm(CmpCM(Num(0), ch, 0)));
      Emit(CJump(NE, Lab(skip)));
      Emit(Mv(St(Wptr, ch, 0)));
      Emit(Jump(Lab(out)));
      Emit(SetLabel(Lab(skip)));
      Emit(Cm(CmpRM(Wptr, ch, 0)));
      Emit(CJump(E, Lab(out)));
      Emit(Mv(StC(Num(READY), Wptr, PTR)));
      Emit(SetLabel(Lab(out)));
    }

    /** compose_inline_disc_i386 for DISC and NDISC. */
    method Disc(ndisc: bool)
      modifies `chain, `lastLab, `regCounter, `aReg, `bReg
      ensures lastLab == old(lastLab) + 3 && regCounter == old(regCounter) + 1
      ensures aReg == Some(DiscResult(Const(oldB), oldB, V(old(regCounter)))) && bReg == None
      ensures forall rest :: (After(chain, rest) == After(old(chain),
        DiscCode(ndisc, Const(oldB), oldA, oldB, oldC, V(old(regCounter)), old(lastLab) + 1, rest)))
    {
      hide After, DiscFire;
      var clear := NewLabel();
      var not := NewLabel();
      var out := NewLabel();
      var t := NewReg();
      bReg := None;
      if oldB in consts {
        if consts[oldB] == 0 {
          aReg := Some(oldB);
          return;
        }
      } else {
        Emit(Cm(CmpC(Num(0), oldB)));
        Emit(CJump(E, Lab(not)));
      }
      Emit(Cm(CmpRM(Wptr, oldC, 0)));
      Emit(CJump(E, Lab(clear)));
      Emit(Cm(CmpCM(Num(0), oldC, 0)));
      Emit(CJump(E, Lab(not)));
      if !ndisc {
        Emit(Cm(CmpCM(Num(NONE_SELECTED), Wptr, TEMP)));
        Emit(CJump(NE, Lab(not)));
      }
      Fire(t, clear);
      aReg := Some(t);
    }

    /** The end of a DISC: the guard fires, or the channel is cleared, or neither. */
    method Fire(t: Reg, l: int)
      modifies `chain
      ensures forall rest :: After(chain, rest) == After(old(chain), DiscFire(oldA, oldC, t, l, rest))
    {
      hide After;
      Emit(Mv(St(oldA, Wptr, TEMP)));
      Emit(Mv(MovC(Num(1), t)));
      Emit(Jump(Lab(l + 2)));
      Emit(SetLabel(Lab(l)));
      Emit(Mv(StC(Num(0), oldC, 0)));
      Emit(SetLabel(Lab(l + 1)));
      Emit(Mv(MovC(Num(0), t)));
      Emit(SetLabel(Lab(l + 2)));
    }

    /** compose_inline_altwt_i386. */
    method Altwt()
      modifies `chain
      ensures forall rest :: After(chain, rest) == After(old(chain), AltwtCode(rest))
    {
      Emit(Mv(StC(Num(NONE_SELECTED), Wptr, TEMP)));
      Emit(Cm(CmpCM(Num(READY), Wptr, PTR)));
      Emit(CJump(E, FLab(0)));
      Emit(Mv(StC(Num(WAITING), Wptr, PTR)));
      Emit(Mv(StC(Code(FLab(0)), Wptr, IPTR)));
      QuickReschedule();
      Emit(SetLabel(FLab(0)));
    }

    /** compose_inline_ldtimer_i386. */
    method Ldtimer()
      modifies `chain, `regCounter, `aReg
      ensures regCounter == old(regCounter) + 3 && aReg == Some(V(old(regCounter)))
      ensures After(chain, Nil) == After(old(chain),
        LdtimerCode(V(old(regCounter)), V(old(regCounter) + 1), V(old(regCounter) + 2)))
    {
      var x := NewReg();
      var y := NewReg();
      var t := NewReg();
      Emit(Wi(Rdtsc(x, y)));
      Emit(Mv(MovR(y, t)));
      Emit(Wi(UmulN(x, FACTOR, y)));
      Emit(Mv(MovR(t, x)));
      Emit(Mv(MovR(y, t)));
      Emit(Wi(UmulN(x, FACTOR, y)));
      Emit(Al(AddR(t, x)));
      aReg := Some(x);
    }

    /** The chain that compose_longop_i386 appends. */
    ghost function LongCode(sec: LongOp, k: nat, lab: int): Chain
      reads this
    {
      match sec
      case LSHL => LshlCode(oldA, oldB, oldC, lab)
      case LSHR => LshrCode(oldA, oldB, oldC, lab)
      case LMUL => LmulCode(oldA, oldB, oldC, V(k))
      case LSUM => LsumCode(oldA, oldB, oldC, V(k))
      case LDIFF => LdiffCode(oldA, oldB, oldC, V(k))
    }

    /** The registers that a long operation leaves the high and the low word of its result in. */
    function LongHigh(sec: LongOp, k: nat): Reg
      reads this
    {
      if sec.LSHL? || sec.LSHR? then oldC else V(k)
    }

    function LongLow(sec: LongOp): Reg
      reads this
    {
      if sec.LMUL? then oldA else oldB
    }

    /** The end of both shifts. */
    method FixUpOp(out: Reg, other: Reg, lab: int)
      modifies `chain
      ensures After(chain, Nil) == After(old(chain), FixUp(oldA, oldB, oldC, out, other, lab))
    {
      hide After;
      Emit(Cm(CmpC(Num(32), oldA)));
      Emit(CJump(B, Lab(lab)));
      Emit(Mv(Swap(oldB, oldC)));
      Emit(Mv(MovC(Num(0), out)));
      Emit(Cm(CmpC(Num(64), oldA)));
      Emit(CJump(B, Lab(lab)));
      Emit(Mv(MovC(Num(0), other)));
      Emit(SetLabel(Lab(lab)));
    }

    method ShiftOp(left: bool)
      modifies `chain, `lastLab, `aReg, `bReg, `consts
      ensures lastLab == old(lastLab) + 1 && aReg == Some(oldB) && bReg == Some(oldC)
      ensures After(chain, Nil) == After(old(chain), LongCode(if left then LSHL else LSHR, 0, lastLab))
    {
      hide After;
      if left {
        Emit(Wi(Shld(oldA, oldB, oldC)));
        Emit(Wi(Shl(oldA, oldB)));
      } else {
        Emit(Wi(Shrd(oldA, oldC, oldB)));
        Emit(Wi(Shr(oldA, oldC)));
      }
      consts := consts - {oldB, oldC};
      var lab := NewLabel();
      FixUpOp(if left then oldB else oldC, if left then oldC else oldB, lab);
      aReg, bReg := Some(oldB), Some(oldC);
    }

    method MulOp()
      modifies `chain, `regCounter, `aReg, `bReg, `consts
      ensures regCounter == old(regCounter) + 1 && aReg == Some(oldA) && bReg == Some(V(old(regCounter)))
      ensures After(chain, Nil) == After(old(chain), LongCode(LMUL, old(regCounter), 0))
    {
      var t := NewReg();
      Emit(Wi(UmulR(oldA, oldB, t)));
      consts := consts - {oldA, t};
      Emit(Al(AddR(oldC, oldA)));
      Emit(Al(AdcC(0, t)));
      aReg, bReg := Some(oldA), Some(t);
    }

    method SumOp(sum: bool)
      modifies `chain, `regCounter, `bReg, `consts
      ensures regCounter == old(regCounter) + 1 && bReg == Some(V(old(regCounter)))
      ensures After(chain, Nil) == After(old(chain), LongCode(if sum then LSUM else LDIFF, old(regCounter), 0))
    {
      Emit(Al(Rcr8(oldC)));
      Emit(if sum then Al(AdcR(oldA, oldB)) else Al(SbbR(oldA, oldB)));
      var t := NewReg();
      Emit(Mv(MovC(Num(0), t)));
      Emit(Al(Rcl8(t)));
      consts := consts - {oldB, oldC, t};
      bReg := Some(t);
    }

    /** compose_longop_i386, for the operations without overflow checks. */
    method ComposeLongOp(sec: LongOp)
      modifies `chain, `lastLab, `regCounter, `aReg, `bReg, `consts
      ensures After(chain, Nil) == After(old(chain), LongCode(sec, old(regCounter), old(lastLab) + 1))
      ensures bReg == Some(LongHigh(sec, old(regCounter)))
      ensures !sec.LSUM? && !sec.LDIFF? ==> aReg == Some(LongLow(sec))
    {
      match sec
      case LSHL => ShiftOp(true);
      case LSHR => ShiftOp(false);
      case LMUL => MulOp();
      case LSUM => SumOp(true);
      case LDIFF => SumOp(false);
    }
  }
}
