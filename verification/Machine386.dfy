/** The part of the i386 that the translator's inline sequences use: 32-bit registers, the zero and
    carry flags, memory made of separate objects, and labels that jumps look for further on.  An
    instruction comes in one form for each combination of operand modes that is emitted.  Workspaces,
    channels and variables are read and written by the word, buffers by the byte or four bytes. */
module Machine386 {
  import opened Common

  const W: int := 0x1_0000_0000

  /** A chain of instructions, as the translator builds it. */
  datatype Chain = Nil | Cons(hd: Ins, tl: Chain)

  function Append(a: Chain, b: Chain): Chain {
    match a
    case Nil => b
    case Cons(i, r) => Cons(i, Append(r, b))
  }

  /** The dedicated registers of the run-time system, and the translator's virtual registers. */
  datatype Reg = Wptr | Fptr | Bptr | V(n: nat)

  /** Memory objects: the workspace of a process, a channel word, a buffer, a named variable. */
  datatype Object = Work(p: nat) | Word(c: nat) | Buf(b: nat) | Name(x: string)

  /** A machine word: a number, an address, the address of a label in the code, or bytes of a buffer. */
  datatype Val = Num(n: int) | Ptr(obj: Object, off: int) | Code(lab: Label) | Bytes(bs: seq<int>)

  /** Numeric local labels, and labels numbered by the translator. */
  datatype Label = FLab(f: int) | Lab(g: int)

  datatype Addr = Addr(o: Object, k: int)

  datatype Cond = E | NE | B

  /** Where the code may jump away to: the resume address of the process in Wptr, or the kernel. */
  datatype Exit = Resume | OccScheduler

  // The first operand is the source, as in the translator's own instruction tables.  A register
  // followed by a displacement is a memory operand; a comparison sets the flags of second minus first.

  datatype MovIns =
    | MovR(s: Reg, d: Reg) | MovC(v: Val, d: Reg)
    | Ld(s: Reg, k: int, d: Reg) | St(s: Reg, d: Reg, k: int) | StC(v: Val, d: Reg, k: int)
    | Lea(name: string, d: Reg) | Swap(x: Reg, y: Reg)

  datatype CmpIns =
    | CmpR(x: Reg, y: Reg) | CmpC(v: Val, y: Reg) | CmpCM(v: Val, y: Reg, k: int) | CmpRM(x: Reg, y: Reg, k: int)
    | OrR(x: Reg, d: Reg) | OrM(s: Reg, k: int, d: Reg)

  datatype AluIns =
    | AddR(x: Reg, d: Reg) | AdcR(x: Reg, d: Reg) | AdcC(n: int, d: Reg) | SbbR(x: Reg, d: Reg)
    | Rcr8(d: Reg) | Rcl8(d: Reg)

  datatype WideIns =
    | UmulR(lo: Reg, x: Reg, hi: Reg) | UmulN(lo: Reg, name: string, hi: Reg) | Rdtsc(lo: Reg, hi: Reg)
    | Shld(x: Reg, y: Reg, d: Reg) | Shrd(x: Reg, y: Reg, d: Reg) | Shl(x: Reg, d: Reg) | Shr(x: Reg, d: Reg)

  /** Copying through a register between buffers, four bytes or one byte at a time. */
  datatype ByteIns = Ld4(s: Reg, k: int, d: Reg) | St4(s: Reg, d: Reg, k: int)
      | Ld1(s: Reg, k: int, d: Reg) | St1(s: Reg, d: Reg, k: int)

  /** Saving and restoring a register, and the string moves from Fptr on to Bptr on, four bytes or one byte
      at a time, as many times as register n says. */
  datatype StrIns = Push(s: Reg) | Pop(d: Reg) | RepMoveL(n: Reg) | RepMoveB(n: Reg)

  datatype Ins =
    | Mv(mov: MovIns) | Cm(cmp: CmpIns) | Al(alu: AluIns) | Wi(wide: WideIns) | By(byt: ByteIns) | Sr(str: StrIns)
    | CJump(cc: Cond, l: Label) | Jump(l: Label) | Leave(to: Exit) | SetLabel(l: Label)

  datatype Flags = Unknown | Known(z: bool, c: bool)

  /** stack is what has been pushed, apart from all other memory; junk is what undefined flags happen to be,
      tsc the cycle counter. */
  datatype Mach = Mach(regs: map<Reg, Val>, mem: map<Addr, Val>, data: map<Addr, int>, stack: seq<Val>, fl: Flags,
                       junk: bool, tsc: int)

  /** How a chain ends: falling off its end, jumping away, or doing something without meaning. */
  datatype End = Fall(m: Mach) | Left(m: Mach, to: Exit) | Stuck | OutOfSteps

  function Get(m: Mach, r: Reg): Val {
    if r in m.regs then m.regs[r] else Num(0)
  }

  function Load(m: Mach, a: Addr): Val {
    if a in m.mem then m.mem[a] else Num(0)
  }

  function Set(m: Mach, r: Reg, v: Val): Mach {
    m.(regs := m.regs[r := v])
  }

  function Put(m: Mach, a: Addr, v: Val): Mach {
    m.(mem := m.mem[a := v])
  }

  function LoadByte(m: Mach, a: Addr): int {
    if a in m.data then m.data[a] else 0
  }

  function PutByte(m: Mach, a: Addr, v: int): Mach {
    m.(data := m.data[a := v])
  }

  // ---- word arithmetic ----

  predicate IsWord(v: Val) {
    v.Num? && 0 <= v.n < W
  }

  function Lo(x: int): int { x % W }
  function Hi(x: int): int { x / W }

  /** The product, as repeated addition. */
  function Times(x: int, y: nat): int {
    if y == 0 then 0 else x + Times(x, y - 1)
  }

  function Bit(b: bool): int { if b then 1 else 0 }

  /** Only the low five bits of a shift count are used. */
  function Count(n: int): (k: nat)
    requires n >= 0
    ensures k < 32
  {
    n % 32
  }

  /** Shift by k places, one at a time. */
  function Double(x: int): int {
    if 2 * x >= W then 2 * x - W else 2 * x
  }

  function ShlWord(x: int, k: nat): int
    decreases k
  {
    if k == 0 then x else ShlWord(Double(x), k - 1)
  }

  function ShrWord(x: int, k: nat): int
    decreases k
  {
    if k == 0 then x else ShrWord(x / 2, k - 1)
  }

  /** x shifted left by k, with the high bits of y coming in on the right. */
  function ShldWord(x: int, y: int, k: nat): int
    requires k < 32
  {
    ShlWord(x, k) + ShrWord(y, 32 - k)
  }

  /** x shifted right by k, with the low bits of y coming in on the left. */
  function ShrdWord(x: int, y: int, k: nat): int
    requires k < 32
  {
    ShrWord(x, k) + ShlWord(y, 32 - k)
  }

  /** Bitwise or. */
  function OrBits(a: nat, b: nat): nat
    decreases a
  {
    if a == 0 then b else 2 * OrBits(a / 2, b / 2) + if a % 2 == 1 || b % 2 == 1 then 1 else 0
  }

  function OrVal(a: Val, b: Val): Val {
    if a.Num? && b.Num? && a.n >= 0 && b.n >= 0 then Num(OrBits(a.n, b.n)) else a
  }

  /** The flags of y - x; the carry means something for numbers only. */
  function Compare(x: Val, y: Val): Flags {
    Known(x == y, x.Num? && y.Num? && y.n < x.n)
  }

  // ---- execution ----

  /** What follows the next place, within n instructions, where label l is set. */
  function Find(c: Chain, l: Label, n: nat): Option<Chain>
    decreases n
  {
    if n == 0 || c.Nil? then None
    else if c.hd == SetLabel(l) then Some(c.tl)
    else Find(c.tl, l, n - 1)
  }

  function Taken(cc: Cond, z: bool, c: bool): bool {
    match cc
    case E => z
    case NE => !z
    case B => c
  }

  function DoMov(i: MovIns, m: Mach): Option<Mach> {
    match i
    case MovR(s, d) => Some(Set(m, d, Get(m, s)))
    case MovC(v, d) => Some(Set(m, d, v))
    case Ld(s, k, d) =>
      var a := Get(m, s);
      if !a.Ptr? then None else Some(Set(m, d, Load(m, Addr(a.obj, a.off + k))))
    case St(s, d, k) =>
      var a := Get(m, d);
      if !a.Ptr? then None else Some(Put(m, Addr(a.obj, a.off + k), Get(m, s)))
    case StC(v, d, k) =>
      var a := Get(m, d);
      if !a.Ptr? then None else Some(Put(m, Addr(a.obj, a.off + k), v))
    case Lea(x, d) => Some(Set(m, d, Ptr(Name(x), 0)))
    case Swap(x, y) => Some(Set(Set(m, x, Get(m, y)), y, Get(m, x)))
  }

  function DoCmp(i: CmpIns, m: Mach): Option<Mach> {
    match i
    case CmpR(x, y) => Some(m.(fl := Compare(Get(m, x), Get(m, y))))
    case CmpC(v, y) => Some(m.(fl := Compare(v, Get(m, y))))
    case CmpCM(v, y, k) =>
      var a := Get(m, y);
      if !a.Ptr? then None else Some(m.(fl := Compare(v, Load(m, Addr(a.obj, a.off + k)))))
    case CmpRM(x, y, k) =>
      var a := Get(m, y);
      if !a.Ptr? then None else Some(m.(fl := Compare(Get(m, x), Load(m, Addr(a.obj, a.off + k)))))
    case OrR(x, d) =>
      var v := if x == d then Get(m, d) else OrVal(Get(m, x), Get(m, d));
      Some(Set(m, d, v).(fl := Known(v == Num(0), false)))
    case OrM(s, k, d) =>
      var a := Get(m, s);
      if !a.Ptr? then None
      else
        var v := OrVal(Load(m, Addr(a.obj, a.off + k)), Get(m, d));
        Some(Set(m, d, v).(fl := Known(v == Num(0), false)))
  }

  function DoAlu(i: AluIns, m: Mach): Option<Mach> {
    match i
    case AddR(x, d) =>
      var u, v := Get(m, x), Get(m, d);
      if !IsWord(u) || !IsWord(v) then None
      else Some(Set(m, d, Num(Lo(u.n + v.n))).(fl := Known(Lo(u.n + v.n) == 0, u.n + v.n >= W)))
    case AdcR(x, d) =>
      var u, v := Get(m, x), Get(m, d);
      if !IsWord(u) || !IsWord(v) || m.fl.Unknown? then None
      else
        var t := u.n + v.n + Bit(m.fl.c);
        Some(Set(m, d, Num(Lo(t))).(fl := Known(Lo(t) == 0, t >= W)))
    case AdcC(u, d) =>
      var v := Get(m, d);
      if !IsWord(v) || m.fl.Unknown? then None
      else
        var t := u + v.n + Bit(m.fl.c);
        Some(Set(m, d, Num(Lo(t))).(fl := Known(Lo(t) == 0, t >= W)))
    case SbbR(x, d) =>
      var u, v := Get(m, x), Get(m, d);
      if !IsWord(u) || !IsWord(v) || m.fl.Unknown? then None
      else
        var t := v.n - u.n - Bit(m.fl.c);
        Some(Set(m, d, Num(Lo(t))).(fl := Known(Lo(t) == 0, t < 0)))
    case Rcr8(d) =>
      var v := Get(m, d);
      if !IsWord(v) then None
      else
        var (z, c) := if m.fl.Known? then (m.fl.z, m.fl.c) else (m.junk, m.junk);
        Some(Set(m, d, Num(v.n - v.n % 256 + (v.n % 256) / 2 + 128 * Bit(c))).(fl := Known(z, v.n % 2 == 1)))
    case Rcl8(d) =>
      var v := Get(m, d);
      if !IsWord(v) || m.fl.Unknown? then None
      else Some(Set(m, d, Num(v.n - v.n % 256 + (2 * (v.n % 256)) % 256 + Bit(m.fl.c)))
          .(fl := Known(m.fl.z, v.n % 256 >= 128)))
  }

  function DoWide(i: WideIns, m: Mach): Option<Mach> {
    match i
    case UmulR(lo, x, hi) =>
      var u, v := Get(m, lo), Get(m, x);
      if !IsWord(u) || !IsWord(v) then None
      else Some(Set(Set(m, lo, Num(Lo(Times(u.n, v.n)))), hi, Num(Hi(Times(u.n, v.n)))).(fl := Unknown))
    case UmulN(lo, x, hi) =>
      var u, v := Get(m, lo), Load(m, Addr(Name(x), 0));
      if !IsWord(u) || !IsWord(v) then None
      else Some(Set(Set(m, lo, Num(Lo(Times(u.n, v.n)))), hi, Num(Hi(Times(u.n, v.n)))).(fl := Unknown))
    case Rdtsc(lo, hi) => Some(Set(Set(m, lo, Num(Lo(m.tsc))), hi, Num(Hi(m.tsc))))
    case Shld(x, y, d) =>
      var k, u, v := Get(m, x), Get(m, y), Get(m, d);
      if !IsWord(k) || !IsWord(u) || !IsWord(v) then None
      else Some(Set(m, d, Num(ShldWord(v.n, u.n, Count(k.n)))).(fl := Unknown))
    case Shrd(x, y, d) =>
      var k, u, v := Get(m, x), Get(m, y), Get(m, d);
      if !IsWord(k) || !IsWord(u) || !IsWord(v) then None
      else Some(Set(m, d, Num(ShrdWord(v.n, u.n, Count(k.n)))).(fl := Unknown))
    case Shl(x, d) =>
      var k, v := Get(m, x), Get(m, d);
      if !IsWord(k) || !IsWord(v) then None
      else Some(Set(m, d, Num(ShlWord(v.n, Count(k.n)))).(fl := Unknown))
    case Shr(x, d) =>
      var k, v := Get(m, x), Get(m, d);
      if !IsWord(k) || !IsWord(v) then None
      else Some(Set(m, d, Num(ShrWord(v.n, Count(k.n)))).(fl := Unknown))
  }

  function DoByte(i: ByteIns, m: Mach): Option<Mach> {
    match i
    case Ld4(s, k, d) =>
      var a := Get(m, s);
      if !a.Ptr? then None
      else
        Some(Set(m, d, Bytes([LoadByte(m, Addr(a.obj, a.off + k)), LoadByte(m, Addr(a.obj, a.off + k + 1)),
                              LoadByte(m, Addr(a.obj, a.off + k + 2)), LoadByte(m, Addr(a.obj, a.off + k + 3))])))
    case Ld1(s, k, d) =>
      var a := Get(m, s);
      if !a.Ptr? then None else Some(Set(m, d, Bytes([LoadByte(m, Addr(a.obj, a.off + k))])))
    case St4(s, d, k) =>
      var a, v := Get(m, d), Get(m, s);
      if !a.Ptr? || !v.Bytes? || |v.bs| != 4 then None
      else
        var m2 := PutByte(PutByte(m, Addr(a.obj, a.off + k), v.bs[0]), Addr(a.obj, a.off + k + 1), v.bs[1]);
        Some(PutByte(PutByte(m2, Addr(a.obj, a.off + k + 2), v.bs[2]), Addr(a.obj, a.off + k + 3), v.bs[3]))
    case St1(s, d, k) =>
      var a, v := Get(m, d), Get(m, s);
      if !a.Ptr? || !v.Bytes? || v.bs == [] then None else Some(PutByte(m, Addr(a.obj, a.off + k), v.bs[0]))
  }

  /** One element of a string move: its w bytes are loaded and then stored. */
  function MoveStep(m: Mach, from: Addr, to: Addr, w: nat): Mach {
    var m1 := PutByte(m, to, LoadByte(m, from));
    if w != 4 then m1
    else
      var m2 := PutByte(m1, to.(k := to.k + 1), LoadByte(m, from.(k := from.k + 1)));
      var m3 := PutByte(m2, to.(k := to.k + 2), LoadByte(m, from.(k := from.k + 2)));
      PutByte(m3, to.(k := to.k + 3), LoadByte(m, from.(k := from.k + 3)))
  }

  /** n elements, upwards. */
  function RepMove(m: Mach, from: Addr, to: Addr, w: nat, n: nat): Mach
    decreases n
  {
    if n == 0 then m
    else RepMove(MoveStep(m, from, to, w), from.(k := from.k + w), to.(k := to.k + w), w, n - 1)
  }

  /** The bytes of n elements. */
  function Span(w: nat, n: nat): nat { if w == 4 then 4 * n else n }

  /** A string move leaves both pointers behind the last element and the count at zero. */
  function DoRep(count: Reg, w: nat, m: Mach): Option<Mach> {
    var n, a, b := Get(m, count), Get(m, Fptr), Get(m, Bptr);
    if !IsWord(n) || !a.Ptr? || !b.Ptr? then None
    else
      var t := RepMove(m, Addr(a.obj, a.off), Addr(b.obj, b.off), w, n.n);
      var t1 := Set(t, Fptr, a.(off := a.off + Span(w, n.n)));
      Some(Set(Set(t1, Bptr, b.(off := b.off + Span(w, n.n))), count, Num(0)))
  }

  function DoStr(i: StrIns, m: Mach): Option<Mach> {
    match i
    case Push(s) => Some(m.(stack := m.stack + [Get(m, s)]))
    case Pop(d) =>
      if m.stack == [] then None
      else
        var top := |m.stack| - 1;
        Some(Set(m, d, m.stack[top]).(stack := m.stack[..top]))
    case RepMoveL(n) => DoRep(n, 4, m)
    case RepMoveB(n) => DoRep(n, 1, m)
  }

  /** What an instruction does that neither jumps nor sets a label; None when it has no meaning. */
  function Do(i: Ins, m: Mach): Option<Mach> {
    match i
    case Mv(x) => DoMov(x, m)
    case Cm(x) => DoCmp(x, m)
    case Al(x) => DoAlu(x, m)
    case Wi(x) => DoWide(x, m)
    case By(x) => DoByte(x, m)
    case Sr(x) => DoStr(x, m)
    case _ => None
  }

  /** Run the chain for fewer than n instructions. */
  function Exec(c: Chain, m: Mach, n: nat): End
    decreases n
  {
    if n == 0 then OutOfSteps
    else match c
      case Nil => Fall(m)
      case Cons(i, r) => match i
        case SetLabel(_) => Exec(r, m, n - 1)
        case Leave(to) => Left(m, to)
        case Jump(l) => if Find(r, l, n).None? then Stuck else Exec(Find(r, l, n).value, m, n - 1)
        case CJump(cc, l) =>
          if m.fl.Unknown? then Stuck
          else if !Taken(cc, m.fl.z, m.fl.c) then Exec(r, m, n - 1)
          else if Find(r, l, n).None? then Stuck
          else Exec(Find(r, l, n).value, m, n - 1)
        case _ =>
          var o := Do(i, m);
          if o.None? then Stuck else Exec(r, o.value, n - 1)
  }

  // ---- running a chain piece by piece ----

  /** One instruction that neither jumps nor sets a label. */
  lemma RunOne(c: Chain, m: Mach, m1: Mach, n: nat)
    requires n > 0 && c.Cons? && Do(c.hd, m) == Some(m1)
    ensures Exec(c, m, n) == Exec(c.tl, m1, n - 1)
  {
  }

  /** The chain and the state after j instructions, none of which jumps away. */
  function Block(c: Chain, m: Mach, j: nat): Option<(Chain, Mach)>
    decreases j
  {
    if j == 0 then Some((c, m))
    else if c.Nil? then None
    else if c.hd.SetLabel? then Block(c.tl, m, j - 1)
    else if c.hd.CJump? && m.fl.Known? && !Taken(c.hd.cc, m.fl.z, m.fl.c) then Block(c.tl, m, j - 1)
    else
      var o := Do(c.hd, m);
      if o.None? then None else Block(c.tl, o.value, j - 1)
  }

  lemma {:induction false} RunBlock(c: Chain, m: Mach, j: nat, n: nat)
    requires n >= j && Block(c, m, j).Some?
    ensures Exec(c, m, n) == Exec(Block(c, m, j).value.0, Block(c, m, j).value.1, n - j)
    decreases j
  {
    if j == 0 {
    } else {
      if c.hd.SetLabel? || c.hd.CJump? { RunBlock(c.tl, m, j - 1, n - 1); }
      else { RunBlock(c.tl, Do(c.hd, m).value, j - 1, n - 1); }
    }
  }

  lemma {:induction false} FindMore(c: Chain, l: Label, j: nat, n: nat)
    requires n >= j && Find(c, l, j).Some?
    ensures Find(c, l, n) == Find(c, l, j)
    decreases j
  {
    if c.hd == SetLabel(l) {
    } else {
      FindMore(c.tl, l, j - 1, n - 1);
    }
  }

  /** A jump that is taken, to a label at most j instructions on. */
  lemma RunJump(c: Chain, m: Mach, j: nat, n: nat)
    requires n > j && c.Cons? && (c.hd.Jump? || (c.hd.CJump? && m.fl.Known? && Taken(c.hd.cc, m.fl.z, m.fl.c)))
    requires Find(c.tl, c.hd.l, j).Some?
    ensures Exec(c, m, n) == Exec(Find(c.tl, c.hd.l, j).value, m, n - 1)
  {
    FindMore(c.tl, c.hd.l, j, n);
  }

  /** A result reached within n instructions is reached within any larger number. */
  lemma {:induction false} MoreSteps(c: Chain, m: Mach, n: nat, k: nat)
    requires k >= n && (Exec(c, m, n).Fall? || Exec(c, m, n).Left?)
    ensures Exec(c, m, k) == Exec(c, m, n)
    decreases n
  {
    if c.Nil? {
    } else {
      var i := c.hd;
      if i.SetLabel? || (i.CJump? && !Taken(i.cc, m.fl.z, m.fl.c)) {
        MoreSteps(c.tl, m, n - 1, k - 1);
      } else if i.Jump? || i.CJump? {
        FindMore(c.tl, i.l, n, k);
        MoreSteps(Find(c.tl, i.l, n).value, m, n - 1, k - 1);
      } else if !i.Leave? {
        MoreSteps(c.tl, Do(i, m).value, n - 1, k - 1);
      }
    }
  }
}
