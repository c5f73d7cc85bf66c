/** The translator's intermediate instructions that the PowerPC pass looks at, and what a list of them
    does: registers and memory of 32-bit words, flags, numeric and global labels. */
module PpcRtl {
  import opened Common

  const W: int := 0x1_0000_0000

  const WORD_BITS: nat := 32

  type W32 = x: int | 0 <= x < W

  /** What an address constant can name. */
  datatype Place = NameAt(x: string) | LabelAt(l: int) | FLabelAt(f: int) | BLabelAt(b: int)

  /** An operand: a register, a constant, memory at a register plus displacement, or a label: its
      address when isConst is set, otherwise the memory there. */
  datatype Arg = Reg(r: int) | Const(n: int) | Ind(base: int, d: int) | Addr(p: Place, isConst: bool, off: int)

  datatype Op = ADD | SUB | MUL | UMUL | XOR | OR | AND | DIV | UDIV

  /** Alu computes dst as b op a, the first operand being the second source; cc says whether it sets the
      flags.  Step increments or decrements. */
  datatype Ins =
    | Lea(src: Arg, dst: Arg)
    | Move(src: Arg, dst: Arg)
    | MoveB(src: Arg, dst: Arg)
    | Alu(op: Op, a: Arg, b: Arg, dst: Arg, cc: bool)
    | Not(src: Arg, dst: Arg)
    | ZExt(src: Arg, dst: Arg)
    | Step(up: bool, x: Arg, cc: bool)
    | Cmp(a: Arg, b: Arg)
    | Swap(x: Arg, y: Arg)
    | CJump(cond: nat, t: Arg)
    | Jump(t: Arg)
    | SetLabel(l: int)
    | SetFLabel(f: int)

  /** fl holds the two numbers whose comparison the flags reflect. */
  datatype Mach = Mach(regs: map<int, W32>, mem: map<int, int>, fl: (int, int))

  /** Where labels are placed, which comparisons each even-numbered condition accepts, and what the
      arithmetic operations compute. */
  datatype Env = Env(place: Place -> int, test: (nat, int, int) -> bool, alu: (Op, W32, W32) -> W32)

  // ---- words ----

  function Word(x: int): W32 {
    x % 0x1_0000_0000
  }

  function Signed(x: int): int {
    if x < W / 2 then x else x - W
  }

  /** A bitwise operation on two numbers, bit by bit for n bits. */
  function Bits(op: Op, a: int, b: int, n: nat): int
    decreases n
  {
    if n == 0 then 0
    else
      var (x, y) := (a % 2, b % 2);
      var bit := match op
        case AND => x * y
        case OR => if x + y > 0 then 1 else 0
        case _ => (x + y) % 2;
      2 * Bits(op, a / 2, b / 2, n - 1) + bit
  }

  function Bitwise(op: Op, a: W32, b: W32): W32 {
    Word(Bits(op, a, b, WORD_BITS))
  }

  /** Signed division truncates. */
  function Quotient(x: int, y: int): int {
    if y == 0 then 0
    else if x >= 0 then x / y
    else -((-x) / y)
  }

  /** Arithmetic as it is: modulo 2^32, the operands in the order of the instruction. */
  function Apply(op: Op, a: W32, b: W32): W32 {
    match op
    case ADD => Word(b + a)
    case SUB => Word(b - a)
    case MUL => Word(b * a)
    case UMUL => Word(b * a)
    case DIV => Word(Quotient(Signed(b), Signed(a)))
    case UDIV => Word(Quotient(b, a))
    case _ => Bitwise(op, a, b)
  }

  ghost predicate Standard(env: Env) {
    forall op, a, b :: env.alu(op, a, b) == Apply(op, a, b)
  }

  // ---- operands ----

  function Get(m: Mach, r: int): W32 {
    if r in m.regs then m.regs[r] else 0
  }

  function Set(m: Mach, r: int, v: W32): Mach {
    m.(regs := m.regs[r := v])
  }

  function ByteAt(mem: map<int, int>, a: int): (b: W32)
    ensures b < 256
  {
    if Word(a) in mem then mem[Word(a)] % 256 else 0
  }

  /** n bytes from a on, the first being the most significant. */
  function LoadN(mem: map<int, int>, a: int, n: nat): int {
    if n == 0 then 0 else 256 * LoadN(mem, a, n - 1) + ByteAt(mem, a + n - 1)
  }

  function StoreN(mem: map<int, int>, a: int, n: nat, v: int): map<int, int>
    decreases n
  {
    if n == 0 then mem else StoreN(mem[Word(a + n - 1) := v % 256], a, n - 1, v / 256)
  }

  /** The address an operand refers to. */
  function Address(env: Env, m: Mach, a: Arg): Option<W32> {
    match a
    case Ind(r, d) => Some(Word(Get(m, r) + d))
    case Addr(p, _, d) => Some(Word(env.place(p) + d))
    case _ => None
  }

  function Value(env: Env, m: Mach, a: Arg): W32 {
    match a
    case Reg(r) => Get(m, r)
    case Const(n) => Word(n)
    case Ind(r, d) => Word(LoadN(m.mem, Word(Get(m, r) + d), 4))
    case Addr(p, c, d) => if c then Word(env.place(p) + d) else Word(LoadN(m.mem, Word(env.place(p) + d), 4))
  }

  function Value8(env: Env, m: Mach, a: Arg): (b: W32)
    ensures b < 256
  {
    match a
    case Reg(r) => Get(m, r) % 256
    case Const(n) => n % 256
    case Ind(r, d) => ByteAt(m.mem, Word(Get(m, r) + d))
    case Addr(p, c, d) => if c then Word(env.place(p) + d) % 256 else ByteAt(m.mem, Word(env.place(p) + d))
  }

  function Store(env: Env, m: Mach, a: Arg, v: W32): Option<Mach> {
    match a
    case Reg(r) => Some(Set(m, r, v))
    case Ind(r, d) => Some(m.(mem := StoreN(m.mem, Word(Get(m, r) + d), 4, v)))
    case Addr(p, c, d) => if c then None else Some(m.(mem := StoreN(m.mem, Word(env.place(p) + d), 4, v)))
    case Const(_) => None
  }

  /** A byte store to a register leaves its other bits. */
  function Store8(env: Env, m: Mach, a: Arg, v: W32): Option<Mach> {
    match a
    case Reg(r) => Some(Set(m, r, Get(m, r) - Get(m, r) % 256 + v % 256))
    case Ind(r, d) => Some(m.(mem := StoreN(m.mem, Word(Get(m, r) + d), 1, v)))
    case Addr(p, c, d) => if c then None else Some(m.(mem := StoreN(m.mem, Word(env.place(p) + d), 1, v)))
    case Const(_) => None
  }

  function Flag(o: Option<Mach>, on: bool, v: int): Option<Mach> {
    if o.Some? && on then Some(o.value.(fl := (0, v))) else o
  }

  // ---- execution ----

  predicate Straight(i: Ins) {
    !i.Jump? && !i.CJump?
  }

  /** What an instruction does that does not jump; None when it has no meaning.  Arithmetic compares its
      result with zero; stepping memory always does. */
  function Do(env: Env, i: Ins, m: Mach): Option<Mach> {
    match i
    case Lea(s, d) => if Address(env, m, s).None? then None else Store(env, m, d, Address(env, m, s).value)
    case Move(s, d) => Store(env, m, d, Value(env, m, s))
    case MoveB(s, d) => Store8(env, m, d, Value8(env, m, s))
    case Alu(op, a, b, d, cc) =>
      var v := env.alu(op, Value(env, m, a), Value(env, m, b));
      Flag(Store(env, m, d, v), cc, v)
    case Not(s, d) => Store(env, m, d, W - 1 - Value(env, m, s))
    case ZExt(s, d) => Store(env, m, d, Value8(env, m, s))
    case Step(up, x, cc) =>
      var v := Word(Value(env, m, x) + if up then 1 else -1);
      Flag(Store(env, m, x, v), cc || !x.Reg?, v)
    case Cmp(a, b) => Some(m.(fl := (Value(env, m, a), Value(env, m, b))))
    case Swap(x, y) =>
      if x.Reg? && y.Reg? then Some(Set(Set(m, x.r, Get(m, y.r)), y.r, Get(m, x.r))) else None
    case SetLabel(_) => Some(m)
    case SetFLabel(_) => Some(m)
    case _ => None
  }

  /** A list without jumps, from start to end. */
  function Line(env: Env, l: seq<Ins>, m: Mach): Option<Mach>
    decreases |l|
  {
    if l == [] then Some(m)
    else if Do(env, l[0], m).None? then None
    else Line(env, l[1..], Do(env, l[0], m).value)
  }

  /** The first position from k on that holds i. */
  function FindNext(l: seq<Ins>, k: nat, i: Ins): (r: Option<nat>)
    ensures r.Some? ==> k <= r.value < |l| && l[r.value] == i
    decreases |l| - k
  {
    if k >= |l| then None else if l[k] == i then Some(k) else FindNext(l, k + 1, i)
  }

  /** The last position before k that holds i. */
  function FindPrev(l: seq<Ins>, k: nat, i: Ins): (r: Option<nat>)
    requires k <= |l|
    ensures r.Some? ==> r.value < k && l[r.value] == i
  {
    if k == 0 then None else if l[k - 1] == i then Some(k - 1) else FindPrev(l, k - 1, i)
  }

  datatype Target = At(k: nat) | Beyond(address: int) | Nowhere

  function Whither(env: Env, l: seq<Ins>, pc: nat, m: Mach, t: Arg): Target
    requires pc < |l|
  {
    match t
    case Addr(LabelAt(x), _, _) =>
      var o := FindNext(l, 0, SetLabel(x));
      if o.Some? then At(o.value) else Beyond(Word(env.place(t.p)))
    case Addr(FLabelAt(x), _, _) =>
      var o := FindNext(l, pc, SetFLabel(x));
      if o.Some? then At(o.value) else Nowhere
    case Addr(BLabelAt(x), _, _) =>
      var o := FindPrev(l, pc, SetFLabel(x));
      if o.Some? then At(o.value) else Nowhere
    case Addr(NameAt(_), _, _) => Beyond(Word(env.place(t.p)))
    case _ => Beyond(Value(env, m, t))
  }

  function Flip(c: nat): nat {
    if c % 2 == 0 then c + 1 else c - 1
  }

  function Taken(env: Env, c: nat, fl: (int, int)): bool {
    if c % 2 == 0 then env.test(c, fl.0, fl.1) else !env.test(c - 1, fl.0, fl.1)
  }

  datatype End = Halt(m: Mach) | Left(m: Mach, address: int) | NoMeaning | Timeout

  /** Run from pc for fewer than n instructions. */
  function Run(env: Env, l: seq<Ins>, pc: nat, m: Mach, n: nat): End
    decreases n
  {
    if n == 0 then Timeout
    else if pc >= |l| then Halt(m)
    else if l[pc].Jump? || (l[pc].CJump? && Taken(env, l[pc].cond, m.fl)) then
      match Whither(env, l, pc, m, l[pc].t)
      case At(k) => Run(env, l, k, m, n - 1)
      case Beyond(a) => Left(m, a)
      case Nowhere => NoMeaning
    else if l[pc].CJump? then Run(env, l, pc + 1, m, n - 1)
    else if Do(env, l[pc], m).None? then NoMeaning
    else Run(env, l, pc + 1, Do(env, l[pc], m).value, n - 1)
  }

  // ---- facts about lists ----

  lemma {:induction false} LineSplit(env: Env, a: seq<Ins>, b: seq<Ins>, m: Mach)
    ensures Line(env, a + b, m) == (if Line(env, a, m).None? then None else Line(env, b, Line(env, a, m).value))
    decreases |a|
  {
    if a == [] { assert a + b == b; }
    else {
      assert (a + b)[1..] == a[1..] + b;
      if Do(env, a[0], m).Some? { LineSplit(env, a[1..], b, Do(env, a[0], m).value); }
    }
  }

  /** A straight stretch of a list runs as a whole; with too few instructions to spend, it times out. */
  lemma {:induction false} LineRuns(env: Env, l: seq<Ins>, pc: nat, b: seq<Ins>, m: Mach, n: nat)
    requires pc + |b| <= |l| && l[pc..pc + |b|] == b && Line(env, b, m).Some?
    requires forall i :: 0 <= i < |b| ==> Straight(b[i])
    ensures n >= |b| ==> Run(env, l, pc, m, n) == Run(env, l, pc + |b|, Line(env, b, m).value, n - |b|)
    ensures n < |b| ==> Run(env, l, pc, m, n) == Timeout
    decreases |b|
  {
    if b == [] || n == 0 {
    } else {
      assert l[pc] == b[0] && Straight(b[0]);
      assert l[pc + 1..pc + 1 + |b[1..]|] == b[1..];
      LineRuns(env, l, pc + 1, b[1..], Do(env, b[0], m).value, n - 1);
    }
  }

  lemma {:induction false} TimeoutEarlier(env: Env, l: seq<Ins>, pc: nat, m: Mach, n: nat, k: nat)
    requires Run(env, l, pc, m, n).Timeout? && k <= n
    ensures Run(env, l, pc, m, k).Timeout?
    decreases n
  {
    if k == 0 {
    } else {
      var i := l[pc];
      if i.Jump? || (i.CJump? && Taken(env, i.cond, m.fl)) {
        TimeoutEarlier(env, l, Whither(env, l, pc, m, i.t).k, m, n - 1, k - 1);
      } else if i.CJump? {
        TimeoutEarlier(env, l, pc + 1, m, n - 1, k - 1);
      } else {
        TimeoutEarlier(env, l, pc + 1, Do(env, i, m).value, n - 1, k - 1);
      }
    }
  }
}
