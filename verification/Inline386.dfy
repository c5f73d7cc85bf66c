/** The inline scheduler, channel and ALT sequences, and what they do to the run-time system's state:
    the same as the kernel functions of CcspState. */
module Inline386 {
  import opened Common
  import opened Machine386
  import S = CcspState

  // Byte offsets of the process fields from the workspace pointer.
  const PTR: int := -16
  const LINK: int := -8
  const IPTR: int := -4
  const TEMP: int := 0

  const WAITING: int := 2
  const READY: int := 3
  const NONE_SELECTED: int := 0x8000_0000

  /** The two words that an external event sets. */
  const SYNC: string := "sf"

  // ---- the emitted chains; rest is what the translator emits after them ----

  /** compose_inline_quick_reschedule_i386. */
  function QuickCode(rest: Chain): Chain {
    Cons(Cm(CmpC(Num(0), Fptr)), Cons(CJump(NE, FLab(2)), Cons(Leave(OccScheduler),
    Cons(SetLabel(FLab(2)), Cons(Mv(MovR(Fptr, Wptr)), Cons(Mv(Ld(Fptr, LINK, Fptr)), Cons(Leave(Resume), rest)))))))
  }

  /** compose_inline_enqueue_i386: the process in register p, numeric labels f and f + 1. */
  function EnqueueCode(p: Reg, f: int, rest: Chain): Chain {
    Cons(Mv(StC(Num(0), p, LINK)), Cons(Cm(CmpC(Num(0), Fptr)), Cons(CJump(NE, FLab(f)),
    Cons(Mv(MovR(p, Fptr)), Cons(Jump(FLab(f + 1)),
    Cons(SetLabel(FLab(f)), Cons(Mv(St(p, Bptr, LINK)),
    Cons(SetLabel(FLab(f + 1)), Cons(Mv(MovR(p, Bptr)), rest)))))))))
  }

  /** The end of the full reschedule: two or more processes besides the running one, or just one. */
  function SwitchCode(rest: Chain): Chain {
    Cons(Cm(CmpR(Fptr, Bptr)), Cons(CJump(E, FLab(4)),
    Cons(Mv(St(Wptr, Bptr, LINK)), Cons(Mv(MovR(Wptr, Bptr)), Cons(Mv(MovR(Fptr, Wptr)),
    Cons(Mv(Ld(Fptr, LINK, Fptr)), Cons(Leave(Resume),
    Cons(SetLabel(FLab(4)), Cons(Mv(Swap(Wptr, Fptr)), Cons(Mv(MovR(Fptr, Bptr)), Cons(Leave(Resume),
    Cons(SetLabel(FLab(0)), rest))))))))))))
  }

  function UnsyncedCode(rest: Chain): Chain {
    Cons(SetLabel(FLab(3)), Cons(Cm(OrR(Fptr, Fptr)), Cons(CJump(E, FLab(0)),
    Cons(Mv(StC(Num(0), Wptr, LINK)), Cons(Mv(StC(Code(FLab(0)), Wptr, IPTR)), SwitchCode(rest))))))
  }

  /** Join the back of the queue, Fptr having been tested, and go to the kernel. */
  function JoinCode(rest: Chain): Chain {
    Cons(CJump(E, FLab(1)), Cons(Mv(St(Wptr, Bptr, LINK)), Cons(Jump(FLab(2)),
    Cons(SetLabel(FLab(1)), Cons(Mv(MovR(Wptr, Fptr)),
    Cons(SetLabel(FLab(2)), Cons(Mv(MovR(Wptr, Bptr)), Cons(Leave(OccScheduler), rest))))))))
  }

  function SyncedCode(rest: Chain): Chain {
    Cons(Mv(StC(Code(FLab(0)), Wptr, IPTR)), Cons(Mv(StC(Num(0), Wptr, LINK)),
    Cons(Cm(OrR(Fptr, Fptr)), JoinCode(rest))))
  }

  /** compose_inline_full_reschedule_i386, with its two temporaries. */
  function FullCode(t: Reg, u: Reg, rest: Chain): Chain {
    Cons(Mv(Lea(SYNC, u)), Cons(Mv(Ld(u, 0, t)), Cons(Cm(OrM(u, 4, t)),
    Cons(CJump(E, FLab(3)), SyncedCode(UnsyncedCode(rest))))))
  }

  /** How the translator knows the size of a message: a number other than zero, or the register it is in. */
  datatype Size = Fixed(n: nat) | Held(r: Reg)

  /** The copying loops for known sizes up to 16: whole words first, then single bytes. */
  function CopyCode(src: Reg, dst: Reg, t: Reg, off: nat, n: nat, rest: Chain): Chain
    decreases n
  {
    if n > 3 then Cons(By(Ld4(src, off, t)), Cons(By(St4(t, dst, off)), CopyCode(src, dst, t, off + 4, n - 4, rest)))
    else if n > 0 then Cons(By(Ld1(src, off, t)), Cons(By(St1(t, dst, off)),
      CopyCode(src, dst, t, off + 1, n - 1, rest)))
    else rest
  }

  /** compose_inline_in_2_i386: channel, destination, three temporaries and the size of the message. */
  function InCode(ch: Reg, dst: Reg, t: Reg, u: Reg, v: Reg, size: Size, rest: Chain): Chain {
    Cons(Cm(CmpCM(Num(0), ch, 0)), Cons(CJump(NE, FLab(0)),
    Cons(Mv(St(Wptr, ch, 0)), Cons(Mv(St(dst, Wptr, PTR)), Cons(Mv(StC(Code(FLab(1)), Wptr, IPTR)),
    QuickCode(Cons(SetLabel(FLab(0)), TakeCode(ch, dst, t, u, v, size, rest))))))))
  }

  function TakeCode(ch: Reg, dst: Reg, t: Reg, u: Reg, v: Reg, size: Size, rest: Chain): Chain {
    Cons(Mv(Ld(ch, 0, t)), EnqueueCode(t, 2, Cons(Mv(StC(Num(0), ch, 0)),
    MessageCode(t, dst, u, v, size, Cons(SetLabel(FLab(1)), rest)))))
  }

  predicate Short(size: Size) { size.Fixed? && 0 < size.n <= 16 }

  /** Copying the message of the process in t: short ones through a register, all others by a string move. */
  function MessageCode(t: Reg, dst: Reg, u: Reg, v: Reg, size: Size, rest: Chain): Chain {
    if Short(size) then Cons(Mv(Ld(t, PTR, u)), CopyCode(u, dst, v, 0, size.n, rest))
    else StringCode(t, dst, u, size, rest)
  }

  /** The string move takes the queue registers, which are saved on the stack meanwhile. */
  function StringCode(t: Reg, dst: Reg, u: Reg, size: Size, rest: Chain): Chain {
    Cons(Sr(Push(Fptr)), Cons(Sr(Push(Bptr)), Cons(Mv(Ld(t, PTR, Fptr)), Cons(Mv(MovR(dst, Bptr)),
    MoveCode(u, size, Cons(Sr(Pop(Bptr)), Cons(Sr(Pop(Fptr)), rest)))))))
  }

  function MoveCode(u: Reg, size: Size, rest: Chain): Chain {
    match size
    case Fixed(n) =>
      if n % 4 == 0 then Cons(Mv(MovC(Num(n / 4), u)), Cons(Sr(RepMoveL(u)), rest))
      else Cons(Mv(MovC(Num(n), u)), Cons(Sr(RepMoveB(u)), rest))
    case Held(g) => Cons(Sr(RepMoveB(g)), rest)
  }

  /** compose_inline_enbc_i386; known is the guard, when it is a constant. */
  function EnbcCode(known: Option<int>, g: Reg, ch: Reg, skip: int, out: int, rest: Chain): Chain {
    var body := EnbcBody(ch, skip, out, rest);
    if known == Some(0) then rest
    else if known.Some? then body
    else Cons(Cm(CmpC(Num(0), g)), Cons(CJump(E, Lab(out)), body))
  }

  function EnbcBody(ch: Reg, skip: int, out: int, rest: Chain): Chain {
    Cons(Cm(CmpCM(Num(0), ch, 0)), Cons(CJump(NE, Lab(skip)), Cons(Mv(St(Wptr, ch, 0)), Cons(Jump(Lab(out)),
    Cons(SetLabel(Lab(skip)), Cons(Cm(CmpRM(Wptr, ch, 0)), Cons(CJump(E, Lab(out)),
    Cons(Mv(StC(Num(READY), Wptr, PTR)), Cons(SetLabel(Lab(out)), rest)))))))))
  }

  /** compose_inline_disc_i386: process offset, guard and channel registers, result register t and the
      labels for "clear the channel", "not fired" and "out".  NDISC does not look at the Temp slot. */
  function DiscCode(ndisc: bool, known: Option<int>, off: Reg, g: Reg, ch: Reg, t: Reg, l: int, rest: Chain): Chain {
    var body := DiscBody(ndisc, off, ch, t, l, rest);
    if known == Some(0) then rest
    else if known.Some? then body
    else Cons(Cm(CmpC(Num(0), g)), Cons(CJump(E, Lab(l + 1)), body))
  }

  function DiscBody(ndisc: bool, off: Reg, ch: Reg, t: Reg, l: int, rest: Chain): Chain {
    Cons(Cm(CmpRM(Wptr, ch, 0)), Cons(CJump(E, Lab(l)), Cons(Cm(CmpCM(Num(0), ch, 0)), Cons(CJump(E, Lab(l + 1)),
    if ndisc then DiscFire(off, ch, t, l, rest)
    else Cons(Cm(CmpCM(Num(NONE_SELECTED), Wptr, TEMP)), Cons(CJump(NE, Lab(l + 1)), DiscFire(off, ch, t, l, rest)))))))
  }

  function DiscFire(off: Reg, ch: Reg, t: Reg, l: int, rest: Chain): Chain {
    Cons(Mv(St(off, Wptr, TEMP)), Cons(Mv(MovC(Num(1), t)), Cons(Jump(Lab(l + 2)), DiscEnd(ch, t, l, rest))))
  }

  function DiscEnd(ch: Reg, t: Reg, l: int, rest: Chain): Chain {
    Cons(SetLabel(Lab(l)), Cons(Mv(StC(Num(0), ch, 0)), Cons(SetLabel(Lab(l + 1)), DiscNot(t, l, rest))))
  }

  function DiscNot(t: Reg, l: int, rest: Chain): Chain {
    Cons(Mv(MovC(Num(0), t)), Cons(SetLabel(Lab(l + 2)), rest))
  }

  /** compose_inline_altwt_i386. */
  function AltwtCode(rest: Chain): Chain {
    Cons(Mv(StC(Num(NONE_SELECTED), Wptr, TEMP)), Cons(Cm(CmpCM(Num(READY), Wptr, PTR)), Cons(CJump(E, FLab(0)),
    Cons(Mv(StC(Num(WAITING), Wptr, PTR)), Cons(Mv(StC(Code(FLab(0)), Wptr, IPTR)),
    QuickCode(Cons(SetLabel(FLab(0)), rest)))))))
  }

  // ---- what the machine stores ----

  function Proc(p: nat): Val { Ptr(Work(p), 0) }

  function EncWord(w: Option<nat>): Val {
    if w.Some? then Proc(w.value) else Num(0)
  }

  function EncPtr(x: S.Pointer): Val {
    match x
    case Null => Num(0)
    case Enabling => Num(1)
    case Waiting => Num(WAITING)
    case Ready => Num(READY)
    case Data(b) => Ptr(Buf(b), 0)
  }

  function Field(p: nat, k: int): Addr { Addr(Work(p), k) }

  /** Fptr, Bptr and the link words spell out the run queue q, and the last link is null. */
  ghost predicate RunQ(m: Mach, q: seq<nat>) {
    && NoDup(q)
    && Get(m, Fptr) == (if q == [] then Num(0) else Proc(q[0]))
    && (q != [] ==> Get(m, Bptr) == Proc(q[|q| - 1]) && Load(m, Field(q[|q| - 1], LINK)) == Num(0))
    && (forall i :: 0 <= i < |q| - 1 ==> Load(m, Field(q[i], LINK)) == Proc(q[i + 1]))
  }

  ghost predicate Words(m: Mach, s: S.State) {
    && (forall p :: 0 <= p < |s.ps| ==> Load(m, Field(p, PTR)) == EncPtr(s.ps[p].ptr))
    && (forall c :: 0 <= c < |s.cs| ==> Load(m, Addr(Word(c), 0)) == EncWord(s.cs[c].word))
  }

  ghost predicate Buffers(m: Mach, mem: seq<S.Msg>) {
    forall b, i :: 0 <= b < |mem| && 0 <= i < |mem[b]| ==> LoadByte(m, Addr(Buf(b), i)) == mem[b][i]
  }

  /** The machine holds the kernel state s: who runs, the run queue, pointer and channel words, buffers. */
  ghost predicate Rep(m: Mach, s: S.State) {
    RunQ(m, s.runq) && Words(m, s) && Buffers(m, s.mem) && (s.curp.Some? ==> Get(m, Wptr) == Proc(s.curp.value))
  }

  /** Only the queue registers, the flags and link words differ. */
  ghost predicate QueueOnly(m: Mach, t: Mach) {
    && t.data == m.data && t.stack == m.stack
    && (forall r :: r != Fptr && r != Bptr ==> Get(t, r) == Get(m, r))
    && (forall a: Addr :: !(a.o.Work? && a.k == LINK) ==> Load(t, a) == Load(m, a))
  }

  /** The code has saved the address at which process p goes on, and has left: to the process at the head
      of the run queue of s, or to the kernel's scheduler when that queue is empty. */
  ghost predicate Rescheduled(e: End, s: S.State, p: nat, resume: Val) {
    e.Left? && Load(e.m, Field(p, IPTR)) == resume
    && if s.runq == [] then e.to == OccScheduler && Rep(e.m, s) else e.to == Resume && Rep(e.m, S.Dispatch(s))
  }

  /** Memory differs in link and resume words only. */
  ghost predicate LinksOnly(m: Mach, t: Mach) {
    && t.data == m.data
    && (forall a: Addr :: !(a.o.Work? && (a.k == LINK || a.k == IPTR)) ==> Load(t, a) == Load(m, a))
  }

  lemma RepLinks(m: Mach, t: Mach, s: S.State, z: S.State)
    requires Rep(m, s) && LinksOnly(m, t) && RunQ(t, z.runq)
    requires z == s.(runq := z.runq, curp := z.curp, status := z.status)
    requires z.curp.Some? ==> Get(t, Wptr) == Proc(z.curp.value)
    ensures Rep(t, z)
  {
  }

  /** Linking a process behind a queue. */
  lemma LinkedBehind(m: Mach, t: Mach, q: seq<nat>, p: nat)
    requires RunQ(m, q) && p !in q && Get(t, Bptr) == Proc(p) && Load(t, Field(p, LINK)) == Num(0)
    requires Get(t, Fptr) == if q == [] then Proc(p) else Get(m, Fptr)
    requires forall i :: 0 <= i < |q| ==>
      Load(t, Field(q[i], LINK)) == if i == |q| - 1 then Proc(p) else Load(m, Field(q[i], LINK))
    ensures RunQ(t, q + [p])
  {
    NoDupSnoc(q, p);
  }

  /** Moving on to the next process of a queue. */
  lemma MovedOn(m: Mach, t: Mach, q: seq<nat>)
    requires RunQ(m, q) && q != [] && t.mem == m.mem
    requires Get(t, Bptr) == Get(m, Bptr) && Get(t, Fptr) == Load(m, Field(q[0], LINK))
    ensures RunQ(t, q[1..])
  {
    NoDupTail(q);
    assert forall i :: 0 <= i < |q| - 1 ==> q[1..][i] == q[i + 1];
  }

  // ---- enqueue ----

  lemma EmptyEnqueue(m: Mach, p: nat, r: Reg, f: int, rest: Chain, n: nat) returns (t: Mach)
    requires RunQ(m, []) && Get(m, r) == Proc(p) && r != Fptr && r != Bptr && n > 9
    ensures Exec(EnqueueCode(r, f, rest), m, n) == Exec(rest, t, n - 6) && RunQ(t, [p]) && QueueOnly(m, t)
  {
    var c := EnqueueCode(r, f, rest);
    var m1 := Put(m, Field(p, LINK), Num(0));
    var m2 := m1.(fl := Compare(Num(0), Get(m1, Fptr)));
    var m3 := Set(m2, Fptr, Proc(p));
    t := Set(m3, Bptr, Proc(p));
    RunOne(c, m, m1, n);
    RunOne(c.tl, m1, m2, n - 1);
    assert Exec(c.tl.tl, m2, n - 2) == Exec(c.tl.tl.tl, m2, n - 3);
    RunOne(c.tl.tl.tl, m2, m3, n - 3);
    var c4 := c.tl.tl.tl.tl;
    assert Find(c4.tl, FLab(f + 1), 3) == Some(c4.tl.tl.tl.tl);
    RunJump(c4, m3, 3, n - 4);
    RunOne(c4.tl.tl.tl.tl, m3, t, n - 5);
  }

  lemma FullEnqueue(m: Mach, p: nat, last: nat, r: Reg, f: int, rest: Chain, n: nat) returns (t: Mach)
    requires Get(m, Fptr).Ptr? && Get(m, Bptr) == Proc(last) && p != last
    requires Get(m, r) == Proc(p) && r != Fptr && r != Bptr && n > 9
    ensures t
      == Set(Put(Put(m, Field(p, LINK), Num(0)), Field(last, LINK), Proc(p)), Bptr, Proc(p)).(fl := Known(false, false))
    ensures Exec(EnqueueCode(r, f, rest), m, n) == Exec(rest, t, n - 6)
  {
    var c := EnqueueCode(r, f, rest);
    var m1 := Put(m, Field(p, LINK), Num(0));
    var m2 := m1.(fl := Known(false, false));
    var m3 := Put(m2, Field(last, LINK), Proc(p));
    t := Set(m3, Bptr, Proc(p));
    RunOne(c, m, m1, n);
    RunOne(c.tl, m1, m2, n - 1);
    var c2 := c.tl.tl;
    assert Find(c2.tl, FLab(f), 3) == Some(c2.tl.tl.tl.tl);
    RunJump(c2, m2, 3, n - 2);
    var c3 := c2.tl.tl.tl.tl;
    RunOne(c3, m2, m3, n - 3);
    assert Exec(c3.tl, m3, n - 4) == Exec(c3.tl.tl, m3, n - 5);
    RunOne(c3.tl.tl, m3, t, n - 5);
  }

  /** The emitted enqueue puts the process at the back of the run queue. */
  lemma EnqueueRuns(m: Mach, q: seq<nat>, p: nat, r: Reg, f: int, rest: Chain, n: nat) returns (t: Mach)
    requires RunQ(m, q) && p !in q && Get(m, r) == Proc(p) && r != Fptr && r != Bptr && n > 9
    ensures Exec(EnqueueCode(r, f, rest), m, n) == Exec(rest, t, n - 6) && RunQ(t, q + [p]) && QueueOnly(m, t)
  {
    if q == [] { t := EmptyEnqueue(m, p, r, f, rest, n); assert q + [p] == [p]; }
    else {
      t := FullEnqueue(m, p, q[|q| - 1], r, f, rest, n);
      LinkedBehind(m, t, q, p);
    }
  }

  // ---- quick reschedule ----

  /** With a process on the run queue the head is resumed. */
  lemma QuickRuns(m: Mach, q: seq<nat>, rest: Chain, n: nat) returns (t: Mach)
    requires RunQ(m, q) && q != [] && n > 6
    ensures Exec(QuickCode(rest), m, n) == Left(t, Resume) && RunQ(t, q[1..]) && Get(t, Wptr) == Proc(q[0])
    ensures t.mem == m.mem && t.data == m.data
  {
    var c := QuickCode(rest);
    var m1 := m.(fl := Compare(Num(0), Get(m, Fptr)));
    var m2 := Set(m1, Wptr, Get(m, Fptr));
    t := Set(m2, Fptr, Load(m, Field(q[0], LINK)));
    RunOne(c, m, m1, n);
    RunJump(c.tl, m1, 2, n - 1);
    var c2 := c.tl.tl.tl.tl;
    RunOne(c2, m1, m2, n - 2);
    RunOne(c2.tl, m2, t, n - 3);
    MovedOn(m, t, q);
  }

  /** With an empty run queue the kernel is entered, and nothing but the flags has changed. */
  lemma QuickDeschedules(m: Mach, rest: Chain, n: nat)
    requires RunQ(m, []) && n > 3
    ensures Exec(QuickCode(rest), m, n) == Left(m.(fl := Known(true, false)), OccScheduler)
  {
    var c := QuickCode(rest);
    var m1 := m.(fl := Compare(Num(0), Get(m, Fptr)));
    RunOne(c, m, m1, n);
    assert Exec(c.tl, m1, n - 1) == Exec(c.tl.tl, m1, n - 2);
  }

  /** The emitted quick reschedule runs the head of the queue, or goes to the kernel's scheduler. */
  lemma QuickReschedules(m: Mach, s: S.State, p: nat, v: Val, rest: Chain, n: nat)
    requires Rep(m, s) && s.curp == None && Load(m, Field(p, IPTR)) == v && n > 6
    ensures Rescheduled(Exec(QuickCode(rest), m, n), s, p, v)
  {
    if s.runq == [] { QuickDeschedules(m, rest, n); }
    else { var t := QuickRuns(m, s.runq, rest, n); }
  }

  // ---- full reschedule ----

  lemma {:induction false} OrIsZero(a: nat, b: nat)
    ensures OrBits(a, b) == 0 <==> a == 0 && b == 0
    decreases a
  {
    if a == 0 {
    } else {
      OrIsZero(a / 2, b / 2);
    }
  }

  /** The sync words hold the numbers x and y. */
  ghost predicate SyncWords(m: Mach, x: nat, y: nat) {
    Load(m, Addr(Name(SYNC), 0)) == Num(x) && Load(m, Addr(Name(SYNC), 4)) == Num(y)
  }

  ghost predicate SameQueue(m: Mach, t: Mach) {
    t.mem == m.mem && t.data == m.data
    && Get(t, Wptr) == Get(m, Wptr) && Get(t, Fptr) == Get(m, Fptr) && Get(t, Bptr) == Get(m, Bptr)
  }

  /** The test of the sync words. */
  lemma FullHead(m: Mach, x: nat, y: nat, t: Reg, u: Reg, rest: Chain, n: nat) returns (r: Mach)
    requires SyncWords(m, x, y) && t.V? && u.V? && t != u && n > 4
    ensures Exec(FullCode(t, u, rest), m, n) == Exec(FullCode(t, u, rest).tl.tl.tl, r, n - 3)
    ensures r.fl == Known(x == 0 && y == 0, false) && SameQueue(m, r)
  {
    var c := FullCode(t, u, rest);
    var m1 := Set(m, u, Ptr(Name(SYNC), 0));
    var m2 := Set(m1, t, Num(x));
    r := Set(m2, t, Num(OrBits(y, x))).(fl := Known(Num(OrBits(y, x)) == Num(0), false));
    RunOne(c, m, m1, n);
    RunOne(c.tl, m1, m2, n - 1);
    RunOne(c.tl.tl, m2, r, n - 2);
    OrIsZero(y, x);
  }

  /** The resume address is saved and the link cleared: the running process is ready to be queued. */
  function Parked(m: Mach, p: nat): Mach {
    Put(Put(m, Field(p, IPTR), Code(FLab(0))), Field(p, LINK), Num(0))
  }

  /** m with the flags of a test of Fptr. */
  function Tested(m: Mach): Mach {
    Set(m, Fptr, Get(m, Fptr)).(fl := Known(Get(m, Fptr) == Num(0), false))
  }

  lemma JoinAlone(m: Mach, p: nat, rest: Chain, n: nat)
    requires Get(m, Wptr) == Proc(p) && m.fl == Known(true, false) && n > 12
    ensures Exec(JoinCode(rest), m, n) == Left(Set(Set(m, Fptr, Proc(p)), Bptr, Proc(p)), OccScheduler)
  {
    var c := JoinCode(rest);
    RunJump(c, m, 3, n);
    var c1 := c.tl.tl.tl.tl;
    var m1 := Set(m, Fptr, Proc(p));
    RunOne(c1, m, m1, n - 1);
    assert Exec(c1.tl, m1, n - 2) == Exec(c1.tl.tl, m1, n - 3);
    RunOne(c1.tl.tl, m1, Set(m1, Bptr, Proc(p)), n - 3);
  }

  lemma JoinQueue(m: Mach, p: nat, last: nat, rest: Chain, n: nat)
    requires Get(m, Wptr) == Proc(p) && Get(m, Bptr) == Proc(last) && m.fl == Known(false, false) && n > 12
    ensures Exec(JoinCode(rest), m, n) == Left(Set(Put(m, Field(last, LINK), Proc(p)), Bptr, Proc(p)), OccScheduler)
  {
    var c := JoinCode(rest);
    var m1 := Put(m, Field(last, LINK), Proc(p));
    assert Exec(c, m, n) == Exec(c.tl, m, n - 1);
    RunOne(c.tl, m, m1, n - 1);
    RunJump(c.tl.tl, m1, 3, n - 2);
    RunOne(c.tl.tl.tl.tl.tl.tl, m1, Set(m1, Bptr, Proc(p)), n - 3);
  }

  lemma ParkRuns(m: Mach, p: nat, rest: Chain, n: nat)
    requires Get(m, Wptr) == Proc(p) && n > 3
    ensures Exec(SyncedCode(rest), m, n) == Exec(JoinCode(rest), Tested(Parked(m, p)), n - 3)
  {
    var c := SyncedCode(rest);
    var m1 := Put(m, Field(p, IPTR), Code(FLab(0)));
    RunOne(c, m, m1, n);
    RunOne(c.tl, m1, Parked(m, p), n - 1);
    RunOne(c.tl.tl, Parked(m, p), Tested(Parked(m, p)), n - 2);
  }

  /** The queue after joining it. */
  lemma Joined(m: Mach, q: seq<nat>, p: nat) returns (t: Mach)
    requires RunQ(m, q) && p !in q
    ensures var m1 := Tested(Parked(m, p));
      t == if q == [] then Set(Set(m1, Fptr, Proc(p)), Bptr, Proc(p))
        else Set(Put(m1, Field(q[|q| - 1], LINK), Proc(p)), Bptr, Proc(p))
    ensures RunQ(t, q + [p]) && LinksOnly(m, t) && Load(t, Field(p, IPTR)) == Code(FLab(0))
  {
    var m1 := Tested(Parked(m, p));
    t := if q == [] then Set(Set(m1, Fptr, Proc(p)), Bptr, Proc(p))
        else Set(Put(m1, Field(q[|q| - 1], LINK), Proc(p)), Bptr, Proc(p));
    LinkedBehind(m, t, q, p);
  }

  /** With sync activity the process joins the back of the queue and the kernel is entered. */
  lemma SyncedRuns(m: Mach, s: S.State, p: nat, rest: Chain, n: nat)
    requires Rep(m, s) && s.curp == Some(p) && p !in s.runq && n > 16
    ensures var e := Exec(SyncedCode(rest), m, n);
      e.Left? && e.to == OccScheduler && Rep(e.m, S.Leave(S.LinkProc(s, p)).s)
      && Load(e.m, Field(p, IPTR)) == Code(FLab(0))
  {
    var q := s.runq;
    ParkRuns(m, p, rest, n);
    var m1 := Tested(Parked(m, p));
    if q == [] { JoinAlone(m1, p, rest, n - 3); } else { JoinQueue(m1, p, q[|q| - 1], rest, n - 3); }
    var t := Joined(m, q, p);
    hide Exec, LinksOnly;
    RepLinks(m, t, s, S.Leave(S.LinkProc(s, p)).s);
  }

  lemma FindUnsynced(rest: Chain)
    ensures Find(SyncedCode(UnsyncedCode(rest)), FLab(3), 14) == Some(UnsyncedCode(rest).tl)
  {
    var c := JoinCode(UnsyncedCode(rest));
    assert Find(c, FLab(3), 11) == Find(c.tl.tl.tl.tl.tl, FLab(3), 6);
  }

  lemma FindOut(rest: Chain)
    ensures Find(SwitchCode(rest), FLab(0), 12) == Some(rest)
  {
    var c := SwitchCode(rest);
    assert Find(c, FLab(0), 12) == Find(c.tl.tl.tl.tl.tl, FLab(0), 7);
  }

  /** Without sync activity and with nobody else to run, the code goes on. */
  lemma AloneGoesOn(m: Mach, rest: Chain, n: nat)
    requires Get(m, Fptr) == Num(0) && n > 20
    ensures Exec(UnsyncedCode(rest).tl, m, n) == Exec(rest, Tested(m), n - 2)
  {
    var c := UnsyncedCode(rest).tl;
    RunOne(c, m, Tested(m), n);
    FindOut(rest);
    assert Find(c.tl.tl, FLab(0), 14) == Find(SwitchCode(rest), FLab(0), 12);
    RunJump(c.tl, Tested(m), 14, n - 1);
  }

  /** With one other process the two change places. */
  lemma SwapRuns(m: Mach, p: nat, q: nat, rest: Chain, n: nat)
    requires Get(m, Wptr) == Proc(p) && Get(m, Fptr) == Proc(q) && Get(m, Bptr) == Proc(q) && n > 12
    ensures Exec(SwitchCode(rest), m, n)
      == Left(Set(Set(Set(m, Wptr, Proc(q)), Fptr, Proc(p)), Bptr, Proc(p)).(fl := Known(true, false)), Resume)
  {
    var c := SwitchCode(rest);
    var m1 := m.(fl := Known(true, false));
    var m2 := Set(Set(m1, Wptr, Proc(q)), Fptr, Proc(p));
    RunOne(c, m, m1, n);
    assert Find(c.tl.tl, FLab(4), 6) == Some(c.tl.tl.tl.tl.tl.tl.tl.tl);
    RunJump(c.tl, m1, 6, n - 1);
    var c1 := c.tl.tl.tl.tl.tl.tl.tl.tl;
    RunOne(c1, m1, m2, n - 2);
    RunOne(c1.tl, m2, Set(m2, Bptr, Proc(p)), n - 3);
  }

  /** With several, the running one goes to the back and the head runs. */
  lemma SwitchRuns(m: Mach, p: nat, q: nat, last: nat, rest: Chain, n: nat)
    requires Get(m, Wptr) == Proc(p) && Get(m, Fptr) == Proc(q) && Get(m, Bptr) == Proc(last) && q != last && n > 12
    ensures var t := Put(m, Field(last, LINK), Proc(p));
      Exec(SwitchCode(rest), m, n) == Left(Set(Set(Set(t, Bptr, Proc(p)), Wptr, Proc(q)), Fptr,
        Load(t, Field(q, LINK))).(fl := Known(false, false)), Resume)
  {
    var c := SwitchCode(rest);
    var m1 := m.(fl := Known(false, false));
    var m2 := Put(m1, Field(last, LINK), Proc(p));
    var m3 := Set(m2, Bptr, Proc(p));
    var m4 := Set(m3, Wptr, Proc(q));
    RunOne(c, m, m1, n);
    assert Exec(c.tl, m1, n - 1) == Exec(c.tl.tl, m1, n - 2);
    var c1 := c.tl.tl;
    RunOne(c1, m1, m2, n - 2);
    RunOne(c1.tl, m2, m3, n - 3);
    RunOne(c1.tl.tl, m3, m4, n - 4);
    RunOne(c1.tl.tl.tl, m4, Set(m4, Fptr, Load(m4, Field(q, LINK))), n - 5);
  }

  lemma UnsyncedHead(m: Mach, p: nat, rest: Chain, n: nat) returns (r: Mach)
    requires Get(m, Wptr) == Proc(p) && Get(m, Fptr).Ptr? && n > 20
    ensures Exec(UnsyncedCode(rest).tl, m, n) == Exec(SwitchCode(rest), r, n - 4)
    ensures r == Put(Put(Tested(m), Field(p, LINK), Num(0)), Field(p, IPTR), Code(FLab(0)))
  {
    var c := UnsyncedCode(rest).tl;
    var m2 := Put(Tested(m), Field(p, LINK), Num(0));
    r := Put(m2, Field(p, IPTR), Code(FLab(0)));
    RunOne(c, m, Tested(m), n);
    assert Exec(c.tl, Tested(m), n - 1) == Exec(c.tl.tl, Tested(m), n - 2);
    RunOne(c.tl.tl, Tested(m), m2, n - 2);
    RunOne(c.tl.tl.tl, m2, r, n - 3);
  }

  /** One other process: the two change places. */
  lemma Swapped(m: Mach, s: S.State, p: nat, r: Mach)
    requires Rep(m, s) && s.curp == Some(p) && p !in s.runq && |s.runq| == 1
    requires r == Put(Put(Tested(m), Field(p, LINK), Num(0)), Field(p, IPTR), Code(FLab(0)))
    ensures var q := s.runq[0];
      var t := Set(Set(Set(r, Wptr, Proc(q)), Fptr, Proc(p)), Bptr, Proc(p)).(fl := Known(true, false));
      Rep(t, S.Dispatch(S.Leave(S.LinkProc(s, p)).s)) && Load(t, Field(p, IPTR)) == Code(FLab(0))
  {
    var q := s.runq[0];
    var t := Set(Set(Set(r, Wptr, Proc(q)), Fptr, Proc(p)), Bptr, Proc(p)).(fl := Known(true, false));
    var z := S.Leave(S.LinkProc(s, p)).s;
    assert z.runq[1..] == [p];
    RepLinks(m, t, s, S.Dispatch(z));
  }

  /** More: the first goes and the process comes behind the last. */
  lemma Switched(m: Mach, s: S.State, p: nat, r: Mach)
    requires Rep(m, s) && s.curp == Some(p) && p !in s.runq && |s.runq| > 1
    requires r == Put(Put(Tested(m), Field(p, LINK), Num(0)), Field(p, IPTR), Code(FLab(0)))
    ensures var q := s.runq; var u := Put(r, Field(q[|q| - 1], LINK), Proc(p));
      var t := Set(Set(Set(u, Bptr, Proc(p)), Wptr, Proc(q[0])), Fptr,
          Load(u, Field(q[0], LINK))).(fl := Known(false, false));
      Rep(t, S.Dispatch(S.Leave(S.LinkProc(s, p)).s)) && Load(t, Field(p, IPTR)) == Code(FLab(0))
  {
    var q := s.runq;
    var u := Set(Put(r, Field(q[|q| - 1], LINK), Proc(p)), Bptr, Proc(p));
    var t := Set(Set(u, Wptr, Proc(q[0])), Fptr, Load(u, Field(q[0], LINK))).(fl := Known(false, false));
    LinkedBehind(m, u, q, p);
    MovedOn(u, t, q + [p]);
    assert (q + [p])[0] == q[0];
    RepLinks(m, t, s, S.Dispatch(S.Leave(S.LinkProc(s, p)).s));
  }

  /** Without sync activity the head of the queue runs and the running process goes to the back. */
  lemma UnsyncedRuns(m: Mach, s: S.State, p: nat, rest: Chain, n: nat)
    requires Rep(m, s) && s.curp == Some(p) && p !in s.runq && s.runq != [] && n > 20
    ensures Rescheduled(Exec(UnsyncedCode(rest).tl, m, n), S.Leave(S.LinkProc(s, p)).s, p, Code(FLab(0)))
  {
    var q := s.runq;
    var r := UnsyncedHead(m, p, rest, n);
    hide Exec;
    if |q| == 1 {
      SwapRuns(r, p, q[0], rest, n - 4);
      Swapped(m, s, p, r);
    } else {
      SwitchRuns(r, p, q[0], q[|q| - 1], rest, n - 4);
      Switched(m, s, p, r);
    }
  }

  /** The emitted full reschedule.  With sync activity the process is queued and the kernel entered;
      otherwise, with nobody else to run, it goes on; otherwise the head of the queue runs and the
      process has gone to the back, whether it was one process long or longer. */
  lemma FullRuns(m: Mach, s: S.State, p: nat, x: nat, y: nat, t: Reg, u: Reg, rest: Chain, n: nat)
    requires Rep(m, s) && s.curp == Some(p) && p !in s.runq && SyncWords(m, x, y) && t.V? && u.V? && t != u && n > 30
    ensures var e := Exec(FullCode(t, u, rest), m, n);
      var z := S.Leave(S.LinkProc(s, p)).s;
      if x != 0 || y != 0 then
        e.Left? && e.to == OccScheduler && Rep(e.m, z) && Load(e.m, Field(p, IPTR)) == Code(FLab(0))
      else if s.runq != [] then Rescheduled(e, z, p, Code(FLab(0)))
      else exists r: Mach :: Rep(r, s) && e == Exec(rest, r, n - 6)
  {
    var r := FullHead(m, x, y, t, u, rest, n);
    var c := FullCode(t, u, rest).tl.tl.tl;
    RepLinks(m, r, s, s);
    if x != 0 || y != 0 {
      assert Exec(c, r, n - 3) == Exec(c.tl, r, n - 4);
      SyncedRuns(r, s, p, UnsyncedCode(rest), n - 4);
    } else {
      FindUnsynced(rest);
      RunJump(c, r, 14, n - 3);
      if s.runq != [] { UnsyncedRuns(r, s, p, rest, n - 4); }
      else {
        AloneGoesOn(r, rest, n - 4);
        RepLinks(r, Tested(r), s, s);
      }
    }
  }

  // ---- input ----

  /** The bytes of buffer a from off to off + k have been copied to b; nothing else in memory differs. */
  ghost predicate CopiedTo(m: Mach, t: Mach, a: nat, b: nat, off: nat, k: nat) {
    t.mem == m.mem && t.stack == m.stack
    && forall x: Addr {:trigger LoadByte(t, x)} :: LoadByte(t, x)
         == if x.o == Buf(b) && off <= x.k < off + k then LoadByte(m, Addr(Buf(a), x.k)) else LoadByte(m, x)
  }

  ghost predicate RegsBut(m: Mach, t: Mach, r: Reg) {
    forall q :: q != r ==> Get(t, q) == Get(m, q)
  }

  lemma MoveStepDoes(m: Mach, a: nat, b: nat, off: nat, w: nat)
    requires w == 1 || w == 4
    ensures var t := MoveStep(m, Addr(Buf(a), off), Addr(Buf(b), off), w);
      CopiedTo(m, t, a, b, off, w) && t.regs == m.regs
  {
  }

  function Width(k: nat): nat { if k > 3 then 4 else 1 }

  function Loaded(m: Mach, a: nat, off: nat, j: nat): Val {
    var at := Addr(Buf(a), off);
    if j == 1 then Bytes([LoadByte(m, at)])
    else Bytes([LoadByte(m, at), LoadByte(m, at.(k := off + 1)),
                LoadByte(m, at.(k := off + 2)), LoadByte(m, at.(k := off + 3))])
  }

  /** The machine after one load through register v and one store, of four bytes or of one. */
  function CopyStep(m: Mach, v: Reg, a: nat, b: nat, off: nat, j: nat): Mach {
    MoveStep(Set(m, v, Loaded(m, a, off, j)), Addr(Buf(a), off), Addr(Buf(b), off), j)
  }

  lemma LoadStore(m: Mach, src: Reg, dst: Reg, v: Reg, a: nat, b: nat, off: nat, j: nat)
    requires Get(m, src) == Ptr(Buf(a), 0) && Get(m, dst) == Ptr(Buf(b), 0) && v != src && v != dst
    requires j == 1 || j == 4
    ensures var m1 := Set(m, v, Loaded(m, a, off, j));
      && DoByte(if j == 4 then Ld4(src, off, v) else Ld1(src, off, v), m) == Some(m1)
      && DoByte(if j == 4 then St4(v, dst, off) else St1(v, dst, off), m1) == Some(CopyStep(m, v, a, b, off, j))
  {
  }

  lemma CopyStepRuns(m: Mach, src: Reg, dst: Reg, v: Reg, a: nat, b: nat, off: nat, k: nat, rest: Chain, n: nat)
    requires Get(m, src) == Ptr(Buf(a), 0) && Get(m, dst) == Ptr(Buf(b), 0) && v != src && v != dst && k > 0 && n > 2
    ensures Exec(CopyCode(src, dst, v, off, k, rest), m, n)
      == Exec(CopyCode(src, dst, v, off + Width(k), k - Width(k), rest), CopyStep(m, v, a, b, off, Width(k)), n - 2)
  {
    hide Exec, DoByte, CopyStep, Loaded;
    var c := CopyCode(src, dst, v, off, k, rest);
    var m1 := Set(m, v, Loaded(m, a, off, Width(k)));
    LoadStore(m, src, dst, v, a, b, off, Width(k));
    RunOne(c, m, m1, n);
    RunOne(c.tl, m1, CopyStep(m, v, a, b, off, Width(k)), n - 1);
  }

  lemma CopyStepDoes(m: Mach, v: Reg, a: nat, b: nat, off: nat, j: nat)
    requires j == 1 || j == 4
    ensures CopiedTo(m, CopyStep(m, v, a, b, off, j), a, b, off, j) && RegsBut(m, CopyStep(m, v, a, b, off, j), v)
  {
  }

  lemma CopiedJoin(m: Mach, r: Mach, t: Mach, a: nat, b: nat, off: nat, j: nat, k: nat, v: Reg)
    requires j <= k && CopiedTo(m, r, a, b, off, j) && CopiedTo(r, t, a, b, off + j, k - j)
    requires RegsBut(m, r, v) && RegsBut(r, t, v)
    ensures CopiedTo(m, t, a, b, off, k) && RegsBut(m, t, v)
  {
    forall x: Addr ensures LoadByte(t, x)
      == if x.o == Buf(b) && off <= x.k < off + k then LoadByte(m, Addr(Buf(a), x.k)) else LoadByte(m, x)
    {
      assert LoadByte(r, Addr(Buf(a), x.k)) == LoadByte(m, Addr(Buf(a), x.k));
      assert LoadByte(t, x) == if x.o == Buf(b) && off + j <= x.k < off + k then LoadByte(r, Addr(Buf(a), x.k))
        else LoadByte(r, x);
    }
    forall q | q != v ensures Get(t, q) == Get(m, q) { assert Get(t, q) == Get(r, q); }
  }

  lemma CopyRound(m: Mach, src: Reg, dst: Reg, v: Reg, a: nat, b: nat, off: nat, k: nat, rest: Chain, n: nat)
    returns (r: Mach)
    requires Get(m, src) == Ptr(Buf(a), 0) && Get(m, dst) == Ptr(Buf(b), 0) && v != src && v != dst && k > 0 && n > 2
    ensures Exec(CopyCode(src, dst, v, off, k, rest), m, n)
      == Exec(CopyCode(src, dst, v, off + Width(k), k - Width(k), rest), r, n - 2)
    ensures CopiedTo(m, r, a, b, off, Width(k)) && RegsBut(m, r, v)
    ensures Get(r, src) == Get(m, src) && Get(r, dst) == Get(m, dst)
  {
    r := CopyStep(m, v, a, b, off, Width(k));
    CopyStepRuns(m, src, dst, v, a, b, off, k, rest, n);
    CopyStepDoes(m, v, a, b, off, Width(k));
  }

  lemma CopyNone(m: Mach, src: Reg, dst: Reg, v: Reg, a: nat, b: nat, off: nat, rest: Chain)
    ensures CopyCode(src, dst, v, off, 0, rest) == rest && CopiedTo(m, m, a, b, off, 0) && RegsBut(m, m, v)
  {
  }

  /** The emitted copying code copies exactly k bytes. */
  lemma {:induction false} CopyRuns(m: Mach, src: Reg, dst: Reg, v: Reg, a: nat, b: nat, off: nat, k: nat,
                                    rest: Chain, n: nat)
    returns (t: Mach, left: nat)
    requires Get(m, src) == Ptr(Buf(a), 0) && Get(m, dst) == Ptr(Buf(b), 0) && v != src && v != dst && n > 2 * k
    ensures Exec(CopyCode(src, dst, v, off, k, rest), m, n) == Exec(rest, t, left) && n - 2 * k <= left <= n
    ensures CopiedTo(m, t, a, b, off, k) && RegsBut(m, t, v)
    decreases k
  {
    hide CopyCode, Exec, CopiedTo, RegsBut;
    if k == 0 {
      CopyNone(m, src, dst, v, a, b, off, rest);
      t, left := m, n;
    } else {
      var r := CopyRound(m, src, dst, v, a, b, off, k, rest, n);
      t, left := CopyRuns(r, src, dst, v, a, b, off + Width(k), k - Width(k), rest, n - 2);
      CopiedJoin(m, r, t, a, b, off, Width(k), k, v);
    }
  }

  lemma RepHolds(m: Mach, s: S.State, c: nat)
    requires Rep(m, s) && c < |s.cs|
    ensures Load(m, Addr(Word(c), 0)) == EncWord(s.cs[c].word) && (s.curp.Some? ==> Get(m, Wptr) == Proc(s.curp.value))
  {
  }

  /** Writing a channel word. */
  lemma RepWord(m: Mach, s: S.State, c: nat, w: Option<nat>)
    requires Rep(m, s) && c < |s.cs|
    ensures Rep(Put(m, Addr(Word(c), 0), EncWord(w)), S.SetWord(s, c, w))
  {
  }

  /** Writing a pointer word. */
  lemma RepPtr(m: Mach, s: S.State, p: nat, x: S.Pointer)
    requires Rep(m, s) && p < |s.ps|
    ensures Rep(Put(m, Field(p, PTR), EncPtr(x)), S.SetPtr(s, p, x))
  {
  }

  /** Writing a resume address or a Temp slot. */
  lemma RepOther(m: Mach, s: S.State, p: nat, k: int, v: Val)
    requires Rep(m, s) && k != PTR && k != LINK
    ensures Rep(Put(m, Field(p, k), v), s)
  {
  }

  /** Flags and virtual registers are free. */
  lemma RepSame(m: Mach, t: Mach, s: S.State)
    requires Rep(m, s) && SameQueue(m, t)
    ensures Rep(t, s)
  {
  }

  /** The two states look the same to the machine. */
  lemma RepPhase(m: Mach, s: S.State, z: S.State)
    requires Rep(m, s) && z.runq == s.runq && z.mem == s.mem && (z.curp.Some? ==> z.curp == s.curp)
    requires |z.ps| == |s.ps| && forall p :: 0 <= p < |s.ps| ==> z.ps[p].ptr == s.ps[p].ptr
    requires |z.cs| == |s.cs| && forall c :: 0 <= c < |s.cs| ==> z.cs[c].word == s.cs[c].word
    ensures Rep(m, z)
  {
  }

  /** The size of the message is k, known or in a register. */
  ghost predicate SizeIs(m: Mach, size: Size, k: nat) {
    k < W && match size case Fixed(n) => n == k case Held(g) => g.V? && Get(m, g) == Num(k)
  }

  /** Registers of an input: channel c, buffer b, a size of k bytes, and three temporaries, all different. */
  ghost predicate InRegs(m: Mach, ch: Reg, dst: Reg, t: Reg, u: Reg, v: Reg, size: Size, c: nat, b: nat, k: nat) {
    && ch.V? && dst.V? && t.V? && u.V? && v.V? && t !in {ch, dst} && u !in {ch, dst, t} && v !in {ch, dst, t, u}
    && Get(m, ch) == Ptr(Word(c), 0) && Get(m, dst) == Ptr(Buf(b), 0)
    && SizeIs(m, size, k) && (size.Held? ==> size.r !in {t, u, v})
  }

  /** The process in the channel word, the destination and the resume address in its workspace. */
  function Committed(m: Mach, p: nat, c: nat, b: nat): Mach {
    Put(Put(Put(m, Addr(Word(c), 0), Proc(p)), Field(p, PTR), Ptr(Buf(b), 0)), Field(p, IPTR), Code(FLab(1)))
        .(fl := Known(true, false))
  }

  lemma InCommits(m: Mach, p: nat, c: nat, b: nat, ch: Reg, dst: Reg, t: Reg, u: Reg, v: Reg, size: Size, rest: Chain,
                  n: nat)
    requires Get(m, Wptr) == Proc(p) && Get(m, ch) == Ptr(Word(c), 0) && Get(m, dst) == Ptr(Buf(b), 0) && n > 20
    requires Load(m, Addr(Word(c), 0)) == Num(0)
    ensures Exec(InCode(ch, dst, t, u, v, size, rest), m, n)
      == Exec(QuickCode(Cons(SetLabel(FLab(0)), TakeCode(ch, dst, t, u, v, size, rest))), Committed(m, p, c, b), n - 5)
  {
    hide TakeCode, QuickCode;
    var code := InCode(ch, dst, t, u, v, size, rest);
    var m1 := m.(fl := Known(true, false));
    var m2 := Put(m1, Addr(Word(c), 0), Proc(p));
    var m3 := Put(m2, Field(p, PTR), Ptr(Buf(b), 0));
    RunOne(code, m, m1, n);
    assert Exec(code.tl, m1, n - 1) == Exec(code.tl.tl, m1, n - 2);
    var c1 := code.tl.tl;
    RunOne(c1, m1, m2, n - 2);
    RunOne(c1.tl, m2, m3, n - 3);
    RunOne(c1.tl.tl, m3, Committed(m, p, c, b), n - 4);
  }

  lemma CommittedRep(m: Mach, s: S.State, p: nat, c: nat, b: nat, k: nat)
    requires Rep(m, s) && s.curp == Some(p) && p < |s.ps| && c < |s.cs| && s.cs[c].word == None
    ensures Rep(Committed(m, p, c, b), S.ChanIn(s, p, c, b, k).s)
  {
    var m1 := Put(m, Addr(Word(c), 0), Proc(p));
    var m2 := Put(m1, Field(p, PTR), Ptr(Buf(b), 0));
    var m3 := Put(m2, Field(p, IPTR), Code(FLab(1)));
    var s1 := S.SetWord(s, c, Some(p));
    var s2 := S.SetPtr(s1, p, S.Data(b));
    RepWord(m, s, c, Some(p));
    RepPtr(m1, s1, p, S.Data(b));
    RepOther(m2, s2, p, IPTR, Code(FLab(1)));
    hide Rep;
    assert SameQueue(m3, Committed(m, p, c, b));
    RepSame(m3, Committed(m, p, c, b), s2);
    RepPhase(Committed(m, p, c, b), s2, S.ChanIn(s, p, c, b, k).s);
  }

  /** Nobody in the channel: commit and reschedule. */
  lemma InBlocks(m: Mach, s: S.State, p: nat, c: nat, b: nat, k: nat, ch: Reg, dst: Reg, t: Reg, u: Reg, v: Reg,
                 size: Size, rest: Chain, n: nat)
    requires Rep(m, s) && s.curp == Some(p) && p < |s.ps| && c < |s.cs| && s.cs[c].word == None && n > 20
    requires InRegs(m, ch, dst, t, u, v, size, c, b, k)
    ensures Rescheduled(Exec(InCode(ch, dst, t, u, v, size, rest), m, n), S.ChanIn(s, p, c, b, k).s, p, Code(FLab(1)))
  {
    hide Exec, InCode, TakeCode, QuickCode, Rescheduled;
    RepHolds(m, s, c);
    InCommits(m, p, c, b, ch, dst, t, u, v, size, rest, n);
    CommittedRep(m, s, p, c, b, k);
    hide Rep;
    QuickReschedules(Committed(m, p, c, b), S.ChanIn(s, p, c, b, k).s, p, Code(FLab(1)),
                     Cons(SetLabel(FLab(0)), TakeCode(ch, dst, t, u, v, size, rest)), n - 5);
  }

  lemma RepCopy(m: Mach, t: Mach, s: S.State, b: nat, src: nat, k: nat, v: Reg)
    requires Rep(m, s) && CopiedTo(m, t, src, b, 0, k) && RegsBut(m, t, v) && v.V?
    requires b < |s.mem| && src < |s.mem| && k <= |s.mem[b]| && k <= |s.mem[src]|
    ensures Rep(t, S.CopyBuf(s, b, src, k))
  {
  }

  lemma RepQueue(m: Mach, t: Mach, s: S.State, q: nat)
    requires Rep(m, s) && QueueOnly(m, t) && RunQ(t, s.runq + [q])
    ensures Rep(t, S.LinkProc(s, q))
  {
    RepLinks(m, t, s, S.LinkProc(s, q));
  }

  lemma FindTake(rest: Chain)
    ensures Find(QuickCode(Cons(SetLabel(FLab(0)), rest)), FLab(0), 8) == Some(rest)
  {
    var c := QuickCode(Cons(SetLabel(FLab(0)), rest));
    assert Find(c, FLab(0), 8) == Find(c.tl.tl.tl.tl, FLab(0), 4);
  }

  /** Take the process q out of channel c and enqueue it. */
  lemma TakeHead(m: Mach, s: S.State, q: nat, c: nat, ch: Reg, t: Reg, rest: Chain, n: nat) returns (r: Mach)
    requires Rep(m, s) && c < |s.cs| && s.cs[c].word == Some(q) && q !in s.runq && n > 20
    requires ch.V? && t.V? && ch != t && Get(m, ch) == Ptr(Word(c), 0)
    ensures Exec(Cons(Mv(Ld(ch, 0, t)), EnqueueCode(t, 2, Cons(Mv(StC(Num(0), ch, 0)), rest))), m, n)
      == Exec(rest, r, n - 8)
    ensures Rep(r, S.SetWord(S.LinkProc(s, q), c, None)) && Get(r, t) == Proc(q) && r.stack == m.stack
    ensures forall x: Reg :: x.V? && x != t ==> Get(r, x) == Get(m, x)
  {
    var c0 := Cons(Mv(StC(Num(0), ch, 0)), rest);
    var code := Cons(Mv(Ld(ch, 0, t)), EnqueueCode(t, 2, c0));
    var m1 := Set(m, t, Proc(q));
    RunOne(code, m, m1, n);
    RepSame(m, m1, s);
    var m2 := EnqueueRuns(m1, s.runq, q, t, 2, c0, n - 1);
    RepQueue(m1, m2, s, q);
    r := Put(m2, Addr(Word(c), 0), Num(0));
    RunOne(c0, m2, r, n - 7);
    RepWord(m2, S.LinkProc(s, q), c, None);
    forall x: Reg | x.V? && x != t ensures Get(r, x) == Get(m, x) { assert Get(m2, x) == Get(m1, x); }
  }

  /** The message of the outputter q is in buffer src. */
  ghost predicate Offered(s: S.State, q: nat, src: nat, b: nat, k: nat) {
    q < |s.ps| && s.ps[q].ptr == S.Data(src) && q !in s.runq
    && b < |s.mem| && src < |s.mem| && k <= |s.mem[b]| && k <= |s.mem[src]|
  }

  /** A short message. */
  lemma ShortMessage(m: Mach, b: nat, q: nat, src: nat, t: Reg, dst: Reg, u: Reg, v: Reg, k: nat, rest: Chain, n: nat)
    returns (r: Mach, left: nat)
    requires Load(m, Field(q, PTR)) == Ptr(Buf(src), 0) && Get(m, t) == Proc(q) && Get(m, dst) == Ptr(Buf(b), 0)
    requires u.V? && v.V? && u != dst && v != dst && v != u && n > 4 + 2 * k && Short(Fixed(k))
    ensures Exec(MessageCode(t, dst, u, v, Fixed(k), rest), m, n) == Exec(rest, r, left)
    ensures left >= n - 1 - 2 * k && CopiedTo(Set(m, u, Ptr(Buf(src), 0)), r, src, b, 0, k)
    ensures RegsBut(Set(m, u, Ptr(Buf(src), 0)), r, v)
  {
    var m1 := Set(m, u, Ptr(Buf(src), 0));
    RunOne(MessageCode(t, dst, u, v, Fixed(k), rest), m, m1, n);
    r, left := CopyRuns(m1, u, dst, v, src, b, 0, k, rest, n - 1);
  }

  /** A string move between buffers copies exactly its bytes. */
  lemma {:induction false} RepMoveDoes(m: Mach, a: nat, b: nat, off: nat, w: nat, n: nat)
    requires w == 1 || w == 4
    ensures var t := RepMove(m, Addr(Buf(a), off), Addr(Buf(b), off), w, n);
      CopiedTo(m, t, a, b, off, Span(w, n)) && t.regs == m.regs
    decreases n
  {
    if n == 0 {
      assert RepMove(m, Addr(Buf(a), off), Addr(Buf(b), off), w, n) == m;
    } else {
      hide CopiedTo;
      var r := MoveStep(m, Addr(Buf(a), off), Addr(Buf(b), off), w);
      MoveStepDoes(m, a, b, off, w);
      RepMoveDoes(r, a, b, off + w, w, n - 1);
      var t := RepMove(r, Addr(Buf(a), off + w), Addr(Buf(b), off + w), w, n - 1);
      CopiedJoin(m, r, t, a, b, off, w, Span(w, n), Wptr);
    }
  }

  /** The string move itself, in every case of the size. */
  lemma MoveRuns(m: Mach, a: nat, b: nat, u: Reg, size: Size, k: nat, rest: Chain, n: nat) returns (r: Mach, x: Reg)
    requires Get(m, Fptr) == Ptr(Buf(a), 0) && Get(m, Bptr) == Ptr(Buf(b), 0) && u.V? && SizeIs(m, size, k) && n > 3
    ensures exists left: nat :: left >= n - 2 && Exec(MoveCode(u, size, rest), m, n) == Exec(rest, r, left)
    ensures CopiedTo(m, r, a, b, 0, k) && x.V?
    ensures forall q :: q !in {x, Fptr, Bptr} ==> Get(r, q) == Get(m, q)
  {
    var code := MoveCode(u, size, rest);
    var w := if size.Fixed? && k % 4 == 0 then 4 else 1;
    var m1, c1, left := m, code, n;
    x := if size.Fixed? then u else size.r;
    if size.Fixed? {
      m1, c1, left := Set(m, u, Num(if w == 4 then k / 4 else k)), code.tl, n - 1;
      RunOne(code, m, m1, n);
    }
    r := MoveResult(m1, a, b, x, w, if w == 4 then k / 4 else k);
    RunOne(c1, m1, r, left);
    MoveSpan(k);
    assert Exec(code, m, n) == Exec(rest, r, left - 1);
    assert CopiedTo(m, r, a, b, 0, k) by { CopiedSame(m, m1, r, a, b, k); }
  }

  lemma MoveSpan(k: nat)
    ensures k % 4 == 0 ==> Span(4, k / 4) == k
  {
  }

  /** Registers are no matter. */
  lemma CopiedSame(m: Mach, m1: Mach, r: Mach, a: nat, b: nat, k: nat)
    requires CopiedTo(m1, r, a, b, 0, k) && m1 == m.(regs := m1.regs)
    ensures CopiedTo(m, r, a, b, 0, k)
  {
    forall x: Addr ensures LoadByte(r, x)
      == if x.o == Buf(b) && 0 <= x.k < 0 + k then LoadByte(m, Addr(Buf(a), x.k)) else LoadByte(m, x)
    {
      assert LoadByte(m1, x) == LoadByte(m, x);
    }
  }

  lemma MoveResult(m: Mach, a: nat, b: nat, x: Reg, w: nat, n: nat) returns (r: Mach)
    requires Get(m, Fptr) == Ptr(Buf(a), 0) && Get(m, Bptr) == Ptr(Buf(b), 0) && x.V?
    requires Get(m, x) == Num(n) && n < W && (w == 1 || w == 4)
    ensures DoRep(x, w, m) == Some(r) && CopiedTo(m, r, a, b, 0, Span(w, n))
    ensures forall q :: q !in {x, Fptr, Bptr} ==> Get(r, q) == Get(m, q)
  {
    r := DoRep(x, w, m).value;
    RepMoveDoes(m, a, b, 0, w, n);
    var t := RepMove(m, Addr(Buf(a), 0), Addr(Buf(b), 0), w, n);
    hide RepMove;
    assert r == t.(regs := r.regs);
    forall y: Addr ensures LoadByte(r, y)
      == if y.o == Buf(b) && 0 <= y.k < 0 + Span(w, n) then LoadByte(m, Addr(Buf(a), y.k)) else LoadByte(m, y)
    {
      assert LoadByte(r, y) == LoadByte(t, y);
    }
  }

  /** Any other message: the queue registers are used, and hold what they held afterwards. */
  lemma LongMessage(m: Mach, b: nat, q: nat, src: nat, t: Reg, dst: Reg, u: Reg, size: Size, k: nat, rest: Chain,
                    n: nat)
    returns (r: Mach, x: Reg)
    requires Load(m, Field(q, PTR)) == Ptr(Buf(src), 0) && Get(m, t) == Proc(q) && Get(m, dst) == Ptr(Buf(b), 0)
    requires t.V? && dst.V? && u.V? && SizeIs(m, size, k) && n > 12
    ensures exists left: nat :: left >= n - 8 && Exec(StringCode(t, dst, u, size, rest), m, n) == Exec(rest, r, left)
    ensures CopiedTo(m, r, src, b, 0, k) && RegsBut(m, r, x) && x.V?
  {
    var code := StringCode(t, dst, u, size, rest);
    var f, g := Get(m, Fptr), Get(m, Bptr);
    var m1 := m.(stack := m.stack + [f]);
    var m2 := m1.(stack := m.stack + [f] + [g]);
    var m3 := Set(m2, Fptr, Ptr(Buf(src), 0));
    var m4 := Set(m3, Bptr, Ptr(Buf(b), 0));
    RunOne(code, m, m1, n);
    RunOne(code.tl, m1, m2, n - 1);
    RunOne(code.tl.tl, m2, m3, n - 2);
    RunOne(code.tl.tl.tl, m3, m4, n - 3);
    var m5;
    var c5 := Cons(Sr(Pop(Bptr)), Cons(Sr(Pop(Fptr)), rest));
    m5, x := MoveRuns(m4, src, b, u, size, k, c5, n - 4);
    var left: nat :| left >= n - 6 && Exec(MoveCode(u, size, c5), m4, n - 4) == Exec(c5, m5, left);
    var m6 := Set(m5, Bptr, g).(stack := m.stack + [f]);
    r := Set(m6, Fptr, f).(stack := m.stack);
    Popped(m5, m.stack, f, g);
    RunOne(c5, m5, m6, left);
    RunOne(c5.tl, m6, r, left - 1);
    CopiedBehind(m, m4, m5, r, src, b, k);
    forall y | y != x ensures Get(r, y) == Get(m, y) {
      if y != Fptr && y != Bptr { assert Get(m5, y) == Get(m4, y); }
    }
  }

  /** The two values come off the stack in the opposite order. */
  lemma Popped(m: Mach, s: seq<Val>, f: Val, g: Val)
    requires m.stack == s + [f] + [g]
    ensures var t := Set(m, Bptr, g).(stack := s + [f]);
      DoStr(Pop(Bptr), m) == Some(t) && DoStr(Pop(Fptr), t) == Some(Set(t, Fptr, f).(stack := s))
  {
    assert (s + [f] + [g])[..|s| + 1] == s + [f];
    assert (s + [f])[..|s|] == s;
  }

  /** What surrounds the copying touches registers and the stack only. */
  lemma CopiedBehind(m: Mach, m4: Mach, m5: Mach, r: Mach, a: nat, b: nat, k: nat)
    requires CopiedTo(m4, m5, a, b, 0, k) && m4.mem == m.mem && m4.data == m.data
    requires r.mem == m5.mem && r.data == m5.data && r.stack == m.stack
    ensures CopiedTo(m, r, a, b, 0, k)
  {
    forall x: Addr ensures LoadByte(r, x)
      == if x.o == Buf(b) && 0 <= x.k < 0 + k then LoadByte(m, Addr(Buf(a), x.k)) else LoadByte(m, x)
    {
      assert LoadByte(r, x) == LoadByte(m5, x);
      assert LoadByte(m4, x) == LoadByte(m, x) && LoadByte(m4, Addr(Buf(a), x.k)) == LoadByte(m, Addr(Buf(a), x.k));
    }
  }

  /** Find the message and copy it. */
  lemma TakeTail(m: Mach, s: S.State, b: nat, q: nat, src: nat, t: Reg, dst: Reg, u: Reg, v: Reg, size: Size, k: nat,
                 rest: Chain, n: nat)
    returns (r: Mach, left: nat)
    requires Rep(m, s) && q < |s.ps| && s.ps[q].ptr == S.Data(src) && Get(m, t) == Proc(q)
    requires Get(m, dst) == Ptr(Buf(b), 0) && SizeIs(m, size, k)
    requires b < |s.mem| && src < |s.mem| && k <= |s.mem[b]| && k <= |s.mem[src]|
    requires t.V? && dst.V? && u.V? && v.V? && u != dst && v != dst && v != u && n > 12 + 2 * k
    ensures Exec(MessageCode(t, dst, u, v, size, rest), m, n) == Exec(rest, r, left)
    ensures left >= n - 8 - 2 * k && Rep(r, S.CopyBuf(s, b, src, k)) && r.stack == m.stack
  {
    if Short(size) {
      r, left := ShortMessage(m, b, q, src, t, dst, u, v, k, rest, n);
      var m1 := Set(m, u, Ptr(Buf(src), 0));
      RepSame(m, m1, s);
      RepCopy(m1, r, s, b, src, k, v);
    } else {
      var x;
      r, x := LongMessage(m, b, q, src, t, dst, u, size, k, rest, n);
      left :| left >= n - 8 && Exec(StringCode(t, dst, u, size, rest), m, n) == Exec(rest, r, left);
      RepCopy(m, r, s, b, src, k, x);
    }
  }

  /** Taking the message is all that ccsp_chanin does to the state when it goes straight on. */
  lemma TakenIs(r: Mach, s: S.State, p: nat, c: nat, b: nat, q: nat, src: nat, k: nat)
    requires s.curp == Some(p) && p < |s.ps| && c < |s.cs| && s.cs[c].word == Some(q) && Offered(s, q, src, b, k)
    requires Rep(r, S.CopyBuf(S.SetWord(S.LinkProc(s, q), c, None), b, src, k))
    ensures Rep(r, S.ChanIn(s, p, c, b, k).s)
  {
    RepPhase(r, S.CopyBuf(S.SetWord(S.LinkProc(s, q), c, None), b, src, k), S.ChanIn(s, p, c, b, k).s);
  }

  lemma TakeRuns(m: Mach, s: S.State, p: nat, c: nat, b: nat, k: nat, q: nat, src: nat, ch: Reg, dst: Reg, t: Reg,
                 u: Reg, v: Reg, size: Size, rest: Chain, n: nat)
    returns (r: Mach, left: nat)
    requires Rep(m, s) && s.curp == Some(p) && p < |s.ps| && c < |s.cs| && s.cs[c].word == Some(q)
    requires Offered(s, q, src, b, k)
    requires InRegs(m, ch, dst, t, u, v, size, c, b, k) && n > 24 + 2 * k
    ensures Exec(TakeCode(ch, dst, t, u, v, size, rest), m, n) == Exec(Cons(SetLabel(FLab(1)), rest), r, left)
    ensures left >= n - 16 - 2 * k && Rep(r, S.ChanIn(s, p, c, b, k).s) && r.stack == m.stack
  {
    hide Rep, MessageCode, Exec;
    var c1 := Cons(SetLabel(FLab(1)), rest);
    var m1 := TakeHead(m, s, q, c, ch, t, MessageCode(t, dst, u, v, size, c1), n);
    r, left := TakeTail(m1, S.SetWord(S.LinkProc(s, q), c, None), b, q, src, t, dst, u, v, size, k, c1, n - 8);
    TakenIs(r, s, p, c, b, q, src, k);
  }

  /** The channel is found occupied. */
  lemma InFinds(m: Mach, w: Val, c: nat, ch: Reg, dst: Reg, t: Reg, u: Reg, v: Reg, size: Size, rest: Chain, n: nat)
    requires Get(m, ch) == Ptr(Word(c), 0) && Load(m, Addr(Word(c), 0)) == w && w.Ptr? && n > 20
    ensures Exec(InCode(ch, dst, t, u, v, size, rest), m, n)
      == Exec(TakeCode(ch, dst, t, u, v, size, rest), m.(fl := Known(false, false)), n - 2)
  {
    var code, take := InCode(ch, dst, t, u, v, size, rest), TakeCode(ch, dst, t, u, v, size, rest);
    var m1 := m.(fl := Known(false, false));
    RunOne(code, m, m1, n);
    FindTake(take);
    assert Find(code.tl.tl, FLab(0), 11) == Some(take);
    RunJump(code.tl, m1, 11, n - 1);
  }

  /** An outputter is there. */
  lemma InTakes(m: Mach, s: S.State, p: nat, c: nat, b: nat, k: nat, q: nat, src: nat, ch: Reg, dst: Reg, t: Reg,
                u: Reg, v: Reg, size: Size, rest: Chain, n: nat)
    returns (r: Mach, left: nat)
    requires Rep(m, s) && s.curp == Some(p) && p < |s.ps| && c < |s.cs| && InRegs(m, ch, dst, t, u, v, size, c, b, k)
    requires n > 30 + 2 * k
    requires s.cs[c].word == Some(q) && Offered(s, q, src, b, k)
    ensures Exec(InCode(ch, dst, t, u, v, size, rest), m, n) == Exec(rest, r, left)
    ensures left >= n - 19 - 2 * k && Rep(r, S.ChanIn(s, p, c, b, k).s) && r.stack == m.stack
  {
    hide Rep, TakeCode, InCode;
    RepHolds(m, s, c);
    var m1 := m.(fl := Known(false, false));
    InFinds(m, Proc(q), c, ch, dst, t, u, v, size, rest, n);
    RepSame(m, m1, s);
    r, left := TakeRuns(m1, s, p, c, b, k, q, src, ch, dst, t, u, v, size, rest, n - 2);
    assert Exec(Cons(SetLabel(FLab(1)), rest), r, left) == Exec(rest, r, left - 1);
    left := left - 1;
  }

  /** The input has done what ccsp_chanin does: the process has committed, its resume address is the end of
      the sequence, and another one runs; or the code goes on in the new state, with the stack as it was. */
  ghost predicate InputDone(m: Mach, e: End, s: S.State, p: nat, c: nat, b: nat, k: nat, rest: Chain, n: nat)
    requires p < |s.ps| && c < |s.cs|
  {
    var o := S.ChanIn(s, p, c, b, k);
    if o.Go? then Rescheduled(e, o.s, p, Code(FLab(1)))
    else exists r: Mach, left: nat ::
      e == Exec(rest, r, left) && left >= n - 19 - 2 * k && Rep(r, o.s) && r.stack == m.stack
  }

  /** The emitted input does what ccsp_chanin does, for a size of any kind.  With nobody in the channel the
      process commits and another one runs; with an outputter there, the message is copied, the outputter
      enqueued and the channel cleared, and the code goes on. */
  lemma InRuns(m: Mach, s: S.State, p: nat, c: nat, b: nat, k: nat, ch: Reg, dst: Reg, t: Reg, u: Reg, v: Reg,
               size: Size, rest: Chain, n: nat)
    requires Rep(m, s) && s.curp == Some(p) && p < |s.ps| && c < |s.cs| && InRegs(m, ch, dst, t, u, v, size, c, b, k)
    requires n > 30 + 2 * k
    requires s.cs[c].word.Some? ==> exists src :: Offered(s, s.cs[c].word.value, src, b, k)
    ensures InputDone(m, Exec(InCode(ch, dst, t, u, v, size, rest), m, n), s, p, c, b, k, rest, n)
  {
    if s.cs[c].word == None {
      InBlocks(m, s, p, c, b, k, ch, dst, t, u, v, size, rest, n);
    } else {
      var q := s.cs[c].word.value;
      var src :| Offered(s, q, src, b, k);
      var r, left := InTakes(m, s, p, c, b, k, q, src, ch, dst, t, u, v, size, rest, n);
    }
  }

  // ---- enable, wait, disable ----

  /** Everything but the queue, the flags and the words of running ALTs is as it was. */
  ghost predicate Steady(m: Mach, t: Mach, p: nat) {
    t.data == m.data && Load(t, Field(p, TEMP)) == Load(m, Field(p, TEMP)) && t.regs == m.regs
  }

  lemma EnbcFree(m: Mach, p: nat, c: nat, ch: Reg, skip: int, out: int, rest: Chain, n: nat)
    requires Get(m, ch) == Ptr(Word(c), 0) && Get(m, Wptr) == Proc(p) && skip != out && n > 12
    requires Load(m, Addr(Word(c), 0)) == Num(0)
    ensures Exec(EnbcBody(ch, skip, out, rest), m, n)
      == Exec(rest, Put(m, Addr(Word(c), 0), Proc(p)).(fl := Known(true, false)), n - 4)
  {
    var code := EnbcBody(ch, skip, out, rest);
    var m1 := m.(fl := Known(true, false));
    var m2 := Put(m1, Addr(Word(c), 0), Proc(p));
    RunOne(code, m, m1, n);
    assert Exec(code.tl, m1, n - 1) == Exec(code.tl.tl, m1, n - 2);
    RunOne(code.tl.tl, m1, m2, n - 2);
    RunJump(code.tl.tl.tl, m2, 6, n - 3);
  }

  lemma EnbcHeld(m: Mach, p: nat, q: nat, c: nat, ch: Reg, skip: int, out: int, rest: Chain, n: nat)
    requires Get(m, ch) == Ptr(Word(c), 0) && Get(m, Wptr) == Proc(p) && skip != out && n > 12
    requires Load(m, Addr(Word(c), 0)) == Proc(q)
    ensures Exec(EnbcBody(ch, skip, out, rest), m, n) == if q == p then Exec(rest, m.(fl := Known(true, false)), n - 4)
      else Exec(rest, Put(m, Field(p, PTR), Num(READY)).(fl := Known(false, false)), n - 6)
  {
    var code := EnbcBody(ch, skip, out, rest);
    var m1 := m.(fl := Known(false, false));
    RunOne(code, m, m1, n);
    assert Find(code.tl.tl, Lab(skip), 4) == Some(code.tl.tl.tl.tl.tl);
    RunJump(code.tl, m1, 4, n - 1);
    var c1 := code.tl.tl.tl.tl.tl;
    var m2 := m.(fl := Known(q == p, false));
    RunOne(c1, m1, m2, n - 2);
    if q == p { RunJump(c1.tl, m2, 3, n - 3); }
    else {
      assert Exec(c1.tl, m2, n - 3) == Exec(c1.tl.tl, m2, n - 4);
      var m3 := Put(m2, Field(p, PTR), Num(READY));
      RunOne(c1.tl.tl, m2, m3, n - 4);
      assert Exec(c1.tl.tl.tl, m3, n - 5) == Exec(rest, m3, n - 6);
    }
  }

  /** The ALTer commits itself to an empty channel. */
  lemma EnabledFree(m: Mach, s: S.State, p: nat, c: nat)
    requires Rep(m, s) && s.curp == Some(p) && p < |s.ps| && c < |s.cs| && s.cs[c].word == None
    ensures var t := Put(m, Addr(Word(c), 0), Proc(p)).(fl := Known(true, false));
      Rep(t, S.EnableChan(s, p, true, c).0) && Steady(m, t, p)
  {
    var m1 := Put(m, Addr(Word(c), 0), Proc(p));
    var t := m1.(fl := Known(true, false));
    RepWord(m, s, c, Some(p));
    RepSame(m1, t, S.SetWord(s, c, Some(p)));
    RepPhase(t, S.SetWord(s, c, Some(p)), S.EnableChan(s, p, true, c).0);
  }

  /** The channel is enabled already, or holds somebody who makes the ALTer ready. */
  lemma EnabledHeld(m: Mach, s: S.State, p: nat, q: nat, c: nat)
    requires Rep(m, s) && s.curp == Some(p) && p < |s.ps| && c < |s.cs| && s.cs[c].word == Some(q)
    ensures var t := if q == p then m.(fl := Known(true, false))
            else Put(m, Field(p, PTR), Num(READY)).(fl := Known(false, false));
      Rep(t, S.EnableChan(s, p, true, c).0) && Steady(m, t, p)
  {
    var z := S.EnableChan(s, p, true, c).0;
    if q == p {
      var t := m.(fl := Known(true, false));
      RepSame(m, t, s);
      RepPhase(t, s, z);
    } else {
      var m1 := Put(m, Field(p, PTR), Num(READY));
      var t := m1.(fl := Known(false, false));
      RepPtr(m, s, p, S.Ready);
      RepSame(m1, t, S.SetPtr(s, p, S.Ready));
      RepPhase(t, S.SetPtr(s, p, S.Ready), z);
    }
  }

  lemma EnbcBodyRuns(m: Mach, s: S.State, p: nat, c: nat, ch: Reg, skip: int, out: int, rest: Chain, n: nat)
    returns (t: Mach, left: nat)
    requires Rep(m, s) && s.curp == Some(p) && p < |s.ps| && c < |s.cs| && Get(m, ch) == Ptr(Word(c), 0) && skip != out
    requires n > 12
    ensures Exec(EnbcBody(ch, skip, out, rest), m, n) == Exec(rest, t, left) && left >= n - 6
    ensures Rep(t, S.EnableChan(s, p, true, c).0) && Steady(m, t, p)
  {
    match s.cs[c].word {
      case None =>
        EnbcFree(m, p, c, ch, skip, out, rest, n);
        EnabledFree(m, s, p, c);
        t, left := Put(m, Addr(Word(c), 0), Proc(p)).(fl := Known(true, false)), n - 4;
      case Some(q) =>
        EnbcHeld(m, p, q, c, ch, skip, out, rest, n);
        EnabledHeld(m, s, p, q, c);
        if q == p { t, left := m.(fl := Known(true, false)), n - 4; }
        else { t, left := Put(m, Field(p, PTR), Num(READY)).(fl := Known(false, false)), n - 6; }
    }
  }

  /** A guard in a register: false when zero; known at translation time when it is a constant. */
  ghost predicate GuardIs(m: Mach, known: Option<int>, g: Reg, v: int) {
    Get(m, g) == Num(v) && (known.Some? ==> known.value == v)
  }

  /** The jump behind the test of the guard. */
  lemma EnbcTests(m: Mach, g: Reg, ch: Reg, skip: int, out: int, rest: Chain, n: nat)
    requires m.fl.Known? && n > 12 && skip != out
    ensures Exec(EnbcCode(None, g, ch, skip, out, rest).tl, m, n)
      == Exec(if m.fl.z then rest else EnbcBody(ch, skip, out, rest), m, n - 1)
  {
    var code := EnbcCode(None, g, ch, skip, out, rest);
    if m.fl.z { RunJump(code.tl, m, 9, n); }
  }

  /** The emitted ENBC does what ccsp_enbc does, for a guard in a register, for a constant false guard
      (no code at all) and for any other constant guard (no test); the guard is left as the result. */
  lemma EnbcRuns(m: Mach, s: S.State, p: nat, c: nat, known: Option<int>, g: Reg, v: int, ch: Reg, skip: int, out: int,
                 rest: Chain, n: nat) returns (t: Mach, left: nat)
    requires Rep(m, s) && s.curp == Some(p) && p < |s.ps| && c < |s.cs| && GuardIs(m, known, g, v)
    requires Get(m, ch) == Ptr(Word(c), 0) && skip != out && n > 14
    ensures Exec(EnbcCode(known, g, ch, skip, out, rest), m, n) == Exec(rest, t, left) && left >= n - 8
    ensures Rep(t, S.EnableChan(s, p, v != 0, c).0) && Steady(m, t, p)
  {
    hide Rep, EnbcBody;
    var code := EnbcCode(known, g, ch, skip, out, rest);
    if known == Some(0) { t, left := m, n; }
    else if known.Some? { t, left := EnbcBodyRuns(m, s, p, c, ch, skip, out, rest, n); }
    else {
      t := m.(fl := Compare(Num(0), Num(v)));
      RunOne(code, m, t, n);
      RepSame(m, t, s);
      EnbcTests(t, g, ch, skip, out, rest, n - 1);
      if v == 0 {
        left := n - 2;
      } else {
        t, left := EnbcBodyRuns(t, s, p, c, ch, skip, out, rest, n - 2);
      }
    }
  }

  /** The emitted ALTWT does what ccsp_altwt does for an ALTer that is enabling or ready, and either way
      the Temp slot says that nothing has been selected. */
  lemma AltwtRuns(m: Mach, s: S.State, p: nat, rest: Chain, n: nat)
    requires Rep(m, s) && s.curp == Some(p) && p < |s.ps| && n > 20
    requires s.ps[p].ptr == S.Enabling || s.ps[p].ptr == S.Ready
    ensures var o, e := S.AltWait(s, p), Exec(AltwtCode(rest), m, n);
      if o.Go? then Rescheduled(e, o.s, p, Code(FLab(0))) && Load(e.m, Field(p, TEMP)) == Num(NONE_SELECTED)
      else exists r: Mach :: e == Exec(rest, r, n - 3) && Rep(r, o.s) && Load(r, Field(p, TEMP)) == Num(NONE_SELECTED)
  {
    hide QuickCode, Rescheduled;
    var code := AltwtCode(rest);
    var m1 := Put(m, Field(p, TEMP), Num(NONE_SELECTED));
    RepOther(m, s, p, TEMP, Num(NONE_SELECTED));
    RunOne(code, m, m1, n);
    var m2 := m1.(fl := Compare(Num(READY), EncPtr(s.ps[p].ptr)));
    RunOne(code.tl, m1, m2, n - 1);
    if s.ps[p].ptr == S.Ready {
      FindTake(rest);
      assert Find(code.tl.tl.tl, FLab(0), 10) == Some(rest);
      RunJump(code.tl.tl, m2, 10, n - 2);
      RepPhase(m2, s, S.AltWait(s, p).s);
    } else {
      AltwtBlocks(m2, s, p, rest, n - 2);
    }
  }

  lemma AltwtCommits(m: Mach, p: nat, rest: Chain, n: nat)
    requires Get(m, Wptr) == Proc(p) && m.fl.Known? && !m.fl.z && n > 12
    ensures Exec(AltwtCode(rest).tl.tl, m, n)
      == Exec(QuickCode(Cons(SetLabel(FLab(0)), rest)),
              Put(Put(m, Field(p, PTR), Num(WAITING)), Field(p, IPTR), Code(FLab(0))), n - 3)
  {
    hide QuickCode;
    var c := AltwtCode(rest).tl.tl;
    var m1 := Put(m, Field(p, PTR), Num(WAITING));
    assert Exec(c, m, n) == Exec(c.tl, m, n - 1);
    RunOne(c.tl, m, m1, n - 1);
    RunOne(c.tl.tl, m1, Put(m1, Field(p, IPTR), Code(FLab(0))), n - 2);
  }

  lemma AltwtBlocks(m: Mach, s: S.State, p: nat, rest: Chain, n: nat)
    requires Rep(m, s) && s.curp == Some(p) && p < |s.ps| && s.ps[p].ptr == S.Enabling && n > 12
    requires m.fl.Known? && !m.fl.z && Load(m, Field(p, TEMP)) == Num(NONE_SELECTED)
    ensures var e := Exec(AltwtCode(rest).tl.tl, m, n);
      Rescheduled(e, S.AltWait(s, p).s, p, Code(FLab(0))) && Load(e.m, Field(p, TEMP)) == Num(NONE_SELECTED)
  {
    var m1 := Put(m, Field(p, PTR), Num(WAITING));
    var m2 := Put(m1, Field(p, IPTR), Code(FLab(0)));
    AltwtCommits(m, p, rest, n);
    hide Exec, AltwtCode, QuickCode;
    RepPtr(m, s, p, S.Waiting);
    var s1 := S.SetPtr(s, p, S.Waiting);
    RepOther(m1, s1, p, IPTR, Code(FLab(0)));
    var z := S.AltWait(s, p).s;
    RepPhase(m2, s1, z);
    QuickReschedules(m2, z, p, Code(FLab(0)), Cons(SetLabel(FLab(0)), rest), n - 3);
    QuickKeeps(m2, z.runq, Cons(SetLabel(FLab(0)), rest), n - 3);
  }

  /** A quick reschedule writes no memory. */
  lemma QuickKeeps(m: Mach, q: seq<nat>, rest: Chain, n: nat)
    requires RunQ(m, q) && n > 6
    ensures Exec(QuickCode(rest), m, n).Left? && Exec(QuickCode(rest), m, n).m.mem == m.mem
  {
    if q == [] { QuickDeschedules(m, rest, n); } else { var t := QuickRuns(m, q, rest, n); }
  }

  lemma NotRuns(m: Mach, t: Reg, l: int, rest: Chain, n: nat)
    requires n > 2
    ensures Exec(DiscNot(t, l, rest), m, n) == Exec(rest, Set(m, t, Num(0)), n - 2)
  {
    RunOne(DiscNot(t, l, rest), m, Set(m, t, Num(0)), n);
  }

  lemma FireRuns(m: Mach, p: nat, off: Reg, ch: Reg, t: Reg, l: int, rest: Chain, n: nat)
    requires Get(m, Wptr) == Proc(p) && t.V? && n > 9
    ensures Exec(DiscFire(off, ch, t, l, rest), m, n)
      == Exec(rest, Set(Put(m, Field(p, TEMP), Get(m, off)), t, Num(1)), n - 3)
  {
    var c := DiscFire(off, ch, t, l, rest);
    var m1 := Put(m, Field(p, TEMP), Get(m, off));
    var m2 := Set(m1, t, Num(1));
    RunOne(c, m, m1, n);
    RunOne(c.tl, m1, m2, n - 1);
    assert Find(c.tl.tl.tl, Lab(l + 2), 5) == Find(DiscNot(t, l, rest), Lab(l + 2), 2);
    RunJump(c.tl.tl, m2, 5, n - 2);
  }

  lemma FindNot(off: Reg, ch: Reg, t: Reg, l: int, rest: Chain)
    ensures Find(DiscFire(off, ch, t, l, rest), Lab(l + 1), 6) == Some(DiscNot(t, l, rest))
    ensures Find(DiscFire(off, ch, t, l, rest), Lab(l), 4) == Some(DiscEnd(ch, t, l, rest).tl)
  {
    var c := DiscFire(off, ch, t, l, rest);
    assert Find(c, Lab(l + 1), 6) == Find(c.tl.tl.tl, Lab(l + 1), 3);
  }

  /** The channel holds the ALTer itself: the channel is cleared and the guard is not ready. */
  lemma DiscOwn(m: Mach, ndisc: bool, p: nat, c: nat, off: Reg, ch: Reg, t: Reg, l: int, rest: Chain, n: nat)
    requires Get(m, ch) == Ptr(Word(c), 0) && Get(m, Wptr) == Proc(p) && Load(m, Addr(Word(c), 0)) == Proc(p) && n > 16
    ensures Exec(DiscBody(ndisc, off, ch, t, l, rest), m, n)
      == Exec(rest, Set(Put(m, Addr(Word(c), 0), Num(0)), t, Num(0)).(fl := Known(true, false)), n - 6)
  {
    var code := DiscBody(ndisc, off, ch, t, l, rest);
    var m1 := m.(fl := Known(true, false));
    RunOne(code, m, m1, n);
    FindNot(off, ch, t, l, rest);
    var c1 := DiscEnd(ch, t, l, rest).tl;
    FindInBody(ndisc, off, ch, t, l, rest);
    RunJump(code.tl, m1, 8, n - 1);
    var m2 := Put(m1, Addr(Word(c), 0), Num(0));
    RunOne(c1, m1, m2, n - 2);
    assert Exec(c1.tl, m2, n - 3) == Exec(c1.tl.tl, m2, n - 4);
    NotRuns(m2, t, l, rest, n - 4);
  }

  lemma FindInBody(ndisc: bool, off: Reg, ch: Reg, t: Reg, l: int, rest: Chain)
    ensures var c := DiscBody(ndisc, off, ch, t, l, rest);
      Find(c.tl.tl, Lab(l), 8) == Some(DiscEnd(ch, t, l, rest).tl)
      && Find(c.tl.tl.tl.tl, Lab(l + 1), 8) == Some(DiscNot(t, l, rest))
  {
    var c := DiscBody(ndisc, off, ch, t, l, rest);
    var f := DiscFire(off, ch, t, l, rest);
    FindNot(off, ch, t, l, rest);
    FindMore(f, Lab(l), 4, 6);
    FindMore(f, Lab(l + 1), 6, 8);
    if ndisc {
      assert Find(c.tl.tl, Lab(l), 8) == Find(f, Lab(l), 6);
    } else {
      var d := c.tl.tl.tl.tl;
      assert Find(d, Lab(l + 1), 8) == Find(f, Lab(l + 1), 6);
      assert Find(c.tl.tl, Lab(l), 8) == Find(d, Lab(l), 6) == Find(f, Lab(l), 4);
    }
  }

  /** The channel does not hold the ALTer: what is left to do. */
  lemma DiscPast(m: Mach, ndisc: bool, p: nat, c: nat, w: Val, off: Reg, ch: Reg, t: Reg, l: int, rest: Chain, n: nat)
    requires Get(m, ch) == Ptr(Word(c), 0) && Get(m, Wptr) == Proc(p) && Load(m, Addr(Word(c), 0)) == w && w != Proc(p)
    requires n > 16
    requires w == Num(0) || w.Ptr?
    ensures Exec(DiscBody(ndisc, off, ch, t, l, rest), m, n)
      == if w == Num(0) then Exec(rest, Set(m, t, Num(0)).(fl := Known(true, false)), n - 6)
         else Exec(DiscBody(ndisc, off, ch, t, l, rest).tl.tl.tl.tl, m.(fl := Known(false, false)), n - 4)
  {
    var code := DiscBody(ndisc, off, ch, t, l, rest);
    var m1 := m.(fl := Compare(Proc(p), w));
    RunOne(code, m, m1, n);
    assert Exec(code.tl, m1, n - 1) == Exec(code.tl.tl, m1, n - 2);
    var m2 := m.(fl := Known(w == Num(0), false));
    RunOne(code.tl.tl, m1, m2, n - 2);
    if w == Num(0) {
      FindInBody(ndisc, off, ch, t, l, rest);
      RunJump(code.tl.tl.tl, m2, 8, n - 3);
      NotRuns(m2, t, l, rest, n - 4);
    } else {
      assert Exec(code.tl.tl.tl, m2, n - 3) == Exec(code.tl.tl.tl.tl, m2, n - 4);
    }
  }

  /** The channel holds another process: fire, unless DISC has selected already. */
  lemma DiscReady(m: Mach, ndisc: bool, p: nat, off: Reg, ch: Reg, t: Reg, l: int, rest: Chain, n: nat)
    returns (r: Mach, left: nat)
    requires Get(m, Wptr) == Proc(p) && t.V? && n > 12
    ensures Exec(DiscBody(ndisc, off, ch, t, l, rest).tl.tl.tl.tl, m, n) == Exec(rest, r, left) && left >= n - 5
    ensures var fire := ndisc || Load(m, Field(p, TEMP)) == Num(NONE_SELECTED);
      SameQueue(if fire then Put(m, Field(p, TEMP), Get(m, off)) else m, r)
      && RegsBut(m, r, t) && Get(r, t) == Num(Bit(fire))
  {
    var c := DiscBody(ndisc, off, ch, t, l, rest).tl.tl.tl.tl;
    if ndisc {
      FireRuns(m, p, off, ch, t, l, rest, n);
      r, left := Set(Put(m, Field(p, TEMP), Get(m, off)), t, Num(1)), n - 3;
    } else {
      var m1 := m.(fl := Compare(Num(NONE_SELECTED), Load(m, Field(p, TEMP))));
      RunOne(c, m, m1, n);
      if Load(m, Field(p, TEMP)) == Num(NONE_SELECTED) {
        assert Exec(c.tl, m1, n - 1) == Exec(c.tl.tl, m1, n - 2);
        FireRuns(m1, p, off, ch, t, l, rest, n - 2);
        r, left := Set(Put(m1, Field(p, TEMP), Get(m, off)), t, Num(1)), n - 5;
      } else {
        FindNot(off, ch, t, l, rest);
        RunJump(c.tl, m1, 6, n - 1);
        NotRuns(m1, t, l, rest, n - 2);
        r, left := Set(m1, t, Num(0)), n - 4;
      }
    }
  }

  /** What a DISC of a channel leaves: the channel word as ccsp_disc leaves it, the result register, and
      the Temp slot with the process offset when the guard fires. */
  ghost predicate Disabled(m: Mach, r: Mach, s: S.State, p: nat, c: nat, guard: bool, ndisc: bool, off: Reg, t: Reg,
                           res: Reg)
    requires p < |s.ps| && c < |s.cs|
  {
    var (z, ready) := S.DisableChan(s, p, guard, c);
    var fired := ready && (ndisc || Load(m, Field(p, TEMP)) == Num(NONE_SELECTED));
    && Rep(r, z) && Get(r, res) == Num(Bit(fired)) && RegsBut(m, r, t)
    && Load(r, Field(p, TEMP)) == if fired then Get(m, off) else Load(m, Field(p, TEMP))
  }

  lemma DisabledOwn(m: Mach, s: S.State, ndisc: bool, p: nat, c: nat, off: Reg, t: Reg)
    requires Rep(m, s) && s.curp == Some(p) && p < |s.ps| && c < |s.cs| && t.V? && s.cs[c].word == Some(p)
    ensures var r := Set(Put(m, Addr(Word(c), 0), Num(0)), t, Num(0)).(fl := Known(true, false));
      Disabled(m, r, s, p, c, true, ndisc, off, t, t)
  {
    var m1 := Put(m, Addr(Word(c), 0), Num(0));
    var r := Set(m1, t, Num(0)).(fl := Known(true, false));
    RepWord(m, s, c, None);
    RepSame(m1, r, S.SetWord(s, c, None));
    RepPhase(r, S.SetWord(s, c, None), S.DisableChan(s, p, true, c).0);
  }

  lemma DisabledEmpty(m: Mach, s: S.State, guard: bool, ndisc: bool, p: nat, c: nat, off: Reg, t: Reg, fl: Flags)
    requires Rep(m, s) && s.curp == Some(p) && p < |s.ps| && c < |s.cs| && t.V? && (guard ==> s.cs[c].word == None)
    ensures Disabled(m, Set(m, t, Num(0)).(fl := fl), s, p, c, guard, ndisc, off, t, t)
  {
    var r := Set(m, t, Num(0)).(fl := fl);
    RepSame(m, r, s);
    RepPhase(r, s, S.DisableChan(s, p, guard, c).0);
  }

  lemma DisabledReady(m: Mach, m1: Mach, r: Mach, s: S.State, ndisc: bool, p: nat, c: nat, off: Reg, t: Reg)
    requires Rep(m, s) && s.curp == Some(p) && p < |s.ps| && c < |s.cs| && t.V?
    requires s.cs[c].word.Some? && s.cs[c].word != Some(p) && m1 == m.(fl := m1.fl)
    requires var fire := ndisc || Load(m, Field(p, TEMP)) == Num(NONE_SELECTED);
      SameQueue(if fire then Put(m1, Field(p, TEMP), Get(m, off)) else m1, r)
      && RegsBut(m1, r, t) && Get(r, t) == Num(Bit(fire))
    ensures Disabled(m, r, s, p, c, true, ndisc, off, t, t)
  {
    RepSame(m, m1, s);
    DiscReadyRep(m1, r, s, p, ndisc, off);
    RepPhase(r, s, S.DisableChan(s, p, true, c).0);
  }

  lemma DiscBodyRuns(m: Mach, s: S.State, ndisc: bool, p: nat, c: nat, off: Reg, ch: Reg, t: Reg, l: int, rest: Chain,
                     n: nat)
    returns (r: Mach, left: nat)
    requires Rep(m, s) && s.curp == Some(p) && p < |s.ps| && c < |s.cs| && Get(m, ch) == Ptr(Word(c), 0) && t.V?
    requires n > 20
    ensures Exec(DiscBody(ndisc, off, ch, t, l, rest), m, n) == Exec(rest, r, left) && left >= n - 9
    ensures Disabled(m, r, s, p, c, true, ndisc, off, t, t)
  {
    if s.cs[c].word == Some(p) {
      DiscOwn(m, ndisc, p, c, off, ch, t, l, rest, n);
      r, left := Set(Put(m, Addr(Word(c), 0), Num(0)), t, Num(0)).(fl := Known(true, false)), n - 6;
      DisabledOwn(m, s, ndisc, p, c, off, t);
    } else {
      var w := EncWord(s.cs[c].word);
      DiscPast(m, ndisc, p, c, w, off, ch, t, l, rest, n);
      if w == Num(0) {
        r, left := Set(m, t, Num(0)).(fl := Known(true, false)), n - 6;
        DisabledEmpty(m, s, true, ndisc, p, c, off, t, Known(true, false));
      } else {
        var m1 := m.(fl := Known(false, false));
        r, left := DiscReady(m1, ndisc, p, off, ch, t, l, rest, n - 4);
        DisabledReady(m, m1, r, s, ndisc, p, c, off, t);
      }
    }
  }

  lemma DiscReadyRep(m: Mach, r: Mach, s: S.State, p: nat, ndisc: bool, off: Reg)
    requires m.data == r.data && Rep(m, s)
    requires SameQueue(m, r) || SameQueue(Put(m, Field(p, TEMP), Get(m, off)), r)
    ensures Rep(r, s)
  {
    if SameQueue(m, r) { RepSame(m, r, s); }
    else {
      RepOther(m, s, p, TEMP, Get(m, off));
      RepSame(Put(m, Field(p, TEMP), Get(m, off)), r, s);
    }
  }

  /** The register that holds the result. */
  function DiscResult(known: Option<int>, g: Reg, t: Reg): Reg {
    if known == Some(0) then g else t
  }

  /** The flags before do not matter. */
  lemma DisabledFlags(m: Mach, m1: Mach, r: Mach, s: S.State, p: nat, c: nat, guard: bool, ndisc: bool, off: Reg,
                      t: Reg)
    requires p < |s.ps| && c < |s.cs| && m1 == m.(fl := m1.fl) && Disabled(m1, r, s, p, c, guard, ndisc, off, t, t)
    ensures Disabled(m, r, s, p, c, guard, ndisc, off, t, t)
  {
    forall q | q != t ensures Get(r, q) == Get(m, q) { assert Get(m1, q) == Get(m, q); }
  }

  lemma DiscSkips(m: Mach, ndisc: bool, known: Option<int>, off: Reg, g: Reg, ch: Reg, t: Reg, l: int, rest: Chain,
                  n: nat)
    requires known == None && m.fl == Known(true, false) && n > 22
    ensures Exec(DiscCode(ndisc, known, off, g, ch, t, l, rest).tl, m, n - 1) == Exec(rest, Set(m, t, Num(0)), n - 4)
  {
    var code := DiscCode(ndisc, known, off, g, ch, t, l, rest);
    FindInBody(ndisc, off, ch, t, l, rest);
    assert Find(code.tl.tl, Lab(l + 1), 12) == Some(DiscNot(t, l, rest));
    RunJump(code.tl, m, 12, n - 1);
    NotRuns(m, t, l, rest, n - 2);
  }

  /** The emitted DISC and NDISC do what ccsp_disc does to the channel word, for every kind of guard, and
      select the process offset when the guard is ready and, for DISC, nothing is selected yet. */
  lemma DiscRuns(m: Mach, s: S.State, ndisc: bool, p: nat, c: nat, known: Option<int>, off: Reg, g: Reg, v: int,
                 ch: Reg, t: Reg,
                 l: int, rest: Chain, n: nat) returns (r: Mach, left: nat)
    requires Rep(m, s) && s.curp == Some(p) && p < |s.ps| && c < |s.cs| && GuardIs(m, known, g, v)
    requires Get(m, ch) == Ptr(Word(c), 0) && t.V? && n > 22
    ensures Exec(DiscCode(ndisc, known, off, g, ch, t, l, rest), m, n) == Exec(rest, r, left) && left >= n - 11
    ensures Disabled(m, r, s, p, c, v != 0, ndisc, off, t, DiscResult(known, g, t))
  {
    var code := DiscCode(ndisc, known, off, g, ch, t, l, rest);
    if known == Some(0) { r, left := m, n; }
    else if known.Some? { r, left := DiscBodyRuns(m, s, ndisc, p, c, off, ch, t, l, rest, n); }
    else {
      var m1 := m.(fl := Compare(Num(0), Num(v)));
      RunOne(code, m, m1, n);
      RepSame(m, m1, s);
      if v == 0 {
        DiscSkips(m1, ndisc, known, off, g, ch, t, l, rest, n);
        r, left := Set(m1, t, Num(0)), n - 4;
        DisabledEmpty(m1, s, false, ndisc, p, c, off, t, m1.fl);
        DisabledFlags(m, m1, r, s, p, c, false, ndisc, off, t);
      } else {
        assert Exec(code.tl, m1, n - 1) == Exec(code.tl.tl, m1, n - 2);
        r, left := DiscBodyRuns(m1, s, ndisc, p, c, off, ch, t, l, rest, n - 2);
        DisabledFlags(m, m1, r, s, p, c, true, ndisc, off, t);
      }
    }
  }
}
