/** Composing and running together: the code that each compose function appends, run from a machine that
    holds a reachable kernel state, does to that state what the kernel call does.  The registers that the
    translator takes are new, so they differ from the operands. */
module Emitted386 {
  import opened Common
  import opened Machine386
  import opened Words64
  import opened Arith386
  import opened Inline386
  import opened Compose386
  import S = CcspState
  import I = CcspInv

  /** Whatever follows, the chain takes m0 to m, with n of its n0 steps left. */
  ghost predicate Leads(chain: seq<Ins>, m0: Mach, n0: nat, m: Mach, n: nat) {
    forall rest :: Exec(After(chain, rest), m0, n0) == Exec(rest, m, n)
  }

  lemma LeadsOn(chain: seq<Ins>, m0: Mach, n0: nat, m: Mach, n: nat, rest: Chain)
    requires Leads(chain, m0, n0, m, n)
    ensures Exec(After(chain, rest), m0, n0) == Exec(rest, m, n)
  {
  }

  /** The machine has run the code so far, the operands are in registers taken earlier, and the constants
      the translator knows are true of the machine. */
  ghost predicate At(tr: Translator, m0: Mach, n0: nat, m: Mach, n: nat)
    reads tr
  {
    && tr.Fresh() && Leads(tr.chain, m0, n0, m, n)
    && (forall r :: r in tr.consts ==> Get(m, r) == Num(tr.consts[r]))
  }

  /** The machine holds the good state s, in which the call e is admissible and p runs. */
  ghost predicate Calls(m: Mach, s: S.State, e: S.Event, p: nat) {
    Rep(m, s) && I.Inv(s) && I.Guard(s, e) && s.curp == Some(p)
  }

  // ---- input ----

  /** A process that an admissible input finds in the channel word offers its message. */
  lemma InputMeets(s: S.State, p: nat, c: nat, b: nat, k: nat, ts: seq<int>)
    requires I.Inv(s) && I.Guard(s, S.In(c, b, k, ts)) && s.curp == Some(p)
    ensures p < |s.ps| && c < |s.cs|
    ensures s.cs[c].word.Some? ==> exists src :: Offered(s, s.cs[c].word.value, src, b, k)
  {
    assert I.ChanOk(s, c);
    if s.cs[c].word.Some? {
      var q := s.cs[c].word.value;
      assert I.PhaseOk(s, q);
      assert Offered(s, q, s.ps[q].ptr.buf, b, k);
    }
  }

  /** In every reachable state, the emitted input does what ccsp_chanin does. */
  lemma InputReachable(m: Mach, s: S.State, p: nat, c: nat, b: nat, k: nat, ts: seq<int>, ch: Reg, dst: Reg, t: Reg,
                       u: Reg, v: Reg, size: Size, rest: Chain, n: nat)
    requires Calls(m, s, S.In(c, b, k, ts), p) && InRegs(m, ch, dst, t, u, v, size, c, b, k) && n > 30 + 2 * k
    ensures p < |s.ps| && c < |s.cs|
    ensures InputDone(m, Exec(InCode(ch, dst, t, u, v, size, rest), m, n), s, p, c, b, k, rest, n)
  {
    InputMeets(s, p, c, b, k, ts);
    InRuns(m, s, p, c, b, k, ch, dst, t, u, v, size, rest, n);
  }

  /** The operands of an input of k bytes from channel c into buffer b. */
  ghost predicate InOperands(tr: Translator, m: Mach, width: nat, c: nat, b: nat, k: nat)
    reads tr
  {
    && Get(m, tr.InChan(width)) == Ptr(Word(c), 0) && Get(m, tr.InDest(width)) == Ptr(Buf(b), 0) && k < W
    && if width > 0 then width / 8 == k && width >= 8 else Get(m, tr.oldA) == Num(k)
  }

  /** compose_inline_in_2_i386, composed and run. */
  method ComposedIn(tr: Translator, width: nat, ghost m0: Mach, ghost n0: nat, ghost m: Mach, ghost n: nat,
                    ghost s: S.State, ghost p: nat, ghost c: nat, ghost b: nat, ghost k: nat, ghost ts: seq<int>,
                    ghost rest: Chain)
    requires At(tr, m0, n0, m, n) && Calls(m, s, S.In(c, b, k, ts), p) && InOperands(tr, m, width, c, b, k)
    requires n > 30 + 2 * k
    modifies tr`chain, tr`regCounter
    ensures p < |s.ps| && c < |s.cs|
    ensures InputDone(m, Exec(After(tr.chain, rest), m0, n0), s, p, c, b, k, rest, n)
  {
    hide Rep, Exec, InCode, InputDone, Leads, After;
    ghost var size, r := tr.SizeOf(width), tr.regCounter;
    ghost var ch, dst := tr.InChan(width), tr.InDest(width);
    LeadsOn(tr.chain, m0, n0, m, n, InCode(ch, dst, V(r), V(r + 1), V(r + 2), size, rest));
    tr.In(width);
    InputReachable(m, s, p, c, b, k, ts, ch, dst, V(r), V(r + 1), V(r + 2), size, rest, n);
  }

  // ---- alternatives ----

  /** compose_inline_enbc_i386: the guard v is in the first register, the channel c in the second. */
  method ComposedEnbc(tr: Translator, ghost m0: Mach, ghost n0: nat, ghost m: Mach, ghost n: nat, ghost s: S.State,
                      ghost p: nat, ghost c: nat, ghost v: int, ghost rest: Chain)
    returns (ghost t: Mach, ghost left: nat)
    requires At(tr, m0, n0, m, n) && Calls(m, s, S.Enbc(v != 0, c), p) && n > 14
    requires Get(m, tr.oldA) == Num(v) && Get(m, tr.oldB) == Ptr(Word(c), 0)
    modifies tr`chain, tr`lastLab, tr`aReg, tr`consts
    ensures p < |s.ps| && c < |s.cs|
    ensures Exec(After(tr.chain, rest), m0, n0) == Exec(rest, t, left) && left >= n - 8
    ensures Rep(t, S.EnableChan(s, p, v != 0, c).0) && Steady(m, t, p)
    ensures tr.aReg == Some(tr.oldA) && Get(t, tr.oldA) == Num(v)
  {
    ghost var known, l := tr.Const(tr.oldA), tr.lastLab;
    LeadsOn(tr.chain, m0, n0, m, n, EnbcCode(known, tr.oldA, tr.oldB, l + 1, l + 2, rest));
    t, left := EnbcRuns(m, s, p, c, known, tr.oldA, v, tr.oldB, l + 1, l + 2, rest, n);
    hide Rep, Exec, EnbcCode, After, Leads;
    tr.Enbc();
  }

  /** compose_inline_altwt_i386. */
  method ComposedAltwt(tr: Translator, ghost m0: Mach, ghost n0: nat, ghost m: Mach, ghost n: nat, ghost s: S.State,
                       ghost p: nat, ghost ts: seq<int>, ghost rest: Chain)
    requires At(tr, m0, n0, m, n) && Calls(m, s, S.AltWt(ts), p) && n > 20
    modifies tr`chain
    ensures p < |s.ps|
    ensures var o, e := S.AltWait(s, p), Exec(After(tr.chain, rest), m0, n0);
      if o.Go? then Rescheduled(e, o.s, p, Code(FLab(0))) && Load(e.m, Field(p, TEMP)) == Num(NONE_SELECTED)
      else exists r: Mach :: e == Exec(rest, r, n - 3) && Rep(r, o.s) && Load(r, Field(p, TEMP)) == Num(NONE_SELECTED)
  {
    assert I.PhaseOk(s, p);
    LeadsOn(tr.chain, m0, n0, m, n, AltwtCode(rest));
    AltwtRuns(m, s, p, rest, n);
    hide Rep, Exec, AltwtCode, After, Leads;
    tr.Altwt();
  }

  /** In every state in which a DISC is admissible. */
  lemma DiscReachable(m: Mach, s: S.State, ndisc: bool, p: nat, c: nat, known: Option<int>, off: Reg, g: Reg, v: int,
                      ch: Reg, k: nat, l: int, rest: Chain, n: nat)
    returns (r: Mach, left: nat)
    requires Calls(m, s, S.Disc(v != 0, c), p) && GuardIs(m, known, g, v) && Get(m, ch) == Ptr(Word(c), 0) && n > 22
    ensures p < |s.ps| && c < |s.cs|
    ensures Exec(DiscCode(ndisc, known, off, g, ch, V(k), l, rest), m, n) == Exec(rest, r, left) && left >= n - 11
    ensures Disabled(m, r, s, p, c, v != 0, ndisc, off, V(k), DiscResult(known, g, V(k)))
  {
    hide Rep, Exec, DiscCode, Disabled;
    r, left := DiscRuns(m, s, ndisc, p, c, known, off, g, v, ch, V(k), l, rest, n);
  }

  /** compose_inline_disc_i386: the process offset is in the first register, the guard v in the second and
      the channel c in the third; the register of the result tells whether the guard has fired. */
  method ComposedDisc(tr: Translator, ndisc: bool, ghost m0: Mach, ghost n0: nat, ghost m: Mach, ghost n: nat,
                      ghost s: S.State, ghost p: nat, ghost c: nat, ghost v: int, ghost rest: Chain)
    returns (ghost r: Mach, ghost left: nat)
    requires At(tr, m0, n0, m, n) && Calls(m, s, S.Disc(v != 0, c), p) && n > 22
    requires Get(m, tr.oldB) == Num(v) && Get(m, tr.oldC) == Ptr(Word(c), 0)
    modifies tr`chain, tr`lastLab, tr`regCounter, tr`aReg, tr`bReg
    ensures p < |s.ps| && c < |s.cs| && tr.aReg.Some?
    ensures Exec(After(tr.chain, rest), m0, n0) == Exec(rest, r, left) && left >= n - 11
    ensures Disabled(m, r, s, p, c, v != 0, ndisc, tr.oldA, V(old(tr.regCounter)), tr.aReg.value)
  {
    hide Rep, Exec, DiscCode, After, Leads, Disabled, Calls;
    ghost var known, l, k := tr.Const(tr.oldB), tr.lastLab, tr.regCounter;
    LeadsOn(tr.chain, m0, n0, m, n, DiscCode(ndisc, known, tr.oldA, tr.oldB, tr.oldC, V(k), l + 1, rest));
    r, left := DiscReachable(m, s, ndisc, p, c, known, tr.oldA, tr.oldB, v, tr.oldC, k, l + 1, rest, n);
    tr.Disc(ndisc);
  }

  // ---- scheduling ----

  /** compose_inline_full_reschedule_i386, composed and run where ccsp_pause may be called. */
  method ComposedReschedule(tr: Translator, ghost m0: Mach, ghost n0: nat, ghost m: Mach, ghost n: nat,
                            ghost s: S.State, ghost p: nat, ghost ts: seq<int>, ghost x: nat, ghost y: nat,
                            ghost rest: Chain)
    requires At(tr, m0, n0, m, n) && Calls(m, s, S.Pause(ts), p) && SyncWords(m, x, y) && n > 30
    modifies tr`chain, tr`regCounter
    ensures var e := Exec(After(tr.chain, rest), m0, n0);
      var z := S.Leave(S.LinkProc(s, p)).s;
      if x != 0 || y != 0 then
        e.Left? && e.to == OccScheduler && Rep(e.m, z) && Load(e.m, Field(p, IPTR)) == Code(FLab(0))
      else if s.runq != [] then Rescheduled(e, z, p, Code(FLab(0)))
      else exists r: Mach :: Rep(r, s) && e == Exec(rest, r, n - 6)
  {
    ghost var k := tr.regCounter;
    LeadsOn(tr.chain, m0, n0, m, n, FullCode(V(k), V(k + 1), rest));
    FullRuns(m, s, p, x, y, V(k), V(k + 1), rest, n);
    hide Rep, Exec, FullCode, After, Leads;
    tr.FullReschedule();
  }

  // ---- long arithmetic ----

  /** What the two words of the result say, of the words x, y and z in the first to the third register. */
  ghost predicate LongResult(sec: LongOp, x: int, y: int, z: int, e: End, m: Mach, high: Reg, low: Reg)
    requires 0 <= x
  {
    match sec
    case LSHL => YieldsPair(e, m, high, low, (Pair(z, y) * Pow2(x)) % (W * W))
    case LSHR => YieldsPair(e, m, high, low, Pair(z, y) / Pow2(x))
    case LMUL => YieldsPair(e, m, high, low, x * y + z)
    case LSUM => YieldsPair(e, m, high, low, x + y + z % 2)
    case LDIFF =>
      var d := y - x - z % 2;
      Yields(e, m, high, if d < 0 then 1 else 0, low, if d < 0 then d + W else d)
  }

  /** The code of every operation, run. */
  lemma LongRuns(tr: Translator, sec: LongOp, m: Mach, x: int, y: int, z: int, lab: int, steps: nat)
    requires tr.Fresh() && Regs3(m, tr.oldA, x, tr.oldB, y, tr.oldC, z) && steps > 10
    ensures LongResult(sec, x, y, z, Exec(tr.LongCode(sec, tr.regCounter, lab), m, steps), m,
                       tr.LongHigh(sec, tr.regCounter), tr.LongLow(sec))
  {
    hide Exec, YieldsPair, Yields;
    var a, b, c, t := tr.oldA, tr.oldB, tr.oldC, V(tr.regCounter);
    match sec
    case LSHL => LshlExact(m, a, b, c, lab, x, y, z, steps);
    case LSHR => LshrExact(m, a, b, c, lab, x, y, z, steps);
    case LMUL => LmulExact(m, a, b, c, t, x, y, z, steps);
    case LSUM => LsumExact(m, a, b, c, t, x, y, z, steps);
    case LDIFF => LdiffExact(m, a, b, c, t, x, y, z, steps);
  }

  /** compose_longop_i386, composed and run. */
  method ComposedLongOp(tr: Translator, sec: LongOp, ghost m0: Mach, ghost n0: nat, ghost m: Mach, ghost n: nat,
                        ghost x: int, ghost y: int, ghost z: int)
    requires At(tr, m0, n0, m, n) && Regs3(m, tr.oldA, x, tr.oldB, y, tr.oldC, z) && n > 10
    modifies tr`chain, tr`lastLab, tr`regCounter, tr`aReg, tr`bReg, tr`consts
    ensures tr.bReg.Some?
    ensures LongResult(sec, x, y, z, Exec(After(tr.chain, Nil), m0, n0), m, tr.bReg.value, tr.LongLow(sec))
  {
    LongRuns(tr, sec, m, x, y, z, tr.lastLab + 1, n);
    LeadsOn(tr.chain, m0, n0, m, n, tr.LongCode(sec, tr.regCounter, tr.lastLab + 1));
    hide Exec, LongResult, After, Leads;
    tr.ComposeLongOp(sec);
  }

  /** compose_inline_ldtimer_i386, composed and run: the scaled cycle counter is on top of the stack. */
  method ComposedLdtimer(tr: Translator, ghost m0: Mach, ghost n0: nat, ghost m: Mach, ghost n: nat, ghost f: int)
    requires At(tr, m0, n0, m, n) && 0 <= m.tsc < W * W && n > 7
    requires Load(m, Addr(Name(FACTOR), 0)) == Num(f) && 0 <= f < W
    modifies tr`chain, tr`regCounter, tr`aReg
    ensures var e := Exec(After(tr.chain, Nil), m0, n0);
      e.Fall? && e.m.mem == m.mem && tr.aReg.Some? && Get(e.m, tr.aReg.value) == Num(((m.tsc * f) / W) % W)
  {
    ghost var k := tr.regCounter;
    LdtimerExact(m, V(k), V(k + 1), V(k + 2), f, n);
    LeadsOn(tr.chain, m0, n0, m, n, LdtimerCode(V(k), V(k + 1), V(k + 2)));
    hide Exec, After, Leads, LdtimerCode;
    tr.Ldtimer();
  }
}
