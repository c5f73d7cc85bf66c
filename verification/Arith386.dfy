/** The 64-bit arithmetic sequences: what the emitted chains compute. */
module Arith386 {
  import opened Common
  import opened Machine386
  import opened Words64

  /** Three different registers holding three words. */
  ghost predicate Regs3(m: Mach, a: Reg, x: int, b: Reg, y: int, c: Reg, z: int) {
    a != b && b != c && a != c && Get(m, a) == Num(x) && Get(m, b) == Num(y) && Get(m, c) == Num(z)
    && 0 <= x < W && 0 <= y < W && 0 <= z < W
  }

  /** The code falls through leaving the two words in registers ra and rb, and memory alone. */
  ghost predicate Yields(e: End, m: Mach, ra: Reg, x: int, rb: Reg, y: int) {
    e.Fall? && e.m.mem == m.mem && Get(e.m, ra) == Num(x) && Get(e.m, rb) == Num(y)
  }

  /** The code leaves the 64-bit number v in rhi and rlo. */
  ghost predicate YieldsPair(e: End, m: Mach, rhi: Reg, rlo: Reg, v: int) {
    e.Fall? && e.m.mem == m.mem && IsWord(Get(e.m, rhi)) && IsWord(Get(e.m, rlo))
    && Pair(Get(e.m, rhi).n, Get(e.m, rlo).n) == v
  }

  // ---- shifts ----

  /** The end of I_LSHL and I_LSHR: fix up counts of 32 and more.  a holds the count, b and c the pair;
      out is the register whose bits are shifted out by a whole word, other the other one. */
  function FixUp(a: Reg, b: Reg, c: Reg, out: Reg, other: Reg, lab: int): Chain {
    Cons(Cm(CmpC(Num(32), a)), Cons(CJump(B, Lab(lab)),
    Cons(Mv(Swap(b, c)), Cons(Mv(MovC(Num(0), out)),
    Cons(Cm(CmpC(Num(64), a)), Cons(CJump(B, Lab(lab)),
    Cons(Mv(MovC(Num(0), other)), Cons(SetLabel(Lab(lab)), Nil))))))))
  }

  /** I_LSHL: the count is in a, the low and high words in b and c. */
  function LshlCode(a: Reg, b: Reg, c: Reg, lab: int): Chain {
    Cons(Wi(Shld(a, b, c)), Cons(Wi(Shl(a, b)), FixUp(a, b, c, b, c, lab)))
  }

  /** I_LSHR. */
  function LshrCode(a: Reg, b: Reg, c: Reg, lab: int): Chain {
    Cons(Wi(Shrd(a, c, b)), Cons(Wi(Shr(a, c)), FixUp(a, b, c, c, b, lab)))
  }

  lemma FixUpRuns(m: Mach, a: Reg, b: Reg, c: Reg, out: Reg, other: Reg, lab: int, n: int, steps: nat)
    requires a != b && b != c && a != c && (out, other) in {(b, c), (c, b)}
    requires Get(m, a) == Num(n) && 0 <= n < W && steps > 8
    ensures var e := Exec(FixUp(a, b, c, out, other, lab), m, steps);
      e.Fall? && e.m.mem == m.mem
      && Get(e.m, out) == (if n < 32 then Get(m, out) else Num(0))
      && Get(e.m, other) == (if n < 32 then Get(m, other) else if n < 64 then Get(m, out) else Num(0))
  {
    var code := FixUp(a, b, c, out, other, lab);
    var m1 := m.(fl := Compare(Num(32), Num(n)));
    RunOne(code, m, m1, steps);
    if n < 32 { RunJump(code.tl, m1, 6, steps - 1); } else { FixUpWord(m1, a, b, c, out, other, lab, n, steps - 1); }
  }

  lemma FixUpSwap(m: Mach, a: Reg, b: Reg, c: Reg, out: Reg, other: Reg, lab: int, n: int, steps: nat)
    requires a != b && b != c && a != c && (out, other) in {(b, c), (c, b)}
    requires Get(m, a) == Num(n) && 32 <= n < W && steps > 7 && m.fl == Compare(Num(32), Num(n))
    ensures var c1 := FixUp(a, b, c, out, other, lab).tl;
      var m2 := Set(Set(Set(m, b, Get(m, c)), c, Get(m, b)), out, Num(0)).(fl := Compare(Num(64), Num(n)));
      Exec(c1, m, steps) == Exec(c1.tl.tl.tl.tl, m2, steps - 4)
  {
    var c1 := FixUp(a, b, c, out, other, lab).tl;
    var m1 := Set(Set(m, b, Get(m, c)), c, Get(m, b));
    var m2 := Set(m1, out, Num(0));
    assert Exec(c1, m, steps) == Exec(c1.tl, m, steps - 1);
    RunOne(c1.tl, m, m1, steps - 1);
    RunOne(c1.tl.tl, m1, m2, steps - 2);
    RunOne(c1.tl.tl.tl, m2, m2.(fl := Compare(Num(64), Num(n))), steps - 3);
  }

  /** The count is 32 or more. */
  lemma FixUpWord(m: Mach, a: Reg, b: Reg, c: Reg, out: Reg, other: Reg, lab: int, n: int, steps: nat)
    requires a != b && b != c && a != c && (out, other) in {(b, c), (c, b)}
    requires Get(m, a) == Num(n) && 32 <= n < W && steps > 7 && m.fl == Compare(Num(32), Num(n))
    ensures var e := Exec(FixUp(a, b, c, out, other, lab).tl, m, steps);
      e.Fall? && e.m.mem == m.mem
      && Get(e.m, out) == Num(0) && Get(e.m, other) == if n < 64 then Get(m, out) else Num(0)
  {
    var c1 := FixUp(a, b, c, out, other, lab).tl;
    var m2 := Set(Set(Set(m, b, Get(m, c)), c, Get(m, b)), out, Num(0)).(fl := Compare(Num(64), Num(n)));
    FixUpSwap(m, a, b, c, out, other, lab, n, steps);
    if n < 64 {
      RunJump(c1.tl.tl.tl.tl, m2, 2, steps - 4);
    } else {
      assert Exec(c1.tl.tl.tl.tl, m2, steps - 4) == Exec(c1.tl.tl.tl.tl.tl, m2, steps - 5);
      var m3 := Set(m2, other, Num(0));
      RunOne(c1.tl.tl.tl.tl.tl, m2, m3, steps - 5);
    }
  }

  /** The two shifts; the machine takes the count modulo 32. */
  lemma ShiftsLeft(m: Mach, a: Reg, b: Reg, c: Reg, n: int, lo: int, hi: int)
    requires Regs3(m, a, n, b, lo, c, hi)
    ensures var m1 := Set(m, c, Num(ShldWord(hi, lo, Count(n)))).(fl := Unknown);
      Do(Wi(Shld(a, b, c)), m) == Some(m1)
      && Do(Wi(Shl(a, b)), m1) == Some(Set(m1, b, Num(ShlWord(lo, Count(n)))).(fl := Unknown))
  {
    hide ShldWord, ShlWord, Count, DoMov, DoCmp, DoAlu, DoByte, DoStr, Pow2, Pair;
    ShiftLeftShort(hi, lo, Count(n));
  }

  lemma ShiftsRight(m: Mach, a: Reg, b: Reg, c: Reg, n: int, lo: int, hi: int)
    requires Regs3(m, a, n, b, lo, c, hi)
    ensures var m1 := Set(m, b, Num(ShrdWord(lo, hi, Count(n)))).(fl := Unknown);
      Do(Wi(Shrd(a, c, b)), m) == Some(m1)
      && Do(Wi(Shr(a, c)), m1) == Some(Set(m1, c, Num(ShrWord(hi, Count(n)))).(fl := Unknown))
  {
    hide ShrdWord, ShrWord, Count, DoMov, DoCmp, DoAlu, DoByte, DoStr, Pow2, Pair;
    ShiftRightShort(hi, lo, Count(n));
  }

  lemma LshlRuns(m: Mach, a: Reg, b: Reg, c: Reg, lab: int, n: int, lo: int, hi: int, steps: nat)
    requires Regs3(m, a, n, b, lo, c, hi) && steps > 10
    ensures Yields(Exec(LshlCode(a, b, c, lab), m, steps), m,
      c, if n < 32 then ShldWord(hi, lo, Count(n)) else if n < 64 then ShlWord(lo, Count(n)) else 0,
      b, if n < 32 then ShlWord(lo, Count(n)) else 0)
  {
    var m1 := Set(m, c, Num(ShldWord(hi, lo, Count(n)))).(fl := Unknown);
    var m2 := Set(m1, b, Num(ShlWord(lo, Count(n)))).(fl := Unknown);
    ShiftsLeft(m, a, b, c, n, lo, hi);
    hide Do, Exec, FixUp, ShldWord, ShlWord;
    RunOne(LshlCode(a, b, c, lab), m, m1, steps);
    RunOne(LshlCode(a, b, c, lab).tl, m1, m2, steps - 1);
    FixUpRuns(m2, a, b, c, b, c, lab, n, steps - 2);
  }

  lemma LshrRuns(m: Mach, a: Reg, b: Reg, c: Reg, lab: int, n: int, lo: int, hi: int, steps: nat)
    requires Regs3(m, a, n, b, lo, c, hi) && steps > 10
    ensures Yields(Exec(LshrCode(a, b, c, lab), m, steps), m,
      c, if n < 32 then ShrWord(hi, Count(n)) else 0,
      b, if n < 32 then ShrdWord(lo, hi, Count(n)) else if n < 64 then ShrWord(hi, Count(n)) else 0)
  {
    var m1 := Set(m, b, Num(ShrdWord(lo, hi, Count(n)))).(fl := Unknown);
    var m2 := Set(m1, c, Num(ShrWord(hi, Count(n)))).(fl := Unknown);
    ShiftsRight(m, a, b, c, n, lo, hi);
    hide Do, Exec, FixUp, ShrdWord, ShrWord;
    RunOne(LshrCode(a, b, c, lab), m, m1, steps);
    RunOne(LshrCode(a, b, c, lab).tl, m1, m2, steps - 1);
    FixUpRuns(m2, a, b, c, c, b, lab, n, steps - 2);
  }

  lemma ShiftedLeft(hi: int, lo: int, n: nat)
    requires IsPair(hi, lo)
    ensures var k := Count(n);
      var (x, y) := if n < 32 then (ShldWord(hi, lo, k), ShlWord(lo, k))
              else if n < 64 then (ShlWord(lo, k), 0) else (0, 0);
      IsPair(x, y) && Pair(x, y) == (Pair(hi, lo) * Pow2(n)) % (W * W)
  {
    hide ShldWord, ShlWord, Pow2;
    if n < 32 { ShiftLeftShort(hi, lo, n); }
    else if n < 64 { ShiftLeftWord(hi, lo, n - 32); }
    else { ShiftLeftOut(Pair(hi, lo), n); }
  }

  lemma ShiftedRight(hi: int, lo: int, n: nat)
    requires IsPair(hi, lo)
    ensures var k := Count(n);
      var (x, y) := if n < 32 then (ShrWord(hi, k), ShrdWord(lo, hi, k))
              else if n < 64 then (0, ShrWord(hi, k)) else (0, 0);
      IsPair(x, y) && Pair(x, y) == Pair(hi, lo) / Pow2(n)
  {
    hide ShrdWord, ShrWord, Pow2;
    if n < 32 { ShiftRightShort(hi, lo, n); }
    else if n < 64 { ShiftRightWord(hi, lo, n - 32); }
    else { ShiftRightOut(hi, lo, n); }
  }

  /** I_LSHL leaves the exact 64-bit logical left shift of the pair, for every 32-bit count. */
  lemma LshlExact(m: Mach, a: Reg, b: Reg, c: Reg, lab: int, n: int, lo: int, hi: int, steps: nat)
    requires Regs3(m, a, n, b, lo, c, hi) && steps > 10
    ensures var e := Exec(LshlCode(a, b, c, lab), m, steps);
      YieldsPair(e, m, c, b, (Pair(hi, lo) * Pow2(n)) % (W * W))
  {
    hide Exec, LshlCode, ShldWord, ShlWord, Pow2, Pair;
    LshlRuns(m, a, b, c, lab, n, lo, hi, steps);
    ShiftedLeft(hi, lo, n);
  }

  /** I_LSHR leaves the exact 64-bit logical right shift of the pair, for every 32-bit count. */
  lemma LshrExact(m: Mach, a: Reg, b: Reg, c: Reg, lab: int, n: int, lo: int, hi: int, steps: nat)
    requires Regs3(m, a, n, b, lo, c, hi) && steps > 10
    ensures YieldsPair(Exec(LshrCode(a, b, c, lab), m, steps), m, c, b, Pair(hi, lo) / Pow2(n))
  {
    hide Exec, LshrCode, ShrdWord, ShrWord, Pow2, Pair;
    LshrRuns(m, a, b, c, lab, n, lo, hi, steps);
    ShiftedRight(hi, lo, n);
  }

  // ---- multiplication, sum, difference ----

  /** I_LMUL: a times b plus c; t is the new register that gets the high word. */
  function LmulCode(a: Reg, b: Reg, c: Reg, t: Reg): Chain {
    Cons(Wi(UmulR(a, b, t)), Cons(Al(AddR(c, a)), Cons(Al(AdcC(0, t)), Nil)))
  }

  lemma ProductBound(x: int, y: int)
    requires 0 <= x < W && 0 <= y < W
    ensures 0 <= Times(x, y) <= (W - 1) * (W - 1) && IsPair(Hi(Times(x, y)), Lo(Times(x, y)))
  {
    TimesIs(x, y);
    MulMono(0, x, y);
    MulMono(x, W - 1, y);
    MulMono(y, W - 1, W - 1);
  }

  lemma MulSum(x: int, y: int, z: int)
    requires 0 <= x < W && 0 <= y < W && 0 <= z < W
    ensures var p := Times(x, y); var hi, lo := Lo(Hi(p) + Bit(z + Lo(p) >= W)), Lo(z + Lo(p));
      IsPair(hi, lo) && Pair(hi, lo) == x * y + z
  {
    ProductBound(x, y);
    TimesIs(x, y);
    CarryIn(Times(x, y), z);
  }

  lemma CarryIn(p: int, z: int)
    requires 0 <= p <= (W - 1) * (W - 1) && 0 <= z < W
    ensures var hi, lo := Lo(Hi(p) + Bit(z + Lo(p) >= W)), Lo(z + Lo(p)); IsPair(hi, lo) && Pair(hi, lo) == p + z
  {
    assert 0 <= Hi(p) + Bit(z + Lo(p) >= W) < W;
  }

  lemma LmulRuns(m: Mach, a: Reg, b: Reg, c: Reg, t: Reg, x: int, y: int, z: int, steps: nat)
    requires Regs3(m, a, x, b, y, c, z) && t != a && t != b && t != c && steps > 3
    ensures var p := Times(x, y);
      Yields(Exec(LmulCode(a, b, c, t), m, steps), m, t, Lo(Hi(p) + Bit(z + Lo(p) >= W)), a, Lo(z + Lo(p)))
  {
    ProductBound(x, y);
    var code, l, h := LmulCode(a, b, c, t), Lo(Times(x, y)), Hi(Times(x, y));
    var m1 := Set(Set(m, a, Num(l)), t, Num(h)).(fl := Unknown);
    RunOne(code, m, m1, steps);
    LmulTail(m1, a, c, t, l, z, h, steps - 1);
  }

  lemma LmulTail(m: Mach, a: Reg, c: Reg, t: Reg, l: int, z: int, h: int, steps: nat)
    requires Regs3(m, a, l, c, z, t, h) && steps > 2
    ensures Yields(Exec(Cons(Al(AddR(c, a)), Cons(Al(AdcC(0, t)), Nil)), m, steps), m,
      t, Lo(h + Bit(z + l >= W)), a, Lo(z + l))
  {
    var code := Cons(Al(AddR(c, a)), Cons(Al(AdcC(0, t)), Nil));
    var m2 := Set(m, a, Num(Lo(z + l))).(fl := Known(Lo(z + l) == 0, z + l >= W));
    var k := h + Bit(z + l >= W);
    var m3 := Set(m2, t, Num(Lo(k))).(fl := Known(Lo(k) == 0, k >= W));
    RunOne(code, m, m2, steps);
    RunOne(code.tl, m2, m3, steps - 1);
  }

  /** No carry is lost. */
  lemma LmulExact(m: Mach, a: Reg, b: Reg, c: Reg, t: Reg, x: int, y: int, z: int, steps: nat)
    requires Regs3(m, a, x, b, y, c, z) && t != a && t != b && t != c && steps > 3
    ensures YieldsPair(Exec(LmulCode(a, b, c, t), m, steps), m, t, a, x * y + z)
  {
    LmulRuns(m, a, b, c, t, x, y, z, steps);
    MulSum(x, y, z);
  }

  /** I_LSUM: b plus a plus the low bit of c; t is the new register that gets the carry. */
  function LsumCode(a: Reg, b: Reg, c: Reg, t: Reg): Chain {
    Cons(Al(Rcr8(c)), Cons(Al(AdcR(a, b)), Cons(Mv(MovC(Num(0), t)), Cons(Al(Rcl8(t)), Nil))))
  }

  /** I_LDIFF: b minus a minus the low bit of c. */
  function LdiffCode(a: Reg, b: Reg, c: Reg, t: Reg): Chain {
    Cons(Al(Rcr8(c)), Cons(Al(SbbR(a, b)), Cons(Mv(MovC(Num(0), t)), Cons(Al(Rcl8(t)), Nil))))
  }

  /** After the first instruction the carry is the low bit of c, whatever the flags were. */
  lemma TakesBit(m: Mach, c: Reg, z: int)
    requires Get(m, c) == Num(z) && 0 <= z < W
    ensures Do(Al(Rcr8(c)), m).Some?
    ensures Do(Al(Rcr8(c)), m).value.fl.Known? && Do(Al(Rcr8(c)), m).value.fl.c == (z % 2 == 1)
    ensures Do(Al(Rcr8(c)), m).value.mem == m.mem
    ensures forall r :: r != c ==> Get(Do(Al(Rcr8(c)), m).value, r) == Get(m, r)
  {
  }

  /** The last two instructions turn the carry into a word. */
  lemma GivesBit(m: Mach, t: Reg, steps: nat)
    requires m.fl.Known? && steps > 2
    ensures var e := Exec(Cons(Mv(MovC(Num(0), t)), Cons(Al(Rcl8(t)), Nil)), m, steps);
      e.Fall? && e.m.mem == m.mem && Get(e.m, t) == Num(Bit(m.fl.c)) && forall r :: r != t ==> Get(e.m, r) == Get(m, r)
  {
    var code := Cons(Mv(MovC(Num(0), t)), Cons(Al(Rcl8(t)), Nil));
    var m1 := Set(m, t, Num(0));
    var m2 := Set(m1, t, Num(Bit(m.fl.c))).(fl := Known(m.fl.z, false));
    RunOne(code, m, m1, steps);
    RunOne(code.tl, m1, m2, steps - 1);
  }

  lemma AddsCarry(m: Mach, a: Reg, b: Reg, x: int, y: int)
    requires Get(m, a) == Num(x) && Get(m, b) == Num(y) && m.fl.Known? && 0 <= x < W && 0 <= y < W
    ensures var s := x + y + Bit(m.fl.c);
      Do(Al(AdcR(a, b)), m) == Some(Set(m, b, Num(Lo(s))).(fl := Known(Lo(s) == 0, s >= W)))
  {
  }

  lemma TakesBorrow(m: Mach, a: Reg, b: Reg, x: int, y: int)
    requires Get(m, a) == Num(x) && Get(m, b) == Num(y) && m.fl.Known? && 0 <= x < W && 0 <= y < W
    ensures var s := y - x - Bit(m.fl.c);
      Do(Al(SbbR(a, b)), m) == Some(Set(m, b, Num(Lo(s))).(fl := Known(Lo(s) == 0, s < 0)))
  {
  }

  lemma LsumExact(m: Mach, a: Reg, b: Reg, c: Reg, t: Reg, x: int, y: int, z: int, steps: nat)
    requires Regs3(m, a, x, b, y, c, z) && t != a && t != b && t != c && steps > 4
    ensures YieldsPair(Exec(LsumCode(a, b, c, t), m, steps), m, t, b, x + y + z % 2)
  {
    hide Do, Exec;
    TakesBit(m, c, z);
    var m1 := Do(Al(Rcr8(c)), m).value;
    var s := x + y + Bit(z % 2 == 1);
    var m2 := Set(m1, b, Num(Lo(s))).(fl := Known(Lo(s) == 0, s >= W));
    AddsCarry(m1, a, b, x, y);
    RunOne(LsumCode(a, b, c, t), m, m1, steps);
    RunOne(LsumCode(a, b, c, t).tl, m1, m2, steps - 1);
    GivesBit(m2, t, steps - 2);
    assert Pair(Bit(s >= W), Lo(s)) == s;
  }

  lemma LdiffExact(m: Mach, a: Reg, b: Reg, c: Reg, t: Reg, x: int, y: int, z: int, steps: nat)
    requires Regs3(m, a, x, b, y, c, z) && t != a && t != b && t != c && steps > 4
    ensures var e := Exec(LdiffCode(a, b, c, t), m, steps); var d := y - x - z % 2;
      Yields(e, m, t, if d < 0 then 1 else 0, b, if d < 0 then d + W else d)
  {
    hide Do, Exec;
    TakesBit(m, c, z);
    var m1 := Do(Al(Rcr8(c)), m).value;
    var s := y - x - Bit(z % 2 == 1);
    var m2 := Set(m1, b, Num(Lo(s))).(fl := Known(Lo(s) == 0, s < 0));
    TakesBorrow(m1, a, b, x, y);
    RunOne(LdiffCode(a, b, c, t), m, m1, steps);
    RunOne(LdiffCode(a, b, c, t).tl, m1, m2, steps - 1);
    GivesBit(m2, t, steps - 2);
    assert Lo(s) - Bit(s < 0) * W == s;
  }

  // ---- the inline timer ----

  const FACTOR: string := "glob_cpufactor"

  /** compose_inline_ldtimer_i386: x and y stand for EAX and EDX, t for the temporary. */
  function LdtimerCode(x: Reg, y: Reg, t: Reg): Chain {
    Cons(Wi(Rdtsc(x, y)), Cons(Mv(MovR(y, t)), Cons(Wi(UmulN(x, FACTOR, y)), Cons(Mv(MovR(t, x)),
    Cons(Mv(MovR(y, t)), Cons(Wi(UmulN(x, FACTOR, y)), Cons(Al(AddR(t, x)), Nil)))))))
  }

  lemma ScaledTime(tsc: int, f: int)
    requires 0 <= tsc < W * W && 0 <= f < W
    ensures Lo(Hi(Times(Lo(tsc), f)) + Lo(Times(Hi(tsc), f))) == ((tsc * f) / W) % W
  {
    var h, l := Hi(tsc), Lo(tsc);
    TimesIs(l, f);
    TimesIs(h, f);
    Distribute(h * W, l, f);
    MulAssoc(h, W, f);
    MulAssoc(h, f, W);
    var p, q := Times(l, f), Times(h, f);
    assert tsc * f == q * W + p;
    DivModUnique(tsc * f, W, q + Hi(p), Lo(p));
    DivModUnique(q + Hi(p), W, (Lo(q) + Hi(p)) / W + Hi(q), Lo(Lo(q) + Hi(p)));
  }

  /** One multiplication by the factor: the number in x becomes the low word, y gets the high word. */
  lemma Scales(m: Mach, x: Reg, y: Reg, l: int, f: int)
    requires x != y && Get(m, x) == Num(l) && 0 <= l < W
    requires Load(m, Addr(Name(FACTOR), 0)) == Num(f) && 0 <= f < W
    ensures Do(Wi(UmulN(x, FACTOR, y)), m)
      == Some(Set(Set(m, x, Num(Lo(Times(l, f)))), y, Num(Hi(Times(l, f)))).(fl := Unknown))
  {
  }

  /** The time the inline code leaves is the cycle counter scaled by the factor, in whole units. */
  lemma LdtimerExact(m: Mach, x: Reg, y: Reg, t: Reg, f: int, steps: nat)
    requires x != y && y != t && x != t && 0 <= m.tsc < W * W
    requires Load(m, Addr(Name(FACTOR), 0)) == Num(f) && 0 <= f < W && steps > 7
    ensures var e := Exec(LdtimerCode(x, y, t), m, steps);
      e.Fall? && e.m.mem == m.mem && Get(e.m, x) == Num(((m.tsc * f) / W) % W)
  {
    var h, l := Hi(m.tsc), Lo(m.tsc);
    assert 0 <= h < W && 0 <= l < W;
    ScaledTime(m.tsc, f);
    ProductBound(l, f);
    LdtimerRuns(m, x, y, t, h, l, Hi(Times(l, f)), f, steps);
  }

  lemma LdtimerRuns(m: Mach, x: Reg, y: Reg, t: Reg, h: int, l: int, u: int, f: int, steps: nat)
    requires x != y && y != t && x != t && h == Hi(m.tsc) && l == Lo(m.tsc)
    requires Load(m, Addr(Name(FACTOR), 0)) == Num(f) && 0 <= f < W && steps > 7
    requires u == Hi(Times(l, f)) && 0 <= h < W && 0 <= l < W && 0 <= u < W
    ensures var e := Exec(LdtimerCode(x, y, t), m, steps);
      e.Fall? && e.m.mem == m.mem && Get(e.m, x) == Num(Lo(u + Lo(Times(h, f))))
  {
    var c := LdtimerCode(x, y, t);
    var m1 := Set(Set(m, x, Num(l)), y, Num(h));
    var m2 := Set(m1, t, Num(h));
    var m3 := Set(Set(m2, x, Num(Lo(Times(l, f)))), y, Num(u)).(fl := Unknown);
    var m4 := Set(m3, x, Num(h));
    var m5 := Set(m4, t, Num(u));
    RunOne(c, m, m1, steps);
    RunOne(c.tl, m1, m2, steps - 1);
    Scales(m2, x, y, l, f);
    RunOne(c.tl.tl, m2, m3, steps - 2);
    RunOne(c.tl.tl.tl, m3, m4, steps - 3);
    RunOne(c.tl.tl.tl.tl, m4, m5, steps - 4);
    LdtimerLast(m5, x, y, t, h, u, f, steps - 5);
  }

  /** The last two: scale the high word and add. */
  lemma LdtimerLast(m: Mach, x: Reg, y: Reg, t: Reg, h: int, u: int, f: int, steps: nat)
    requires x != y && y != t && x != t && Get(m, x) == Num(h) && Get(m, t) == Num(u) && 0 <= h < W && 0 <= u < W
    requires Load(m, Addr(Name(FACTOR), 0)) == Num(f) && 0 <= f < W && steps > 2
    ensures var e := Exec(LdtimerCode(x, y, t).tl.tl.tl.tl.tl, m, steps);
      e.Fall? && e.m.mem == m.mem && Get(e.m, x) == Num(Lo(u + Lo(Times(h, f))))
  {
    hide DoMov, DoCmp, DoByte, DoStr;
    Scales(m, x, y, h, f);
    hide Times, Exec;
    var q := Lo(Times(h, f));
    var m1 := Set(Set(m, x, Num(q)), y, Num(Hi(Times(h, f)))).(fl := Unknown);
    var m2 := Set(m1, x, Num(Lo(u + q))).(fl := Known(Lo(u + q) == 0, u + q >= W));
    var c := LdtimerCode(x, y, t).tl.tl.tl.tl.tl;
    RunOne(c, m, m1, steps);
    RunOne(c.tl, m1, m2, steps - 1);
  }
}
