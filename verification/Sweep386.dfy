/** The disabling sequence of an alternative, one emitted DISC for each guard. */
module Sweep386 {
  import opened Common
  import opened Machine386
  import opened Inline386
  import opened I = CcspInv
  import S = CcspState

  /** The operands of one DISC: guard value v, known or in register g; channel c in register ch; process
      offset in register off; result register t; first of three labels. */
  datatype Arm = Arm(known: Option<int>, v: int, g: Reg, c: nat, ch: Reg, off: Reg, t: Reg, l: int)

  function SweepCode(arms: seq<Arm>, rest: Chain): Chain {
    if arms == [] then rest
    else DiscCode(false, arms[0].known, arms[0].off, arms[0].g, arms[0].ch, arms[0].t, arms[0].l,
           SweepCode(arms[1..], rest))
  }

  /** The kernel's disabling of the channels, one after the other. */
  function SweepState(s: S.State, p: nat, arms: seq<Arm>): S.State
    requires p < |s.ps| && forall i :: 0 <= i < |arms| ==> arms[i].c < |s.cs|
    decreases |arms|
  {
    if arms == [] then s else SweepState(S.DisableChan(s, p, arms[0].v != 0, arms[0].c).0, p, arms[1..])
  }

  /** The operands are in registers, and no result register is an operand of a later DISC. */
  ghost predicate ArmsIn(m: Mach, arms: seq<Arm>) {
    && (forall i :: 0 <= i < |arms| ==> ArmIn(m, arms[i]))
    && (forall i, j :: 0 <= i < j < |arms| ==> arms[i].t !in {arms[j].g, arms[j].ch, arms[j].off})
  }

  ghost predicate ArmIn(m: Mach, a: Arm) {
    GuardIs(m, a.known, a.g, a.v) && Get(m, a.ch) == Ptr(Word(a.c), 0) && a.t.V? && Get(m, a.off) != Num(NONE_SELECTED)
  }

  /** The guard is true and its channel holds a process other than p. */
  ghost predicate IsReady(s: S.State, p: nat, a: Arm) {
    a.v != 0 && a.c < |s.cs| && s.cs[a.c].word.Some? && s.cs[a.c].word != Some(p)
  }

  ghost predicate FirstReady(s: S.State, p: nat, arms: seq<Arm>, k: nat) {
    k <= |arms| && (k < |arms| ==> IsReady(s, p, arms[k])) && forall j :: 0 <= j < k ==> !IsReady(s, p, arms[j])
  }

  lemma ArmsRest(m: Mach, r: Mach, arms: seq<Arm>)
    requires ArmsIn(m, arms) && arms != [] && RegsBut(m, r, arms[0].t)
    ensures ArmsIn(r, arms[1..])
    ensures forall i :: 1 <= i < |arms| ==> Get(r, arms[i].off) == Get(m, arms[i].off)
  {
    forall i | 0 <= i < |arms| - 1 ensures ArmIn(r, arms[1..][i]) {
      assert ArmIn(m, arms[i + 1]);
      assert arms[0].t !in {arms[i + 1].g, arms[i + 1].ch, arms[i + 1].off};
    }
  }

  /** Disabling one channel does not change which of the others are ready. */
  lemma ReadyStays(s: S.State, p: nat, arms: seq<Arm>, k: nat)
    requires arms != [] && p < |s.ps| && arms[0].c < |s.cs| && !IsReady(s, p, arms[0])
    requires FirstReady(s, p, arms, k)
    ensures k > 0 && FirstReady(S.DisableChan(s, p, arms[0].v != 0, arms[0].c).0, p, arms[1..], k - 1)
  {
    var z := S.DisableChan(s, p, arms[0].v != 0, arms[0].c).0;
    forall i | 0 <= i < |arms| - 1 ensures IsReady(z, p, arms[1..][i]) <==> IsReady(s, p, arms[i + 1]) {}
  }

  /** What the whole sequence leaves in the Temp slot, when k is the first ready arm. */
  ghost predicate Selected(m: Mach, r: Mach, p: nat, arms: seq<Arm>, k: nat) {
    k <= |arms| && Load(r, Field(p, TEMP)) ==
      if k < |arms| && Load(m, Field(p, TEMP)) == Num(NONE_SELECTED) then Get(m, arms[k].off)
      else Load(m, Field(p, TEMP))
  }

  /** The first DISC of a sequence. */
  lemma SweepFirst(m: Mach, s: S.State, p: nat, arms: seq<Arm>, rest: Chain, n: nat) returns (r: Mach, left: nat)
    requires Rep(m, s) && s.curp == Some(p) && p < |s.ps| && ArmsIn(m, arms) && n > 22
    requires arms != [] && forall i :: 0 <= i < |arms| ==> arms[i].c < |s.cs|
    ensures Exec(SweepCode(arms, rest), m, n) == Exec(SweepCode(arms[1..], rest), r, left) && left >= n - 11
    ensures Rep(r, S.DisableChan(s, p, arms[0].v != 0, arms[0].c).0) && ArmsIn(r, arms[1..])
    ensures Load(r, Field(p, TEMP)) == if IsReady(s, p, arms[0]) && Load(m, Field(p, TEMP)) == Num(NONE_SELECTED)
      then Get(m, arms[0].off) else Load(m, Field(p, TEMP))
    ensures forall i :: 1 <= i < |arms| ==> Get(r, arms[i].off) == Get(m, arms[i].off)
  {
    var a := arms[0];
    assert ArmIn(m, a);
    hide Rep, ArmsIn, DiscCode, Exec;
    r, left := DiscRuns(m, s, false, p, a.c, a.known, a.off, a.g, a.v, a.ch, a.t, a.l, SweepCode(arms[1..], rest), n);
    ArmsRest(m, r, arms);
  }

  /** Once something is selected the rest of the sequence leaves the Temp slot alone. */
  lemma {:induction false} SweepKeeps(m: Mach, s: S.State, p: nat, arms: seq<Arm>, rest: Chain, n: nat)
    returns (r: Mach, left: nat)
    requires Rep(m, s) && s.curp == Some(p) && p < |s.ps| && ArmsIn(m, arms) && n > 22 + 11 * |arms|
    requires forall i :: 0 <= i < |arms| ==> arms[i].c < |s.cs|
    requires Load(m, Field(p, TEMP)) != Num(NONE_SELECTED)
    ensures Exec(SweepCode(arms, rest), m, n) == Exec(rest, r, left) && left >= n - 11 * |arms|
    ensures Rep(r, SweepState(s, p, arms)) && Load(r, Field(p, TEMP)) == Load(m, Field(p, TEMP))
    decreases |arms|
  {
    hide Rep, ArmsIn, Exec, DiscCode, IsReady;
    if arms == [] { r, left := m, n; }
    else {
      r, left := SweepFirst(m, s, p, arms, rest, n);
      r, left := SweepKeeps(r, S.DisableChan(s, p, arms[0].v != 0, arms[0].c).0, p, arms[1..], rest, left);
    }
  }

  lemma FirstOff(m: Mach, arms: seq<Arm>)
    requires ArmsIn(m, arms) && arms != []
    ensures Get(m, arms[0].off) != Num(NONE_SELECTED)
  {
    assert ArmIn(m, arms[0]);
  }

  /** The emitted sequence disables every channel and selects the first ready guard. */
  lemma {:induction false} SweepRuns(m: Mach, s: S.State, p: nat, arms: seq<Arm>, k: nat, rest: Chain, n: nat)
    returns (r: Mach, left: nat)
    requires Rep(m, s) && s.curp == Some(p) && p < |s.ps| && ArmsIn(m, arms) && n > 22 + 11 * |arms|
    requires forall i :: 0 <= i < |arms| ==> arms[i].c < |s.cs|
    requires Load(m, Field(p, TEMP)) == Num(NONE_SELECTED) && FirstReady(s, p, arms, k)
    ensures Exec(SweepCode(arms, rest), m, n) == Exec(rest, r, left) && left >= n - 11 * |arms|
    ensures Rep(r, SweepState(s, p, arms)) && Selected(m, r, p, arms, k)
    decreases |arms|
  {
    hide Rep, ArmsIn, Exec, DiscCode, IsReady;
    if arms == [] { r, left := m, n; }
    else {
      var z := S.DisableChan(s, p, arms[0].v != 0, arms[0].c).0;
      var m1, n1 := SweepFirst(m, s, p, arms, rest, n);
      if IsReady(s, p, arms[0]) {
        FirstOff(m, arms);
        r, left := SweepKeeps(m1, z, p, arms[1..], rest, n1);
      } else {
        ReadyStays(s, p, arms, k);
        r, left := SweepRuns(m1, z, p, arms[1..], k - 1, rest, n1);
      }
    }
  }

  function Guarded(arms: seq<Arm>): set<nat> {
    set i | 0 <= i < |arms| && arms[i].v != 0 :: arms[i].c
  }

  lemma {:induction false} FirstExists(s: S.State, p: nat, arms: seq<Arm>, i: nat) returns (k: nat)
    requires i < |arms| && IsReady(s, p, arms[i])
    ensures FirstReady(s, p, arms, k) && k <= i
  {
    k := 0;
    while !IsReady(s, p, arms[k])
      invariant k <= i && forall j :: 0 <= j < k ==> !IsReady(s, p, arms[j])
      decreases i - k
    {
      k := k + 1;
    }
  }

  /** After ALTWT, in every state the kernel can be in when the ALTer runs again, the sequence over the
      channels enabled leaves the process offset of the first ready guard in the Temp slot. */
  lemma SweepSelects(m: Mach, s: S.State, p: nat, arms: seq<Arm>, rest: Chain, n: nat)
    returns (r: Mach, left: nat, k: nat)
    requires Rep(m, s) && Inv(s) && s.status == S.Live && s.curp == Some(p) && s.ps[p].phase == S.AtWait(Guarded(arms))
    requires ArmsIn(m, arms) && Load(m, Field(p, TEMP)) == Num(NONE_SELECTED) && n > 22 + 11 * |arms|
    requires forall i :: 0 <= i < |arms| ==> arms[i].c < |s.cs|
    ensures Exec(SweepCode(arms, rest), m, n) == Exec(rest, r, left) && left >= n - 11 * |arms|
    ensures Rep(r, SweepState(s, p, arms)) && k < |arms| && FirstReady(s, p, arms, k)
    ensures Load(r, Field(p, TEMP)) == Get(m, arms[k].off)
  {
    assert PhaseOk(s, p);
    var c: nat :| c in Guarded(arms) && SenderAt(s, c);
    var i :| 0 <= i < |arms| && arms[i].v != 0 && arms[i].c == c;
    k := FirstExists(s, p, arms, i);
    r, left := SweepRuns(m, s, p, arms, k, rest, n);
  }
}
