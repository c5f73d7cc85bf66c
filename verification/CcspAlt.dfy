/** ProcAlt and ProcPriAlt: enable every channel of the list, wait, disable every channel, and return
    the index of the first one found ready. */
module CcspAlt {
  import opened Common
  import opened CcspState
  import opened CcspInv
  import opened CcspSteps
  import opened CcspRuns
  import opened CcspTheorems
  import opened CcspTimers

  /** The disabling loop from the i-th channel on; rdy is the first ready index so far. */
  function Sweep(s: State, p: nat, list: seq<nat>, i: nat, rdy: Option<nat>): (r: (State, Option<nat>))
    requires p < |s.ps| && AllBelow(list, |s.cs|) && i <= |list|
    ensures |r.0.ps| == |s.ps| && |r.0.cs| == |s.cs|
    decreases |list| - i
  {
    if i == |list| then (s, rdy)
    else
      var (t, fired) := DisableChan(s, p, true, list[i]);
      Sweep(t, p, list, i + 1, if fired && rdy == None then Some(i) else rdy)
  }

  /** The enabling loop from the i-th channel on. */
  function EnableAll(s: State, p: nat, list: seq<nat>, i: nat): (t: State)
    requires p < |s.ps| && AllBelow(list, |s.cs|) && i <= |list|
    ensures |t.ps| == |s.ps| && |t.cs| == |s.cs|
    decreases |list| - i
  {
    if i == |list| then s else EnableAll(EnableChan(s, p, true, list[i]).0, p, list, i + 1)
  }

  /** How far t is on the way from s when p has disabled the channels of list before the i-th: only
      p's own record and the words that held p have changed. */
  ghost predicate Swept(s: State, t: State, p: nat, list: seq<nat>, i: nat) {
    && i <= |list| && p < |s.ps| && |t.ps| == |s.ps| && |t.cs| == |s.cs| && AllBelow(list, |s.cs|)
    && t == s.(ps := t.ps, cs := t.cs)
    && (forall q :: 0 <= q < |s.ps| && q != p ==> t.ps[q] == s.ps[q])
    && (forall c :: 0 <= c < |s.cs| ==>
          t.cs[c] == (if c in list[..i] && s.cs[c].word == Some(p) then s.cs[c].(word := None) else s.cs[c]))
    && t.ps[p].ptr == s.ps[p].ptr
    && AltChans(t.ps[p].phase) == AltChans(s.ps[p].phase) - Elems(list[..i])
    && (if i == 0 then t.ps[p].phase == s.ps[p].phase else t.ps[p].phase.InDisable?)
  }

  /** Of the channels before the i-th, rdy is the first that holds a process other than p. */
  ghost predicate FirstHeld(s: State, p: nat, list: seq<nat>, i: nat, rdy: Option<nat>)
    requires AllBelow(list, |s.cs|) && i <= |list|
  {
    match rdy
    case None => forall k :: 0 <= k < i ==> s.cs[list[k]].word == None || s.cs[list[k]].word == Some(p)
    case Some(r) => (r < i && s.cs[list[r]].word.Some? && s.cs[list[r]].word != Some(p)
      && forall k :: 0 <= k < r ==> s.cs[list[k]].word == None || s.cs[list[k]].word == Some(p))
  }

  lemma SweepOne(s: State, t: State, p: nat, list: seq<nat>, i: nat)
    requires Swept(s, t, p, list, i) && i < |list| && (t.ps[p].phase.AtWait? || t.ps[p].phase.InDisable?)
    ensures Swept(s, DisableChan(t, p, true, list[i]).0, p, list, i + 1)
    ensures DisableChan(t, p, true, list[i]).1 <==> (s.cs[list[i]].word.Some? && s.cs[list[i]].word != Some(p))
  {
    assert list[..i + 1] == list[..i] + [list[i]];
    assert Elems(list[..i + 1]) == Elems(list[..i]) + {list[i]};
  }

  lemma {:induction false} SweepDoes(s: State, t: State, p: nat, list: seq<nat>, i: nat, rdy: Option<nat>)
    requires Swept(s, t, p, list, i) && s.ps[p].phase.AtWait? && FirstHeld(s, p, list, i, rdy)
    ensures var (u, r) := Sweep(t, p, list, i, rdy); Swept(s, u, p, list, |list|) && FirstHeld(s, p, list, |list|, r)
    decreases |list| - i
  {
    if i >= |list| {
    } else {
      SweepOne(s, t, p, list, i);
      var (u, fired) := DisableChan(t, p, true, list[i]);
      SweepDoes(s, u, p, list, i + 1, if fired && rdy == None then Some(i) else rdy);
    }
  }

  /** A channel in an ALTer's care has no other reader. */
  lemma EnabledSole(s: State, p: nat, c: nat)
    requires Core(s) && p < |s.ps| && c in AltChans(s.ps[p].phase)
    ensures SoleReader(s, p, c)
  {
    EnabledWord(s, p, c);
    forall q | 0 <= q < |s.ps| && q != p ensures !Reads(s.ps[q].phase, c) { assert PhaseOk(s, q); }
  }

  /** The disabling sequence is made of admissible calls, and so is the AltEnd after it. */
  lemma {:induction false} SweepAdmissible(s: State, p: nat, list: seq<nat>, i: nat, rdy: Option<nat>)
    requires Inv(s) && s.status == Live && s.curp == Some(p) && p < |s.ps| && i <= |list|
    requires s.ps[p].phase.AtWait? || s.ps[p].phase.InDisable?
    requires AltChans(s.ps[p].phase) <= Elems(list[i..]) && AllBelow(list, |s.cs|)
    requires forall k :: i <= k < |list| ==> SoleReader(s, p, list[k])
    ensures var u := Sweep(s, p, list, i, rdy).0; Inv(u) && Guard(u, AltEnd) && u.curp == Some(p)
    decreases |list| - i
  {
    if i >= |list| {
    } else {
      var e := Disc(true, list[i]);
      var (t, fired) := DisableChan(s, p, true, list[i]);
      CallInv(s, e);
      assert list[i..] == [list[i]] + list[i + 1..];
      assert Elems(list[i..]) == {list[i]} + Elems(list[i + 1..]);
      SweepAdmissible(t, p, list, i + 1, if fired && rdy == None then Some(i) else rdy);
    }
  }

  /** The state is as it was, but for the ALTer p itself and for the channel words that held it. */
  ghost predicate OnlyUnhooked(s: State, t: State, p: nat) {
    && |t.ps| == |s.ps| && t == s.(ps := t.ps, cs := t.cs) && |t.cs| == |s.cs|
    && (forall q :: 0 <= q < |s.ps| && q != p ==> t.ps[q] == s.ps[q])
    && (forall c :: 0 <= c < |s.cs| ==> t.cs[c] == if s.cs[c].word == Some(p) then s.cs[c].(word := None) else s.cs[c])
  }

  ghost predicate LeastReady(s: State, list: seq<nat>, rdy: Option<nat>) {
    rdy.Some? && rdy.value < |list| && SenderAt(s, list[rdy.value])
    && forall k :: 0 <= k < rdy.value ==> !SenderAt(s, list[k])
  }

  lemma AltWordsOf(s: State, p: nat, list: seq<nat>)
    requires Core(s) && s.curp == Some(p) && p < |s.ps| && s.ps[p].phase == AtWait(Elems(list))
    requires AllBelow(list, |s.cs|)
    ensures forall k :: 0 <= k < |list| ==> (SoleReader(s, p, list[k])
      && (SenderAt(s, list[k]) <==> (s.cs[list[k]].word.Some? && s.cs[list[k]].word != Some(p))))
    ensures forall c :: 0 <= c < |s.cs| && s.cs[c].word == Some(p) ==> c in list
    ensures exists k :: 0 <= k < |list| && SenderAt(s, list[k])
  {
    assert PhaseOk(s, p);
    forall c | 0 <= c < |s.cs| && s.cs[c].word == Some(p) ensures c in list { assert ChanOk(s, c); }
    forall k | 0 <= k < |list| ensures SoleReader(s, p, list[k])
      && (SenderAt(s, list[k]) <==> (s.cs[list[k]].word.Some? && s.cs[list[k]].word != Some(p)))
    {
      assert list[k] in Elems(list);
      EnabledSole(s, p, list[k]);
    }
    var c: nat :| c in Elems(list) && SenderAt(s, c);
    var k :| 0 <= k < |list| && list[k] == c;
  }

  /** When an ALTer runs again after AltWait, the disabling loop finds a ready guard and returns the
      least index whose channel holds a blocked outputter.  Afterwards no channel word refers to the
      ALTer and nothing else has been touched, so the outputters' data pointers are intact. */
  lemma AltReturns(s: State, p: nat, list: seq<nat>)
    requires Inv(s) && s.status == Live && s.curp == Some(p) && p < |s.ps|
    requires s.ps[p].phase == AtWait(Elems(list)) && AllBelow(list, |s.cs|)
    ensures var (u, rdy) := Sweep(s, p, list, 0, None);
      LeastReady(s, list, rdy) && Inv(AltFinish(u, p)) && OnlyUnhooked(s, AltFinish(u, p), p)
  {
    var (u, rdy) := Sweep(s, p, list, 0, None);
    assert list[..|list|] == list && list[0..] == list;
    AltWordsOf(s, p, list);
    SweepDoes(s, s, p, list, 0, None);
    SweepAdmissible(s, p, list, 0, None);
    CallInv(u, AltEnd);
  }

  /** The enabling loop takes every channel of the list into the ALTer's care. */
  lemma {:induction false} EnableDoes(s: State, p: nat, list: seq<nat>, i: nat)
    requires Inv(s) && s.status == Live && s.curp == Some(p) && p < |s.ps| && AllBelow(list, |s.cs|) && i <= |list|
    requires s.ps[p].phase == InAlt(Elems(list[..i])) && forall k :: i <= k < |list| ==> SoleReader(s, p, list[k])
    ensures var t := EnableAll(s, p, list, i);
      Inv(t) && t.status == Live && t.curp == Some(p) && t.ps[p].phase == InAlt(Elems(list)) && t.timerq == s.timerq
      && forall q :: 0 <= q < |s.ps| && q != p ==> t.ps[q] == s.ps[q]
    decreases |list| - i
  {
    if i < |list| {
      CallInv(s, Enbc(true, list[i]));
      assert list[..i + 1] == list[..i] + [list[i]];
      assert Elems(list[..i + 1]) == Elems(list[..i]) + {list[i]};
      EnableDoes(EnableChan(s, p, true, list[i]).0, p, list, i + 1);
    } else {
      assert list[..i] == list;
    }
  }

  /** The enabling half of ProcAlt, up to AltWait. */
  lemma AltEnables(s: State, p: nat, list: seq<nat>, ts: seq<int>)
    requires Inv(s) && s.curp == Some(p) && p < |s.ps| && CurPhase(s).Plain? && ClocksNear(s, ts)
    requires AllBelow(list, |s.cs|) && forall k :: 0 <= k < |list| ==> SoleReader(s, p, list[k])
    ensures var t := EnableAll(AltStart(s, p), p, list, 0);
      Inv(t) && Guard(t, AltWt(ts)) && t.curp == Some(p) && t.ps[p].phase == InAlt(Elems(list)) && p !in t.timerq
  {
    assert p !in s.timerq;
    CallInv(s, Alt);
    hide Core;
    assert list[..0] == [] && Elems([]) == {};
    EnableDoes(AltStart(s, p), p, list, 0);
  }

  /** ProcAlt and ProcPriAlt up to the point where the ALTer waits: with nothing enabled, an error. */
  ghost function Opens(s: State, p: nat, list: seq<nat>, ts: seq<int>): (t: State)
    requires Inv(s) && s.curp == Some(p) && p < |s.ps| && CurPhase(s).Plain? && ClocksNear(s, ts)
    requires AllBelow(list, |s.cs|) && forall k :: 0 <= k < |list| ==> SoleReader(s, p, list[k])
    ensures Inv(t)
  {
    AltEnables(s, p, list, ts);
    StepInv(EnableAll(AltStart(s, p), p, list, 0), AltWt(ts));
    if list == [] then AltStart(s, p).(status := Error)
    else Step(EnableAll(AltStart(s, p), p, list, 0), AltWt(ts))
  }

  /** It is an error exactly when the list is empty. */
  lemma OpensOrStops(s: State, p: nat, list: seq<nat>, ts: seq<int>)
    requires Inv(s) && s.curp == Some(p) && p < |s.ps| && CurPhase(s).Plain? && ClocksNear(s, ts)
    requires AllBelow(list, |s.cs|) && forall k :: 0 <= k < |list| ==> SoleReader(s, p, list[k])
    ensures Opens(s, p, list, ts).status == Error <==> list == []
  {
    AltEnables(s, p, list, ts);
    var s2 := EnableAll(AltStart(s, p), p, list, 0);
    CallInv(s2, AltWt(ts));
    hide PhaseOk, ChanOk, ParentOk, BufsOk, AltsApart;
    if list != [] && Call(s2, AltWt(ts)).Go? { ScheduleDoes(Call(s2, AltWt(ts)).s, ts); }
  }

  /** After AltWait the ALTer waits with the whole list in its care. */
  lemma OpensWaiting(s: State, p: nat, list: seq<nat>, ts: seq<int>)
    requires Inv(s) && s.curp == Some(p) && p < |s.ps| && CurPhase(s).Plain? && ClocksNear(s, ts)
    requires list != [] && AllBelow(list, |s.cs|) && forall k :: 0 <= k < |list| ==> SoleReader(s, p, list[k])
    ensures var t := Opens(s, p, list, ts);
      |t.ps| == |s.ps| && |t.cs| == |s.cs| && t.ps[p].phase == AtWait(Elems(list))
  {
    AltEnables(s, p, list, ts);
    hide Core;
    var s2 := EnableAll(AltStart(s, p), p, list, 0);
    if Call(s2, AltWt(ts)).Go? { ScheduleTouches(Call(s2, AltWt(ts)).s, ts, p); }
    StepSizes(s2, AltWt(ts));
  }

  /** ProcAlt and ProcPriAlt on channels nobody else reads: whatever the other processes do while the
      ALTer p is descheduled, when it runs again it never reports "no ready guard at end". */
  lemma ProcAltNeverFails(s: State, p: nat, list: seq<nat>, ts: seq<int>, es: seq<Event>)
    requires Inv(s) && s.curp == Some(p) && p < |s.ps| && CurPhase(s).Plain? && ClocksNear(s, ts)
    requires list != [] && AllBelow(list, |s.cs|) && forall k :: 0 <= k < |list| ==> SoleReader(s, p, list[k])
    requires var t := Opens(s, p, list, ts);
      Admissible(t, es) && Silent(t, es, p) && Run(t, es).status == Live && Run(t, es).curp == Some(p)
    ensures var r := Run(Opens(s, p, list, ts), es);
      p < |r.ps| && AllBelow(list, |r.cs|) && var (u, rdy) := Sweep(r, p, list, 0, None);
        LeastReady(r, list, rdy) && Inv(AltFinish(u, p)) && OnlyUnhooked(r, AltFinish(u, p), p)
  {
    OpensWaiting(s, p, list, ts);
    hide Inv, Opens, Run, Sweep, LeastReady, OnlyUnhooked, Admissible, Silent;
    var t := Opens(s, p, list, ts);
    AltSafety(t, es, p, Elems(list));
    RunSizes(t, es);
    AltReturns(Run(t, es), p, list);
  }
}
