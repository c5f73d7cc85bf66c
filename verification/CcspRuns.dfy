/** The remaining kernel calls, and the invariant over whole runs. */
module CcspRuns {
  import opened Common
  import opened ClockTime
  import opened CcspState
  import opened CcspInv
  import opened CcspSteps

  // ---- pause, user writes ----

  lemma PauseInv(s: State, e: Event)
    requires Inv(s) && Guard(s, e) && e.Pause?
    ensures OutcomeOk(Call(s, e))
  {
    var t := Call(s, e).s;
    NoDupSnoc(s.runq, s.curp.value);
    forall r | 0 <= r < |t.ps| ensures PhaseOk(t, r) { assert PhaseOk(s, r); }
    forall r | 0 <= r < |t.ps| ensures ParentOk(t, r) { assert ParentOk(s, r); }
    forall d | 0 <= d < |t.cs| ensures ChanOk(t, d) { assert ChanOk(s, d); }
  }

  lemma PokeInv(s: State, e: Event)
    requires Inv(s) && Guard(s, e) && e.Poke?
    ensures OutcomeOk(Call(s, e))
  {
    var t := Call(s, e).s;
    forall r | 0 <= r < |t.ps| ensures PhaseOk(t, r) {
      assert PhaseOk(s, r);
      assert Same(s, t, r);
      FramePhase(s, t, r);
    }
    forall r | 0 <= r < |t.ps| ensures ParentOk(t, r) { assert ParentOk(s, r); }
    forall d | 0 <= d < |t.cs| ensures ChanOk(t, d) { assert ChanOk(s, d); }
  }

  // ---- timers ----

  /** Everything the walk passes is strictly earlier than p, and what it stops in front of is not. */
  lemma {:induction false} WalkSplits(s: State, q: seq<nat>, p: nat, i: nat)
    requires p < |s.ps| && AllBelow(q, |s.ps|) && i < |q|
    requires forall k :: 0 <= k < |q| ==> Near(s.ps[p].due, s.ps[q[k]].due)
    ensures var w := WalkTo(s, q, p, i);
      (forall k :: i < k <= w ==> s.ps[q[k]].due < s.ps[p].due)
      && (w + 1 < |q| ==> s.ps[p].due <= s.ps[q[w + 1]].due)
    decreases |q| - i
  {
    if i + 1 >= |q| {
    } else {
      TimeAfterIsAfter(s.ps[p].due, s.ps[q[i + 1]].due);
      if s.ps[q[i + 1]].due < s.ps[p].due { WalkSplits(s, q, p, i + 1); }
    }
  }

  /** In a queue in true-time order, every process before the slot is no later than p and every one
      behind it is no earlier. */
  lemma SlotSplits(s: State, q: seq<nat>, p: nat)
    requires p < |s.ps| && AllBelow(q, |s.ps|)
    requires forall k :: 0 <= k < |q| ==> Near(s.ps[p].due, s.ps[q[k]].due)
    requires forall i, j :: 0 <= i < j < |q| ==> s.ps[q[i]].due <= s.ps[q[j]].due
    ensures var k := TimerSlot(s, q, p);
      (forall i :: 0 <= i < k ==> s.ps[q[i]].due <= s.ps[p].due)
      && (forall i :: k <= i < |q| ==> s.ps[p].due <= s.ps[q[i]].due)
  {
    if q != [] {
      TimeAfterIsAfter(s.ps[q[0]].due, s.ps[p].due);
      WalkSplits(s, q, p, 0);
    }
  }

  /** What Tin changes when the process has to sleep. */
  ghost predicate Sleeps(s: State, u: State, p: nat, t: int, k: nat) {
    && p < |s.ps| && |u.ps| == |s.ps| && u.cs == s.cs && u.mem == s.mem && u.runq == s.runq && u.curp == None
    && k <= |s.timerq| && u.timerq == s.timerq[..k] + [p] + s.timerq[k..]
    && u.ps[p] == s.ps[p].(due := t, phase := Sleeping)
    && (forall r :: 0 <= r < |s.ps| && r != p ==> u.ps[r] == s.ps[r])
  }

  lemma SleepQueues(s: State, u: State, p: nat, t: int, k: nat)
    requires Core(s) && s.curp == Some(p) && CurPhase(s.(status := Live)).Plain? && Sleeps(s, u, p, t, k)
    requires forall i :: 0 <= i < k ==> s.ps[s.timerq[i]].due <= t
    requires forall i :: k <= i < |s.timerq| ==> t <= s.ps[s.timerq[i]].due
    ensures QueuesOk(u)
  {
    hide ChanOk, ParentOk, BufsOk, AltsApart;
    var q, r := s.timerq, u.timerq;
    forall i | 0 <= i < |r| ensures r[i] == (if i < k then q[i] else if i == k then p else q[i - 1]) {}
    assert p !in q;
    assert NoDup(r);
  }

  lemma SleepPhases(s: State, u: State, p: nat, t: int, k: nat, r: nat)
    requires Core(s) && s.curp == Some(p) && CurPhase(s.(status := Live)).Plain? && Sleeps(s, u, p, t, k) && r < |s.ps|
    ensures PhaseOk(u, r)
  {
    assert PhaseOk(s, r);
    hide ParentOk, ChanOk, BufsOk, AltsApart;
    assert forall x :: x in s.timerq ==> x in u.timerq by { assert s.timerq == s.timerq[..k] + s.timerq[k..]; }
    if r != p {
      assert Same(s, u, r);
      FramePhase(s, u, r);
    }
  }

  lemma SleepCore(s: State, u: State, p: nat, t: int, k: nat)
    requires Core(s) && s.curp == Some(p) && CurPhase(s.(status := Live)).Plain? && Sleeps(s, u, p, t, k)
    requires forall i :: 0 <= i < k ==> s.ps[s.timerq[i]].due <= t
    requires forall i :: k <= i < |s.timerq| ==> t <= s.ps[s.timerq[i]].due
    ensures Core(u)
  {
    SleepQueues(s, u, p, t, k);
    FrameApart(s, u);
    forall r | 0 <= r < |u.ps| ensures PhaseOk(u, r) { SleepPhases(s, u, p, t, k, r); }
    hide PhaseOk;
    forall r | 0 <= r < |u.ps| ensures ParentOk(u, r) { assert ParentOk(s, r); }
    forall d | 0 <= d < |u.cs| ensures ChanOk(u, d) { assert ChanOk(s, d); }
  }

  lemma TinInv(s: State, e: Event)
    requires Inv(s) && Guard(s, e) && e.Tin?
    ensures OutcomeOk(Call(s, e))
  {
    var p := s.curp.value;
    var s0 := s.(ps := s.ps[p := s.ps[p].(due := e.t)]);
    if TimeAfter(Low32(e.now), Low32(e.t)) {
      assert PhaseOk(s, p);
      RetouchCore(s, s0, p, |s.cs|);
    } else {
      SlotSplits(s0, s.timerq, p);
      SleepCore(s, Call(s, e).s, p, e.t, TimerSlot(s0, s.timerq, p));
    }
  }

  // ---- processes ----

  lemma {:induction false} StartKidsDoes(s: State, p: nat, kids: seq<nat>)
    requires AllBelow(kids, |s.ps|) && NoDup(kids)
    ensures var t := StartKids(s, p, kids);
      && t == s.(runq := s.runq + kids, ps := t.ps)
      && (forall k: nat :: k in kids ==> t.ps[k] == s.ps[k].(parent := Some(p), phase := Plain))
      && (forall k :: 0 <= k < |s.ps| && k !in kids ==> t.ps[k] == s.ps[k])
    decreases |kids|
  {
    if kids == [] {
      assert s.runq + kids == s.runq;
    } else {
      var front, last := kids[..|kids| - 1], kids[|kids| - 1];
      StartKidsDoes(s, p, front);
      assert kids == front + [last];
      assert s.runq + kids == s.runq + front + [last];
    }
  }

  lemma {:induction false} KidsCount(kids: seq<nat>)
    requires NoDup(kids)
    ensures |Elems(kids)| == |kids|
    decreases |kids|
  {
    if kids == [] {
    } else {
      var front, last := kids[..|kids| - 1], kids[|kids| - 1];
      KidsCount(front);
      assert last !in front;
      assert kids == front + [last];
      assert Elems(kids) == Elems(front) + {last};
    }
  }

  /** What ProcPar changes when there are children. */
  ghost predicate Forks(s: State, t: State, p: nat, kids: seq<nat>) {
    && p < |s.ps| && |t.ps| == |s.ps| && t.cs == s.cs && t.mem == s.mem && t.timerq == s.timerq
    && t.curp == None && t.runq == s.runq + kids && p !in kids
    && t.ps[p] == s.ps[p].(count := |kids|, phase := Joining(Elems(kids)))
    && (forall k: nat :: k in kids ==> k < |s.ps| && t.ps[k] == s.ps[k].(parent := Some(p), phase := Plain))
    && (forall k :: 0 <= k < |s.ps| && k != p && k !in kids ==> t.ps[k] == s.ps[k])
  }

  ghost predicate MayFork(s: State, p: nat, kids: seq<nat>) {
    && Core(s) && s.curp == Some(p) && p < |s.ps| && s.ps[p].phase.Plain? && NoDup(kids) && kids != []
    && (forall k: nat :: k in kids ==> k < |s.ps| && s.ps[k].phase == Off)
  }

  lemma ForkQueues(s: State, t: State, p: nat, kids: seq<nat>)
    requires MayFork(s, p, kids) && Forks(s, t, p, kids)
    ensures QueuesOk(t)
  {
    forall i | 0 <= i < |t.runq|
      ensures t.runq[i] < |t.ps| && Queued(t.ps[t.runq[i]].phase)
      ensures t.runq[i] == if i < |s.runq| then s.runq[i] else kids[i - |s.runq|]
    {
      if i >= |s.runq| { assert kids[i - |s.runq|] in kids; } else { assert s.runq[i] in s.runq; }
    }
  }

  lemma ForkPhases(s: State, t: State, p: nat, kids: seq<nat>, r: nat)
    requires MayFork(s, p, kids) && Forks(s, t, p, kids) && r < |s.ps|
    ensures PhaseOk(t, r)
  {
    assert PhaseOk(s, r);
    if r == p {
      KidsCount(kids);
      assert kids[0] in Elems(kids);
    } else if r !in kids {
      assert Same(s, t, r);
      FramePhase(s, t, r);
    }
  }

  lemma ForkCore(s: State, t: State, p: nat, kids: seq<nat>)
    requires MayFork(s, p, kids) && Forks(s, t, p, kids)
    ensures Core(t)
  {
    ForkQueues(s, t, p, kids);
    forall r | 0 <= r < |t.ps| ensures PhaseOk(t, r) { ForkPhases(s, t, p, kids, r); }
    forall r | 0 <= r < |t.ps| ensures ParentOk(t, r) { assert ParentOk(s, r); }
    forall d | 0 <= d < |t.cs| ensures ChanOk(t, d) { assert ChanOk(s, d); }
  }

  lemma ParInv(s: State, e: Event)
    requires Inv(s) && Guard(s, e) && e.Par?
    ensures OutcomeOk(Call(s, e))
  {
    var p := s.curp.value;
    var s0 := s.(ps := s.ps[p := s.ps[p].(count := |e.kids|)]);
    StartKidsDoes(s0, p, e.kids);
    if e.kids == [] {
      assert PhaseOk(s, p);
      RetouchCore(s, s0, p, |s.cs|);
    } else {
      assert Forks(s, Call(s, e).s, p, e.kids);
      ForkCore(s, Call(s, e).s, p, e.kids);
    }
  }

  /** What changes when child p of q ends. */
  ghost predicate Joins(s: State, t: State, p: nat, q: nat) {
    && p < |s.ps| && q < |s.ps| && p != q && |t.ps| == |s.ps| && t.cs == s.cs && t.mem == s.mem && t.timerq == s.timerq
    && t.curp == None && t.ps[p] == s.ps[p].(phase := Off) && s.ps[q].phase.Joining?
    && t.runq == (if s.ps[q].count == 1 then s.runq + [q] else s.runq)
    && t.ps[q] == s.ps[q].(count := s.ps[q].count - 1,
         phase := if s.ps[q].count == 1 then Plain else Joining(s.ps[q].phase.kids - {p}))
    && (forall k :: 0 <= k < |s.ps| && k != p && k != q ==> t.ps[k] == s.ps[k])
  }

  lemma JoinOthers(s: State, t: State, p: nat, q: nat, r: nat)
    requires Core(s) && s.curp == Some(p) && p < |s.ps| && s.ps[p].phase.Plain? && s.ps[p].parent == Some(q)
    requires Joins(s, t, p, q) && r < |s.ps| && r != p && r != q
    ensures PhaseOk(t, r)
  {
    assert PhaseOk(s, r);
    assert Same(s, t, r);
    FramePhase(s, t, r);
  }

  lemma JoinParentPhase(s: State, t: State, p: nat, q: nat)
    requires Core(s) && s.curp == Some(p) && p < |s.ps| && s.ps[p].phase.Plain? && s.ps[p].parent == Some(q)
    requires Joins(s, t, p, q)
    ensures PhaseOk(t, q)
  {
    assert PhaseOk(s, q) && ParentOk(s, p);
    var kids := s.ps[q].phase.kids;
    assert |kids - {p}| == |kids| - 1;
  }

  lemma JoinQueues(s: State, t: State, p: nat, q: nat)
    requires Core(s) && s.curp == Some(p) && p < |s.ps| && s.ps[p].phase.Plain? && s.ps[p].parent == Some(q)
    requires Joins(s, t, p, q)
    ensures QueuesOk(t)
  {
    assert PhaseOk(s, q) && ParentOk(s, p);
  }

  lemma JoinCore(s: State, t: State, p: nat, q: nat)
    requires Core(s) && s.curp == Some(p) && p < |s.ps| && s.ps[p].phase.Plain? && s.ps[p].parent == Some(q)
    requires Joins(s, t, p, q)
    ensures Core(t)
  {
    JoinQueues(s, t, p, q);
    FrameApart(s, t);
    forall r | 0 <= r < |t.ps| ensures PhaseOk(t, r) {
      if r == q { JoinParentPhase(s, t, p, q); } else if r != p { JoinOthers(s, t, p, q, r); }
    }
    forall r | 0 <= r < |t.ps| ensures ParentOk(t, r) { JoinParents(s, t, p, q, r); }
    forall d | 0 <= d < |t.cs| ensures ChanOk(t, d) { assert ChanOk(s, d); }
  }

  lemma JoinParents(s: State, t: State, p: nat, q: nat, r: nat)
    requires Core(s) && s.curp == Some(p) && p < |s.ps| && s.ps[p].phase.Plain? && s.ps[p].parent == Some(q)
    requires Joins(s, t, p, q) && r < |s.ps|
    ensures ParentOk(t, r)
  {
    assert PhaseOk(s, q) && ParentOk(s, p) && ParentOk(s, r);
    if s.ps[q].count == 1 && r != p && !s.ps[r].phase.Off? && s.ps[r].parent == Some(q) {
      OneLeft(s.ps[q].phase.kids, p, r);
    }
  }

  lemma OneLeft(kids: set<nat>, p: nat, r: nat)
    requires |kids| == 1 && p in kids && r in kids
    ensures p == r
  {
    assert |kids - {p}| == 0;
    assert kids - {p} == {};
  }

  lemma EndInv(s: State, e: Event)
    requires Inv(s) && Guard(s, e) && e.End?
    ensures OutcomeOk(Call(s, e))
  {
    var p := s.curp.value;
    assert ParentOk(s, p);
    if s.ps[p].parent.Some? {
      var q := s.ps[p].parent.value;
      assert PhaseOk(s, q);
      assert Joins(s, Call(s, e).s, p, q);
      JoinCore(s, Call(s, e).s, p, q);
    }
  }

  // ---- runs ----

  lemma CallInv(s: State, e: Event)
    requires Inv(s) && Guard(s, e)
    ensures OutcomeOk(Call(s, e))
  {
    match e
    case Wake(_) =>
    case Out(_, _, _, _) => OutInv(s, e);
    case In(_, _, _, _) => InInv(s, e);
    case Pause(_) => PauseInv(s, e);
    case Tin(_, _, _) => TinInv(s, e);
    case Alt => AltInv(s, e);
    case Enbc(_, _) => EnbcInv(s, e);
    case AltWt(_) => AltWtInv(s, e);
    case Disc(_, _) => DiscInv(s, e);
    case AltEnd => AltInv(s, e);
    case Par(_, _) => ParInv(s, e);
    case End(_) => EndInv(s, e);
    case Shutdown =>
    case Poke(_, _) => PokeInv(s, e);
  }

  /** Every kernel call and every waking of an idle scheduler keeps the invariant. */
  lemma StepInv(s: State, e: Event)
    requires Inv(s) && Guard(s, e)
    ensures Inv(Step(s, e))
  {
    CallInv(s, e);
    if Call(s, e).Go? {
      assert Times(e) != [];
      ScheduleInv(Call(s, e).s, Times(e));
    }
  }

  /** The calls es can be made one after the other from s, each under its guard. */
  ghost predicate Admissible(s: State, es: seq<Event>)
    requires Inv(s)
    decreases |es|
  {
    es == [] || (Guard(s, es[0]) && (StepInv(s, es[0]); Admissible(Step(s, es[0]), es[1..])))
  }

  ghost function Run(s: State, es: seq<Event>): (t: State)
    requires Inv(s) && Admissible(s, es)
    ensures Inv(t)
    decreases |es|
  {
    if es == [] then s else StepInv(s, es[0]); Run(Step(s, es[0]), es[1..])
  }
}
