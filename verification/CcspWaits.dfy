/** Who waits, and for how long: timer waits against the clock readings, pauses against the run queue, and
    the calls that block their caller. */
module CcspWaits {
  import opened Common
  import opened ClockTime
  import opened CcspState
  import opened CcspInv
  import opened CcspTimers
  import opened CcspRuns
  import opened CcspTheorems

  // ---- the clock ----

  /** The clock readings that the scheduler makes from s before somebody runs or nobody can. */
  function Readings(s: State, ts: seq<int>): (r: seq<int>)
    ensures r <= ts
    decreases |ts|
  {
    if s.timerq == [] || ts == [] then []
    else
      var s1 := ProcessTimers(s, ts[0]);
      if s1.runq == [] && s1.timerq != [] then [ts[0]] + Readings(s1, ts[1..]) else [ts[0]]
  }

  /** Those made in the course of event e. */
  function ReadingsOf(s: State, e: Event): (r: seq<int>)
    requires Inv(s) && Guard(s, e)
    ensures r <= Times(e)
  {
    if Call(s, e).Go? then Readings(Call(s, e).s, Times(e)) else []
  }

  ghost predicate AllUpTo(r: seq<int>, t: int) {
    forall k :: 0 <= k < |r| ==> r[k] <= t
  }

  /** p is on the timer queue for time t, and neither runs nor is queued. */
  ghost predicate Asleep(s: State, p: nat, t: int) {
    && p < |s.ps| && s.ps[p].phase == Sleeping && s.ps[p].due == t && p in s.timerq
    && s.curp != Some(p) && p !in s.runq
  }

  /** p is off the timer queue, and runs or is queued. */
  ghost predicate Awake(s: State, p: nat) {
    p < |s.ps| && s.ps[p].phase == Plain && p !in s.timerq && OnRun(s, p)
  }

  lemma AsleepIs(s: State, p: nat)
    requires Core(s) && p < |s.ps| && s.ps[p].phase == Sleeping
    ensures Asleep(s, p, s.ps[p].due)
  {
    assert PhaseOk(s, p);
  }

  /** One reading: it wakes p exactly when it is later than p's time. */
  lemma ReadingWakes(s: State, now: int, p: nat, t: int)
    requires Core(s) && ClockNear(s, now) && Asleep(s, p, t)
    ensures var u := ProcessTimers(s, now);
      && Core(u) && u.curp == s.curp
      && (now <= t ==> Asleep(u, p, t))
      && (now > t ==> p < |u.ps| && u.ps[p].phase == Plain && p !in u.timerq && p in u.runq)
  {
    ProcessTimersCore(s, now);
    FiresExactly(s, now, p);
    TimersTouch(s, now, p);
    var u := ProcessTimers(s, now);
    assert PhaseOk(u, p);
  }

  lemma NothingFired(s: State, now: int)
    requires Core(s) && ClockNear(s, now) && ProcessTimers(s, now).runq == []
    ensures ProcessTimers(s, now) == s
  {
    ProcessTimersFires(s, now);
    assert s.timerq[..0] == [] && s.timerq[0..] == s.timerq;
  }

  /** A call of the scheduler wakes p exactly when it reads a time later than p's. */
  lemma {:induction false} ScheduleWakes(s: State, ts: seq<int>, p: nat, t: int)
    requires Core(s) && s.curp == None && Asleep(s, p, t) && (ts == [] ==> s.runq == [])
    requires forall k :: 0 <= k < |ts| ==> ClockNear(s, ts[k])
    ensures var u := Schedule(s, ts);
      if AllUpTo(Readings(s, ts), t) then Asleep(u, p, t) else Awake(u, p)
    decreases |ts|
  {
    if ts == [] {
    } else {
      hide Core, ClockNear;
      ReadingWakes(s, ts[0], p, t);
      var s1 := ProcessTimers(s, ts[0]);
      if s1.runq == [] && s1.timerq != [] {
        NothingFired(s, ts[0]);
        ScheduleWakes(s, ts[1..], p, t);
        assert Readings(s, ts)[1..] == Readings(s, ts[1..]);
        assert Readings(s, ts)[0] == ts[0];
      } else {
        assert Readings(s, ts) == [ts[0]];
      }
    }
  }

  // ---- ccsp_tin ----

  /** ccsp_tin returns at once, to its caller, exactly when the time is past; otherwise the caller sleeps
      for that time until the scheduler reads a later one. */
  lemma TinWaits(s: State, e: Event)
    requires Inv(s) && Guard(s, e) && e.Tin?
    ensures var p, u := s.curp.value, Step(s, e);
      if e.now > e.t then u.curp == Some(p) && u.runq == s.runq && u.timerq == s.timerq && u.status == Live
      else if AllUpTo(ReadingsOf(s, e), e.t) then Asleep(u, p, e.t)
      else Awake(u, p)
  {
    var p := s.curp.value;
    TimeAfterIsAfter(e.now, e.t);
    if e.now <= e.t {
      CallInv(s, e);
      var u := Call(s, e).s;
      assert u.ps[p].phase == Sleeping && u.ps[p].due == e.t;
      AsleepIs(u, p);
      TinNear(s, e);
      ScheduleWakes(u, e.ts, p, e.t);
    }
  }

  /** The clock readings are near the new time as well. */
  lemma TinNear(s: State, e: Event)
    requires Inv(s) && Guard(s, e) && e.Tin? && Call(s, e).Go?
    ensures forall k :: 0 <= k < |e.ts| ==> ClockNear(Call(s, e).s, e.ts[k])
  {
    var p, u := s.curp.value, Call(s, e).s;
    forall k, i | 0 <= k < |e.ts| && 0 <= i < |u.timerq| && u.timerq[i] < |u.ps|
      ensures Near(e.ts[k], u.ps[u.timerq[i]].due)
    {
      assert ClockNear(s, e.ts[k]);
      assert u.timerq[i] == p || u.timerq[i] in s.timerq;
    }
  }

  // ---- a sleeper and the others ----

  /** A kernel function leaves the processes on the timer queue there, and as they are. */
  ghost predicate Undisturbed(s: State, u: State, p: nat) {
    && |u.ps| == |s.ps| && p < |s.ps| && u.ps[p] == s.ps[p] && (p in u.timerq <==> p in s.timerq)
    && (p in u.runq <==> p in s.runq) && (u.curp == s.curp || u.curp == None)
  }

  lemma TransferLeaves(s: State, e: Event, p: nat)
    requires Inv(s) && Guard(s, e) && (e.Out? || e.In?) && p < |s.ps| && s.ps[p].phase == Sleeping
    ensures Undisturbed(s, Call(s, e).s, p)
  {
    assert ChanOk(s, e.c) && PhaseOk(s, p);
    if s.cs[e.c].word.Some? { assert PhaseOk(s, s.cs[e.c].word.value); }
    hide PhaseOk, ChanOk, ParentOk, QueuesOk, BufsOk, AltsApart;
  }

  lemma ParLeaves(s: State, e: Event, p: nat)
    requires Inv(s) && Guard(s, e) && e.Par? && p < |s.ps| && s.ps[p].phase == Sleeping
    ensures Undisturbed(s, Call(s, e).s, p)
  {
    var cur := s.curp.value;
    StartKidsDoes(s.(ps := s.ps[cur := s.ps[cur].(count := |e.kids|)]), cur, e.kids);
  }

  lemma EndLeaves(s: State, e: Event, p: nat)
    requires Inv(s) && Guard(s, e) && e.End? && p < |s.ps| && s.ps[p].phase == Sleeping
    ensures Undisturbed(s, Call(s, e).s, p)
  {
    assert ParentOk(s, s.curp.value) && PhaseOk(s, p);
  }

  lemma RestLeaves(s: State, e: Event, p: nat)
    requires Inv(s) && Guard(s, e) && p < |s.ps| && s.ps[p].phase == Sleeping
    requires !e.Out? && !e.In? && !e.Par? && !e.End?
    ensures Undisturbed(s, Call(s, e).s, p)
  {
    hide ChanOk, ParentOk, BufsOk, AltsApart;
    assert PhaseOk(s, p);
  }

  lemma CallLeaves(s: State, e: Event, p: nat)
    requires Inv(s) && Guard(s, e) && p < |s.ps| && s.ps[p].phase == Sleeping
    ensures Undisturbed(s, Call(s, e).s, p)
  {
    if e.Out? || e.In? { TransferLeaves(s, e, p); }
    else if e.Par? { ParLeaves(s, e, p); }
    else if e.End? { EndLeaves(s, e, p); }
    else { RestLeaves(s, e, p); }
  }

  /** The clock readings of a call are near all times on the timer queue it leaves. */
  lemma CallNear(s: State, e: Event)
    requires Inv(s) && Guard(s, e) && Call(s, e).Go?
    ensures Times(e) != [] && forall k :: 0 <= k < |Times(e)| ==> ClockNear(Call(s, e).s, Times(e)[k])
  {
    var u, ts := Call(s, e).s, Times(e);
    if e.Tin? { TinNear(s, e); return; }
    forall k, i | 0 <= k < |ts| && 0 <= i < |u.timerq| && u.timerq[i] < |u.ps|
      ensures Near(ts[k], u.ps[u.timerq[i]].due)
    {
      assert ClockNear(s, ts[k]);
      NobodyElse(s, e, i);
      CallLeaves(s, e, u.timerq[i]);
    }
  }

  /** Only ccsp_tin puts anybody on the timer queue. */
  lemma NobodyElse(s: State, e: Event, i: nat)
    requires Inv(s) && Guard(s, e) && !e.Tin? && i < |Call(s, e).s.timerq|
    ensures Call(s, e).s.timerq == s.timerq && s.timerq[i] < |s.ps| && s.ps[s.timerq[i]].phase == Sleeping
  {
    hide PhaseOk, ChanOk, ParentOk, BufsOk, AltsApart;
    if e.Par? {
      var cur := s.curp.value;
      StartKidsDoes(s.(ps := s.ps[cur := s.ps[cur].(count := |e.kids|)]), cur, e.kids);
    }
  }

  /** While a process sleeps, one more event wakes it exactly when a time later than its own is read. */
  lemma SleepStep(s: State, e: Event, p: nat, t: int)
    requires Inv(s) && Guard(s, e) && Asleep(s, p, t)
    ensures if AllUpTo(ReadingsOf(s, e), t) then Asleep(Step(s, e), p, t) else Awake(Step(s, e), p)
  {
    CallLeaves(s, e, p);
    if Call(s, e).Go? {
      CallInv(s, e);
      CallNear(s, e);
      ScheduleWakes(Call(s, e).s, Times(e), p, t);
    }
  }

  /** Event after event: p sleeps as long as no time later than t is read, and is awake after the first
      event in which one is. */
  ghost predicate SleepsUntil(s: State, es: seq<Event>, p: nat, t: int)
    requires Inv(s) && Admissible(s, es)
    decreases |es|
  {
    Asleep(s, p, t) &&
    (es == [] ||
      (StepInv(s, es[0]);
       if AllUpTo(ReadingsOf(s, es[0]), t) then SleepsUntil(Step(s, es[0]), es[1..], p, t)
       else Awake(Step(s, es[0]), p)))
  }

  /** Over every run: a sleeper sleeps until the scheduler reads a time later than its own, however long
      that takes and whatever the others do, and is then on the run queue or running. */
  lemma {:induction false} SleepRun(s: State, es: seq<Event>, p: nat, t: int)
    requires Inv(s) && Admissible(s, es) && Asleep(s, p, t)
    ensures SleepsUntil(s, es, p, t)
    decreases |es|
  {
    if es == [] {
    } else {
      hide Asleep, Awake, AllUpTo, Guard;
      StepInv(s, es[0]);
      SleepStep(s, es[0], p, t);
      if AllUpTo(ReadingsOf(s, es[0]), t) { SleepRun(Step(s, es[0]), es[1..], p, t); }
    }
  }

  /** From the call of ccsp_tin on: unless the time is past already, the caller sleeps until a later time
      is read. */
  lemma TinRun(s: State, e: Event, es: seq<Event>)
    requires Inv(s) && e.Tin? && Admissible(s, [e] + es) && e.now <= e.t
    requires AllUpTo(ReadingsOf(s, e), e.t)
    ensures Inv(Step(s, e)) && Admissible(Step(s, e), es) && SleepsUntil(Step(s, e), es, s.curp.value, e.t)
  {
    StepInv(s, e);
    ConsParts(e, es);
    TinWaits(s, e);
    SleepRun(Step(s, e), es, s.curp.value, e.t);
  }

  // ---- ccsp_pause, and the run queue ----

  /** ccsp_pause: the caller goes behind everybody on the run queue, and the first of them runs. */
  lemma PauseYields(s: State, e: Event)
    requires Inv(s) && Guard(s, e) && e.Pause?
    ensures var q, u := s.runq + [s.curp.value], Step(s, e);
      u.status == Live && u.curp == Some(q[0]) && q[1..] <= u.runq && (s.timerq == [] ==> u.runq == q[1..])
  {
    var u := Call(s, e).s;
    var q := s.runq + [s.curp.value];
    if s.timerq != [] {
      ProcessTimersGrows(u, e.ts[0]);
      HeadTail(q, ProcessTimers(u, e.ts[0]).runq);
    }
  }

  lemma HeadTail(q: seq<nat>, r: seq<nat>)
    requires q != [] && q <= r
    ensures r[0] == q[0] && q[1..] <= r[1..]
  {
    assert q[0] == r[..|q|][0];
    assert r[1..][..|q| - 1] == r[..|q|][1..];
  }

  /** Whether e gives up the processor: a pause, or any call that ends in the scheduler. */
  ghost predicate Yields(s: State, e: Event)
    requires Inv(s) && Guard(s, e)
  {
    e.Pause? || Call(s, e).Go?
  }

  ghost function Yieldings(s: State, es: seq<Event>): nat
    requires Inv(s) && Admissible(s, es)
    decreases |es|
  {
    if es == [] then 0
    else StepInv(s, es[0]); (if Yields(s, es[0]) then 1 else 0) + Yieldings(Step(s, es[0]), es[1..])
  }

  /** Giving up the processor starts the head of the run queue, and nothing else does. */
  lemma YieldStarts(s: State, e: Event)
    requires Inv(s) && Guard(s, e) && s.runq != []
    ensures var n, u := StepNext(s, e), Step(s, e);
      if Yields(s, e) then n == [s.runq[0]] && s.runq[1..] <= u.runq else n == [] && s.runq <= u.runq
  {
    CallQueue(s, e);
    var u := Call(s, e).s;
    if e.Pause? { PauseYields(s, e); }
    if Call(s, e).Go? {
      HeadTail(s.runq, u.runq);
      CallNear(s, e);
      StartsHead(u, Times(e));
      HeadTail(s.runq, (Next(Schedule(u, Times(e))) + Schedule(u, Times(e)).runq));
    }
  }

  lemma StartsHead(s: State, ts: seq<int>)
    requires s.runq != [] && ts != []
    ensures var u := Schedule(s, ts); Next(u) == [s.runq[0]] && s.runq <= [s.runq[0]] + u.runq
  {
    if s.timerq != [] {
      ProcessTimersGrows(s, ts[0]);
      HeadTail(s.runq, ProcessTimers(s, ts[0]).runq);
    }
  }

  lemma RunNext(s: State, es: seq<Event>)
    requires Inv(s) && Admissible(s, es) && es != []
    ensures var u := Step(s, es[0]);
      && Guard(s, es[0]) && Inv(u) && Admissible(u, es[1..])
      && Started(s, es) == StepNext(s, es[0]) + Started(u, es[1..])
      && Yieldings(s, es) == (if Yields(s, es[0]) then 1 else 0) + Yieldings(u, es[1..])
  {
    StepInv(s, es[0]);
  }

  lemma SameFirst(q: seq<nat>, r: seq<nat>, started: seq<nat>, k: nat)
    requires k <= |q| && q <= r && r[..k] <= started
    ensures q[..k] <= [] + started
  {
    assert q[..k] == r[..k];
    assert [] + started == started;
  }

  lemma HeadFirst(q: seq<nat>, r: seq<nat>, started: seq<nat>, k: nat)
    requires k < |q| && q[1..] <= r && (k > 0 ==> r[..k] <= started)
    ensures q[..k + 1] <= [q[0]] + started
  {
    assert q[..k + 1] == [q[0]] + q[1..][..k];
    assert q[1..][..k] == r[..k];
  }

  /** No process is passed over: the process at place i of the run queue has been started once the
      processor has been given up i + 1 times, and those before it have, in order. */
  lemma {:induction false} Fairness(s: State, es: seq<Event>, i: nat)
    requires Inv(s) && Admissible(s, es) && i < |s.runq| && i < Yieldings(s, es)
    ensures s.runq[..i + 1] <= Started(s, es)
    decreases |es|
  {
    assert es != [];
    RunNext(s, es);
    hide *;
    var u := Step(s, es[0]);
    YieldStarts(s, es[0]);
    if !Yields(s, es[0]) {
      Fairness(u, es[1..], i);
      SameFirst(s.runq, u.runq, Started(u, es[1..]), i + 1);
    } else {
      if i > 0 { Fairness(u, es[1..], i - 1); }
      HeadFirst(s.runq, u.runq, Started(u, es[1..]), i);
    }
  }

  // ---- calls that block their caller ----

  /** p has been taken off the processor and is on no queue. */
  ghost predicate Blocked(s: State, p: nat, ph: Phase) {
    p < |s.ps| && s.ps[p].phase == ph && !OnRun(s, p) && p !in s.timerq
  }

  /** A process that only another process can set going again. */
  ghost predicate Stopped(x: Proc) {
    x.phase.Sending? || x.phase.Receiving? || x.phase.Off? || x.phase.Joining? || (x.phase.AtWait? && x.ptr == Waiting)
  }

  lemma StoppedIs(s: State, p: nat)
    requires Core(s) && p < |s.ps| && Stopped(s.ps[p])
    ensures Blocked(s, p, s.ps[p].phase)
  {
    assert PhaseOk(s, p);
  }

  lemma {:induction false} ScheduleWorks(s: State, ts: seq<int>)
    ensures Working(Schedule(s, ts))
    decreases |ts|
  {
    if s.timerq != [] && ts == [] {
    } else {
      var s1 := if s.timerq != [] then ProcessTimers(s, ts[0]) else s;
      if s1.runq == [] && s1.timerq != [] { ScheduleWorks(s1, ts[1..]); }
    }
  }

  /** The scheduler does not touch a process that has stopped. */
  lemma StaysBlocked(s: State, ts: seq<int>, p: nat)
    requires Core(s) && s.curp == None && p < |s.ps| && Stopped(s.ps[p]) && ts != []
    ensures var u := Schedule(s, ts); Blocked(u, p, s.ps[p].phase) && u.cs == s.cs && u.mem == s.mem
  {
    hide PhaseOk, ParentOk, ChanOk, BufsOk, AltsApart;
    StoppedIs(s, p);
    ScheduleTouches(s, ts, p);
    ScheduleInv(s, ts);
    ScheduleWorks(s, ts);
    StoppedIs(Schedule(s, ts), p);
  }

  /** ccsp_chanin goes straight on, with the message, when a process is in the channel, which is then free
      and the process queued; otherwise the caller waits in the channel. */
  lemma InWaits(s: State, e: Event)
    requires Inv(s) && Guard(s, e) && e.In?
    ensures var p, u, w := s.curp.value, Step(s, e), s.cs[e.c].word;
      e.c < |u.cs| &&
      if w.Some? then
        w.value < |s.ps| && s.ps[w.value].phase.Sending? && u.curp == Some(p) && u.status == Live
        && u.runq == s.runq + [w.value] && u.cs[e.c].word == None
        && Content(u, e.buf, e.n) == Content(s, s.ps[w.value].phase.buf, e.n)
      else Blocked(u, p, Receiving(e.c, e.buf, e.n)) && u.cs[e.c].word == Some(p)
  {
    var p, w := s.curp.value, s.cs[e.c].word;
    assert ChanOk(s, e.c);
    if w.Some? {
      assert PhaseOk(s, w.value);
    } else {
      CallInv(s, e);
      StaysBlocked(Call(s, e).s, e.ts, p);
    }
  }

  /** ccsp_chanout goes straight on when the reader waits in the channel, and the message is in its buffer
      then; otherwise the caller waits in the channel. */
  lemma OutWaits(s: State, e: Event)
    requires Inv(s) && Guard(s, e) && e.Out?
    ensures var p, u, w := s.curp.value, Step(s, e), s.cs[e.c].word;
      e.c < |u.cs| &&
      if w.Some? && w.value < |s.ps| && s.ps[w.value].phase.Receiving? then
        u.curp == Some(p) && u.status == Live && u.runq == s.runq + [w.value] && u.cs[e.c].word == None
        && Content(u, s.ps[w.value].phase.buf, e.n) == Content(s, e.buf, e.n)
      else Blocked(u, p, Sending(e.c, e.buf, e.n)) && u.cs[e.c].word == Some(p)
  {
    var p, w := s.curp.value, s.cs[e.c].word;
    assert ChanOk(s, e.c);
    if w.Some? { assert PhaseOk(s, w.value); }
    if w.None? || !s.ps[w.value].phase.Receiving? {
      CallInv(s, e);
      StaysBlocked(Call(s, e).s, e.ts, p);
    }
  }

  /** ccsp_altwt goes straight on when a channel was ready, and waits otherwise. */
  lemma AltWaits(s: State, e: Event)
    requires Inv(s) && Guard(s, e) && e.AltWt?
    ensures var p, u, chans := s.curp.value, Step(s, e), AltChans(s.ps[s.curp.value].phase);
      if SomeSender(s, chans) then u.curp == Some(p) && u.status == Live && u.runq == s.runq && u.cs == s.cs
      else Blocked(u, p, AtWait(chans)) && u.cs == s.cs
  {
    var p := s.curp.value;
    assert PhaseOk(s, p);
    if Call(s, e).Go? {
      CallInv(s, e);
      StaysBlocked(Call(s, e).s, e.ts, p);
    }
  }

  /** A process that ends is on no queue, and the one whose barrier it ends on is told. */
  lemma EndStops(s: State, e: Event)
    requires Inv(s) && Guard(s, e) && e.End?
    ensures var p, u := s.curp.value, Step(s, e);
      if s.ps[p].parent.Some? then Blocked(u, p, Off) else u.status == Error
  {
    var p := s.curp.value;
    assert ParentOk(s, p);
    if s.ps[p].parent.Some? {
      assert PhaseOk(s, s.ps[p].parent.value);
      CallInv(s, e);
      StaysBlocked(Call(s, e).s, e.ts, p);
    }
  }
}
