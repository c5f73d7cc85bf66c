/** What the invariant means: one place per process, rendezvous, first-in first-out scheduling,
    deadlock, alternatives and barriers, over whole runs. */
module CcspTheorems {
  import opened Common
  import opened ClockTime
  import opened CcspState
  import opened CcspInv
  import opened CcspSteps
  import opened CcspTimers
  import opened CcspRuns

  // ---- the starting state ----

  /** After ccsp_first: process 0 is on the run queue, all other descriptors are blank, all channel
      words initialised. */
  ghost predicate Start(s: State) {
    && s.status == Live && s.curp == Some(0) && s.runq == [] && s.timerq == [] && |s.ps| > 0
    && (forall p :: 0 <= p < |s.ps| ==>
          s.ps[p].phase == (if p == 0 then Plain else Off) && s.ps[p].parent == None && s.ps[p].ptr == Null)
    && (forall c :: 0 <= c < |s.cs| ==> s.cs[c] == Chan(None, [], []))
  }

  lemma StartInv(s: State)
    requires Start(s)
    ensures Inv(s)
  {
    forall p | 0 <= p < |s.ps| ensures PhaseOk(s, p) {}
    forall p | 0 <= p < |s.ps| ensures ParentOk(s, p) {}
  }

  ghost predicate Reachable(s: State) {
    exists s0: State, es: seq<Event> :: Start(s0) && Inv(s0) && Admissible(s0, es) && s == Run(s0, es)
  }

  /** No run under the discipline ever makes the kernel follow a sentinel as if it were a data address,
      copy outside a buffer, or decrement a barrier nobody waits at. */
  lemma NeverFaults(s: State)
    requires Reachable(s)
    ensures Inv(s) && s.status != Fault
  {
    var s0: State, es: seq<Event> :| Start(s0) && Inv(s0) && Admissible(s0, es) && s == Run(s0, es);
  }

  // ---- every live process is in exactly one place ----

  /** The channel words in which p is committed for a transfer. */
  ghost function CommittedIn(s: State, p: nat): set<nat> {
    set c: nat | c < |s.cs| && s.cs[c].word == Some(p) && p < |s.ps| && s.ps[p].ptr.Data?
  }

  ghost function Places(s: State, p: nat): nat
    requires p < |s.ps|
  {
    (if s.curp == Some(p) then 1 else 0)
    + multiset(s.runq)[p] + multiset(s.timerq)[p] + |CommittedIn(s, p)|
    + (if s.ps[p].phase.AtWait? && s.ps[p].ptr == Waiting then 1 else 0)
    + (if s.ps[p].phase.Joining? then 1 else 0)
  }

  lemma {:induction false} NoDupCount(q: seq<nat>, p: nat)
    requires NoDup(q)
    ensures multiset(q)[p] == if p in q then 1 else 0
    decreases |q|
  {
    if q == [] {
    } else {
      NoDupTail(q);
      NoDupCount(q[1..], p);
      assert q == [q[0]] + q[1..];
    }
  }

  lemma CommittedOnce(s: State, p: nat, c: nat)
    requires Core(s) && p < |s.ps| && c in CommittedIn(s, p)
    ensures var ph := s.ps[p].phase; (ph.Sending? || ph.Receiving?) && ph.c == c
  {
    assert ChanOk(s, c) && PhaseOk(s, p);
  }

  /** A live process is running, or on the run queue once, or on the timer queue once, or committed in
      one channel word, or waiting in an ALT, or stopped at a barrier: exactly one of these. */
  lemma OnePlace(s: State, p: nat)
    requires Core(s) && p < |s.ps|
    ensures Places(s, p) == if s.ps[p].phase.Off? then 0 else 1
  {
    assert PhaseOk(s, p);
    NoDupCount(s.runq, p);
    NoDupCount(s.timerq, p);
    var ph := s.ps[p].phase;
    forall c | c in CommittedIn(s, p) ensures (ph.Sending? || ph.Receiving?) && c == ph.c { CommittedOnce(s, p, c); }
    assert CommittedIn(s, p) == if ph.Sending? || ph.Receiving? then {ph.c} else {};
  }

  // ---- rendezvous ----

  /** What has been received on a channel is a prefix of what has been sent, with at most one message
      outstanding: that of the outputter blocked in the channel word, still in its buffer. */
  lemma Rendezvous(s: State, c: nat)
    requires Core(s) && c < |s.cs|
    ensures s.cs[c].rcvd <= s.cs[c].sent && |s.cs[c].sent| <= |s.cs[c].rcvd| + 1
    ensures |s.cs[c].sent| == |s.cs[c].rcvd| + 1 <==> SenderAt(s, c)
    ensures SenderAt(s, c) ==>
      var ph := s.ps[s.cs[c].word.value].phase;
      ph.buf < |s.mem| && ph.n <= |s.mem[ph.buf]| && s.cs[c].sent == s.cs[c].rcvd + [s.mem[ph.buf][..ph.n]]
  {
    assert ChanOk(s, c);
    if SenderAt(s, c) { assert PhaseOk(s, s.cs[c].word.value); }
  }

  /** p is blocked for channel c: committed as writer or reader, or waiting in an ALT with c enabled. */
  ghost predicate BlockedOn(s: State, p: nat, c: nat)
    requires p < |s.ps|
  {
    var ph := s.ps[p].phase;
    ((ph.Sending? || ph.Receiving?) && ph.c == c) || (ph.AtWait? && c in ph.chans && s.ps[p].ptr == Waiting)
  }

  lemma OneSided(s: State, p: nat, q: nat, c: nat)
    requires Core(s) && p < |s.ps| && q < |s.ps| && BlockedOn(s, p, c) && BlockedOn(s, q, c)
    ensures p == q
  {
    assert PhaseOk(s, p) && PhaseOk(s, q);
  }

  /** TestChan on a channel nobody else reads tells whether an outputter is blocked on it. */
  lemma TestChanReady(s: State, c: nat)
    requires Core(s) && CurPhase(s).Plain? && c < |s.cs| && SoleReader(s, s.curp.value, c)
    ensures TestChan(s, c) <==> SenderAt(s, c)
  {
    assert ChanOk(s, c);
  }

  // ---- deadlock ----

  /** When the kernel reports deadlock, every process that has not ended is blocked, and no channel has
      both its ends waiting. */
  lemma DeadlockMeans(s: State)
    requires Inv(s) && s.status == Deadlock
    ensures s.runq == [] && s.timerq == []
    ensures forall p :: 0 <= p < |s.ps| ==>
      s.ps[p].phase.Off? || s.ps[p].phase.Joining? || (s.ps[p].phase.AtWait? && s.ps[p].ptr == Waiting)
      || s.ps[p].phase.Sending? || s.ps[p].phase.Receiving?
    ensures forall p: nat, q: nat, c: nat ::
      (p < |s.ps| && q < |s.ps| && BlockedOn(s, p, c) && BlockedOn(s, q, c) ==> p == q)
  {
    forall p | 0 <= p < |s.ps| ensures s.ps[p].phase.Off? || s.ps[p].phase.Joining?
      || (s.ps[p].phase.AtWait? && s.ps[p].ptr == Waiting) || s.ps[p].phase.Sending? || s.ps[p].phase.Receiving?
    {
      assert PhaseOk(s, p);
    }
    forall p: nat, q: nat, c: nat | p < |s.ps| && q < |s.ps| && BlockedOn(s, p, c) && BlockedOn(s, q, c)
      ensures p == q {
      OneSided(s, p, q, c);
    }
  }

  // ---- what a step does to a process that is not running ----

  /** The ways in which a process that does not run can change: from v to u by event e of process cur. */
  ghost predicate Transits(e: Event, cur: Option<nat>, p: nat, v: Proc, u: Proc) {
    u == v || match v.phase
      case Off => e.Par? && p in e.kids && u.phase == Plain
      case Sleeping => u == v.(due := u.due, phase := Plain)
      case Sending(c, _, _) => e.In? && e.c == c && u == v.(phase := Plain)
      case Receiving(c, _, _) => e.Out? && e.c == c && u == v.(phase := Plain)
      case AtWait(chans) => e.Out? && e.c in chans && u == v.(ptr := Ready)
      case Joining(kids) => e.End? && cur.Some? && cur.value in kids && u.count == v.count - 1
          && u.phase == if v.count == 1 then Plain else Joining(kids - {cur.value})
      case _ => false
  }

  ghost predicate Touched(s: State, t: State, p: nat)
    requires p < |s.ps|
  {
    && |t.ps| == |s.ps| && t.cs == s.cs && t.mem == s.mem
    && (t.ps[p] == s.ps[p] || (p in s.timerq && t.ps[p] == s.ps[p].(due := t.ps[p].due, phase := Plain)))
  }

  /** The process a scheduler call has just started, if any. */
  ghost function Next(t: State): seq<nat> {
    if t.status == Live && t.curp.Some? then [t.curp.value] else []
  }

  lemma {:induction false} TimersTouch(s: State, now: int, p: nat)
    requires p < |s.ps|
    ensures var t := ProcessTimers(s, now); Touched(s, t, p) && forall q :: q in t.timerq ==> q in s.timerq
    decreases |s.timerq|
  {
    if s.timerq == [] || !Expired(s, s.timerq[0], now) {
    } else {
      TimersTouch(FireHead(s, now), now, p);
    }
  }

  /** Scheduling changes no channel and no buffer, wakes sleepers at most, and keeps the queue order. */
  lemma {:induction false} ScheduleTouches(s: State, ts: seq<int>, p: nat)
    requires p < |s.ps|
    ensures var t := Schedule(s, ts); Touched(s, t, p)
    decreases |ts|
  {
    if s.timerq == [] || ts == [] {
    } else {
      TimersTouch(s, ts[0], p);
      var s1 := ProcessTimers(s, ts[0]);
      if s1.runq == [] && s1.timerq != [] { ScheduleTouches(s1, ts[1..], p); }
    }
  }

  lemma {:induction false} ScheduleTouchesQueue(s: State, ts: seq<int>)
    ensures s.runq <= Next(Schedule(s, ts)) + Schedule(s, ts).runq
    decreases |ts|
  {
    if s.timerq == [] || ts == [] {
    } else {
      ProcessTimersGrows(s, ts[0]);
      var s1 := ProcessTimers(s, ts[0]);
      if s1.runq == [] && s1.timerq != [] { ScheduleTouchesQueue(s1, ts[1..]); }
    }
  }

  /** The kernel function of e, before any scheduling, touches process p only as Transits says. */
  ghost predicate CallTransits(s: State, e: Event, p: nat)
    requires Inv(s) && Guard(s, e) && p < |s.ps|
  {
    var t := Call(s, e).s;
    |t.ps| == |s.ps| && Transits(e, s.curp, p, s.ps[p], t.ps[p]) && (p in t.timerq ==> p in s.timerq)
  }

  lemma TransferTransits(s: State, e: Event, p: nat)
    requires Inv(s) && Guard(s, e) && p < |s.ps| && s.curp != Some(p) && (e.Out? || e.In?)
    ensures CallTransits(s, e, p)
  {
    assert ChanOk(s, e.c) && PhaseOk(s, p);
    if s.cs[e.c].word.Some? { assert PhaseOk(s, s.cs[e.c].word.value); }
  }

  lemma ParTransits(s: State, e: Event, p: nat)
    requires Inv(s) && Guard(s, e) && p < |s.ps| && s.curp != Some(p) && e.Par?
    ensures CallTransits(s, e, p)
  {
    var cur := s.curp.value;
    StartKidsDoes(s.(ps := s.ps[cur := s.ps[cur].(count := |e.kids|)]), cur, e.kids);
  }

  lemma EndTransits(s: State, e: Event, p: nat)
    requires Inv(s) && Guard(s, e) && p < |s.ps| && s.curp != Some(p) && e.End?
    ensures CallTransits(s, e, p)
  {
    assert ParentOk(s, s.curp.value) && PhaseOk(s, p);
  }

  lemma RestTransits(s: State, e: Event, p: nat)
    requires Inv(s) && Guard(s, e) && p < |s.ps| && s.curp != Some(p)
    requires !e.Out? && !e.In? && !e.Par? && !e.End?
    ensures CallTransits(s, e, p)
  {
  }

  /** A process that is not running changes only in the ways Transits lists. */
  lemma Bystander(s: State, e: Event, p: nat)
    requires Inv(s) && Guard(s, e) && p < |s.ps| && s.curp != Some(p)
    ensures |Step(s, e).ps| == |s.ps| && Transits(e, s.curp, p, s.ps[p], Step(s, e).ps[p])
  {
    if e.Out? || e.In? { TransferTransits(s, e, p); }
    else if e.Par? { ParTransits(s, e, p); }
    else if e.End? { EndTransits(s, e, p); }
    else { RestTransits(s, e, p); }
    if Call(s, e).Go? { ScheduleTouches(Call(s, e).s, Times(e), p); }
  }

  // ---- data is copied before a blocked sender goes on ----

  /** A sender that had to wait stays blocked until a reader's ChanIn has copied its message, unchanged,
      into the reader's buffer and the message counts as received. */
  lemma SenderReleasedByCopy(s: State, e: Event, p: nat)
    requires Inv(s) && Guard(s, e) && p < |s.ps| && s.ps[p].phase.Sending?
    ensures var t, c, m := Step(s, e), s.ps[p].phase.c, Content(s, s.ps[p].phase.buf, s.ps[p].phase.n);
      && |t.ps| == |s.ps| && c < |s.cs|
      && (t.ps[p] == s.ps[p] || (e.In? && |t.cs| == |s.cs| && e.c == c && t.ps[p].phase == Plain
               && Content(t, e.buf, e.n) == m
            && t.cs[c].rcvd == s.cs[c].rcvd + [m] == s.cs[c].sent))
  {
    assert PhaseOk(s, p);
    Bystander(s, e, p);
    assert ChanOk(s, s.ps[p].phase.c);
  }

  /** A receiver that had to wait stays blocked until a writer's ChanOut has put its message in the
      receiver's buffer. */
  lemma ReceiverReleasedByCopy(s: State, e: Event, p: nat)
    requires Inv(s) && Guard(s, e) && p < |s.ps| && s.ps[p].phase.Receiving?
    ensures var t, ph := Step(s, e), s.ps[p].phase;
      && |t.ps| == |s.ps| && ph.c < |s.cs|
      && (t.ps[p] == s.ps[p] || (e.Out? && |t.cs| == |s.cs| && e.c == ph.c && t.ps[p].phase == Plain
            && Content(t, ph.buf, ph.n) == Content(s, e.buf, e.n)
            && t.cs[ph.c].rcvd == s.cs[ph.c].rcvd + [Content(s, e.buf, e.n)] == t.cs[ph.c].sent))
  {
    assert PhaseOk(s, p);
    Bystander(s, e, p);
    assert ChanOk(s, s.ps[p].phase.c);
  }

  // ---- nothing appears or disappears ----

  lemma {:induction false} TimersSizes(s: State, now: int)
    ensures var t := ProcessTimers(s, now); |t.ps| == |s.ps| && |t.cs| == |s.cs| && |t.mem| == |s.mem|
    decreases |s.timerq|
  {
    if s.timerq == [] || !Expired(s, s.timerq[0], now) {
    } else {
      TimersSizes(FireHead(s, now), now);
    }
  }

  lemma {:induction false} ScheduleSizes(s: State, ts: seq<int>)
    ensures var t := Schedule(s, ts); |t.ps| == |s.ps| && |t.cs| == |s.cs| && |t.mem| == |s.mem|
    decreases |ts|
  {
    if s.timerq == [] || ts == [] {
    } else {
      TimersSizes(s, ts[0]);
      var s1 := ProcessTimers(s, ts[0]);
      if s1.runq == [] && s1.timerq != [] { ScheduleSizes(s1, ts[1..]); }
    }
  }

  lemma TransferSizes(s: State, e: Event)
    requires Inv(s) && Guard(s, e) && (e.Out? || e.In?)
    ensures var t := Call(s, e).s; |t.ps| == |s.ps| && |t.cs| == |s.cs| && |t.mem| == |s.mem|
  {
    hide PhaseOk, ChanOk, ParentOk, QueuesOk, BufsOk, AltsApart;
  }

  lemma CallSizes(s: State, e: Event)
    requires Inv(s) && Guard(s, e)
    ensures var t := Call(s, e).s; |t.ps| == |s.ps| && |t.cs| == |s.cs| && |t.mem| == |s.mem|
  {
    if e.Out? || e.In? {
      TransferSizes(s, e);
      return;
    }
    hide PhaseOk, ChanOk, ParentOk, QueuesOk, BufsOk, AltsApart;
    if e.Par? {
      var cur := s.curp.value;
      StartKidsDoes(s.(ps := s.ps[cur := s.ps[cur].(count := |e.kids|)]), cur, e.kids);
    }
  }

  lemma StepSizes(s: State, e: Event)
    requires Inv(s) && Guard(s, e)
    ensures var t := Step(s, e); |t.ps| == |s.ps| && |t.cs| == |s.cs| && |t.mem| == |s.mem|
  {
    hide Call;
    CallSizes(s, e);
    if Call(s, e).Go? { ScheduleSizes(Call(s, e).s, Times(e)); }
  }

  lemma {:induction false} RunSizes(s: State, es: seq<Event>)
    requires Inv(s) && Admissible(s, es)
    ensures var t := Run(s, es); |t.ps| == |s.ps| && |t.cs| == |s.cs| && |t.mem| == |s.mem|
    decreases |es|
  {
    if es == [] {
    } else {
      StepInv(s, es[0]);
      StepSizes(s, es[0]);
      RunSizes(Step(s, es[0]), es[1..]);
    }
  }

  // ---- runs in which a given process makes no call ----

  /** p is not the running process when any of the calls es is made. */
  ghost predicate Silent(s: State, es: seq<Event>, p: nat)
    requires Inv(s) && Admissible(s, es)
    decreases |es|
  {
    es == [] || (StepInv(s, es[0]); s.curp != Some(p) && Silent(Step(s, es[0]), es[1..], p))
  }

  ghost predicate Working(s: State) {
    s.status == Live || s.status == Asleep || s.status == Deadlock
  }

  /** An ALTer after AltWait, as long as it has not run again: it still waits, with its own address in
      every channel it enabled, or it has been made ready once and some enabled channel holds a blocked
      outputter; it is queued, or running, exactly when it is ready, and once. */
  lemma {:induction false} AltSafety(s: State, es: seq<Event>, p: nat, e: set<nat>)
    requires Inv(s) && Admissible(s, es) && Silent(s, es, p) && p < |s.ps| && s.ps[p].phase == AtWait(e)
    ensures var t := Run(s, es);
      && p < |t.ps| && t.ps[p].phase == AtWait(e)
      && (Working(t) && t.ps[p].ptr == Waiting ==> AllOwn(t, p, e) && !OnRun(t, p))
      && (Working(t) && t.ps[p].ptr != Waiting ==>
           (t.ps[p].ptr == Ready && SomeSender(t, e)
            && multiset(t.runq)[p] + (if t.curp == Some(p) then 1 else 0) == 1))
    decreases |es|
  {
    if es == [] {
      if Working(s) { assert PhaseOk(s, p); OnePlace(s, p); }
    } else {
      StepInv(s, es[0]);
      Bystander(s, es[0], p);
      AltSafety(Step(s, es[0]), es[1..], p, e);
    }
  }

  // ---- barriers ----

  /** The processes that end during es. */
  ghost function Ended(s: State, es: seq<Event>): set<nat>
    requires Inv(s) && Admissible(s, es)
    decreases |es|
  {
    if es == [] then {}
    else
      StepInv(s, es[0]);
      (if es[0].End? && s.curp.Some? then {s.curp.value} else {}) + Ended(Step(s, es[0]), es[1..])
  }

  ghost function JoinPhase(kids: set<nat>): Phase {
    if kids == {} then Plain else Joining(kids)
  }

  lemma EndJoins(s: State, e: Event, p: nat, kids: set<nat>)
    requires Inv(s) && Guard(s, e) && e.End? && p < |s.ps| && s.ps[p].phase == Joining(kids) && s.curp.value in kids
    ensures p < |Step(s, e).ps|
      && Step(s, e).ps[p].phase == if s.ps[p].count == 1 then Plain else Joining(kids - {s.curp.value})
  {
    assert PhaseOk(s, p);
    ScheduleTouches(Call(s, e).s, e.ts, p);
  }

  lemma BarrierStep(s: State, e: Event, p: nat, kids: set<nat>)
    requires Inv(s) && Guard(s, e) && p < |s.ps| && s.curp != Some(p) && s.ps[p].phase == JoinPhase(kids)
    ensures var gone: set<nat> := if e.End? && s.curp.Some? then {s.curp.value} else {};
      p < |Step(s, e).ps| && Step(s, e).ps[p].phase == JoinPhase(kids - gone)
  {
    assert PhaseOk(s, p);
    Bystander(s, e, p);
    var gone: set<nat> := if e.End? && s.curp.Some? then {s.curp.value} else {};
    if gone <= kids && gone != {} { assert |kids - gone| == |kids| - 1; } else { assert kids - gone == kids; }
    if e.End? && s.curp.Some? && s.curp.value in kids { EndJoins(s, e, p, kids); }
  }

  /** A parent stopped at its barrier stays there until every child it waits for has ended, and is then
      on the run queue, or running, exactly once. */
  lemma {:induction false} BarrierSafety(s: State, es: seq<Event>, p: nat, kids: set<nat>)
    requires Inv(s) && Admissible(s, es) && Silent(s, es, p) && p < |s.ps| && s.ps[p].phase == JoinPhase(kids)
    ensures var t, left := Run(s, es), kids - Ended(s, es);
      && p < |t.ps| && t.ps[p].phase == JoinPhase(left)
      && (Working(t) ==> multiset(t.runq)[p] + (if t.curp == Some(p) then 1 else 0) == if left == {} then 1 else 0)
    decreases |es|
  {
    if es == [] {
      assert kids - Ended(s, es) == kids;
      if Working(s) { OnePlace(s, p); assert PhaseOk(s, p); NoDupCount(s.runq, p); }
    } else {
      var u := Step(s, es[0]);
      StepInv(s, es[0]);
      BarrierStep(s, es[0], p, kids);
      var gone: set<nat> := if es[0].End? && s.curp.Some? then {s.curp.value} else {};
      assert kids - Ended(s, es) == (kids - gone) - Ended(u, es[1..]);
      BarrierSafety(u, es[1..], p, kids - gone);
    }
  }

  /** After ProcPar the parent waits for exactly the children it started; without children it goes on. */
  lemma ProcParWaits(s: State, e: Event)
    requires Inv(s) && Guard(s, e) && e.Par?
    ensures var p, t := s.curp.value, Step(s, e);
      p < |t.ps| && t.ps[p].phase == JoinPhase(Elems(e.kids))
      && (e.kids == [] ==> t.curp == Some(p) && t.runq == s.runq && t.status == Live)
  {
    var p := s.curp.value;
    var s0 := s.(ps := s.ps[p := s.ps[p].(count := |e.kids|)]);
    StartKidsDoes(s0, p, e.kids);
    if e.kids != [] {
      assert e.kids[0] in Elems(e.kids);
      assert p !in s.timerq;
      ScheduleTouches(Call(s, e).s, e.ts, p);
    }
  }

  // ---- first in, first out ----

  /** The process that e makes the scheduler start, if any. */
  ghost function StepNext(s: State, e: Event): seq<nat>
    requires Inv(s) && Guard(s, e)
  {
    if Call(s, e).Go? then Next(Step(s, e)) else []
  }

  lemma CallQueue(s: State, e: Event)
    requires Inv(s) && Guard(s, e)
    ensures s.runq <= Call(s, e).s.runq
  {
    match e
    case Par(kids, _) =>
      var cur := s.curp.value;
      StartKidsDoes(s.(ps := s.ps[cur := s.ps[cur].(count := |kids|)]), cur, kids);
    case _ =>
  }

  lemma StepFifo(s: State, e: Event)
    requires Inv(s) && Guard(s, e)
    ensures s.runq <= StepNext(s, e) + Step(s, e).runq
  {
    CallQueue(s, e);
    if Call(s, e).Go? { ScheduleTouchesQueue(Call(s, e).s, Times(e)); }
  }

  /** The processes started by the scheduler during es, in order. */
  ghost function Started(s: State, es: seq<Event>): seq<nat>
    requires Inv(s) && Admissible(s, es)
    decreases |es|
  {
    if es == [] then []
    else StepInv(s, es[0]); StepNext(s, es[0]) + Started(Step(s, es[0]), es[1..])
  }

  lemma PrefixChain(q: seq<nat>, x: seq<nat>, u: seq<nat>, y: seq<nat>, v: seq<nat>)
    requires q <= x + u && u <= y + v
    ensures q <= (x + y) + v
  {
    assert (x + y) + v == x + (y + v);
  }

  /** First in, first out, over whole runs: what was on the run queue is started in queue order, before
      anything queued later, and what has not been started yet is still in front. */
  lemma {:induction false} RunFifo(s: State, es: seq<Event>)
    requires Inv(s) && Admissible(s, es)
    ensures s.runq <= Started(s, es) + Run(s, es).runq
    decreases |es|
  {
    if es == [] {
    } else {
      var u := Step(s, es[0]);
      StepInv(s, es[0]);
      StepFifo(s, es[0]);
      RunFifo(u, es[1..]);
      PrefixChain(s.runq, StepNext(s, es[0]), u.runq, Started(u, es[1..]), Run(u, es[1..]).runq);
    }
  }
}
