/** What goes over a channel in a run: what the calls offer is what was sent, and what was received is
    what the readers find in their buffers. */
module CcspTraffic {
  import opened Common
  import opened CcspState
  import opened CcspInv
  import opened CcspRuns
  import opened CcspTheorems

  /** The message that call e offers on channel c. */
  function OfferedBy(s: State, e: Event, c: nat): seq<Msg> {
    if e.Out? && e.c == c then [Content(s, e.buf, e.n)] else []
  }

  /** What call e leaves in a reader's buffer, t being the state after it: its own, when it finds an
      outputter in the channel, or that of the inputter it finds there. */
  function ReadBy(s: State, e: Event, t: State, c: nat): seq<Msg> {
    if c >= |s.cs| || s.cs[c].word.None? || s.cs[c].word.value >= |s.ps| then []
    else
      var ph := s.ps[s.cs[c].word.value].phase;
      if e.In? && e.c == c then [Content(t, e.buf, e.n)]
      else if e.Out? && e.c == c && ph.Receiving? then [Content(t, ph.buf, ph.n)]
      else []
  }

  /** The messages offered on c in the course of es, and the contents of the readers' buffers. */
  ghost function Offers(s: State, es: seq<Event>, c: nat): seq<Msg>
    requires Inv(s) && Admissible(s, es)
    decreases |es|
  {
    if es == [] then []
    else StepInv(s, es[0]); OfferedBy(s, es[0], c) + Offers(Step(s, es[0]), es[1..], c)
  }

  ghost function Reads(s: State, es: seq<Event>, c: nat): seq<Msg>
    requires Inv(s) && Admissible(s, es)
    decreases |es|
  {
    if es == [] then []
    else
      StepInv(s, es[0]);
      ReadBy(s, es[0], Step(s, es[0]), c) + Reads(Step(s, es[0]), es[1..], c)
  }

  /** The kernel function of e, before any scheduling. */
  ghost predicate CallMoves(s: State, e: Event, c: nat)
    requires Inv(s) && Guard(s, e) && c < |s.cs|
  {
    var t := Call(s, e).s;
    |t.cs| == |s.cs| && t.cs[c].sent == s.cs[c].sent + OfferedBy(s, e, c)
    && t.cs[c].rcvd == s.cs[c].rcvd + ReadBy(s, e, t, c)
  }

  /** An inputter waits in the channel: it gets the message. */
  lemma OutServes(s: State, e: Event, c: nat)
    requires Inv(s) && Guard(s, e) && c < |s.cs| && e.Out?
    requires s.cs[e.c].word.Some? && s.cs[e.c].word.value < |s.ps| && s.ps[s.cs[e.c].word.value].phase.Receiving?
    ensures CallMoves(s, e, c)
  {
    assert ChanOk(s, e.c) && PhaseOk(s, s.cs[e.c].word.value);
    hide PhaseOk, ChanOk, ParentOk, AltsApart, QueuesOk, BufsOk, SoleWriter, Stable;
  }

  lemma OutWaits(s: State, e: Event, c: nat)
    requires Inv(s) && Guard(s, e) && c < |s.cs| && e.Out?
    requires s.cs[e.c].word.Some? ==>
      (s.cs[e.c].word.value < |s.ps| && !s.ps[s.cs[e.c].word.value].phase.Receiving?)
    ensures CallMoves(s, e, c)
  {
    assert ChanOk(s, e.c);
    if s.cs[e.c].word.Some? { assert PhaseOk(s, s.cs[e.c].word.value); }
    hide PhaseOk, ChanOk, ParentOk, AltsApart, QueuesOk, BufsOk, SoleWriter, Stable;
  }

  lemma OutMoves(s: State, e: Event, c: nat)
    requires Inv(s) && Guard(s, e) && c < |s.cs| && e.Out?
    ensures CallMoves(s, e, c)
  {
    assert ChanOk(s, e.c);
    hide CallMoves, Call;
    if s.cs[e.c].word.Some? && s.ps[s.cs[e.c].word.value].phase.Receiving? {
      OutServes(s, e, c);
    } else {
      OutWaits(s, e, c);
    }
  }

  lemma InMoves(s: State, e: Event, c: nat)
    requires Inv(s) && Guard(s, e) && c < |s.cs| && e.In?
    ensures CallMoves(s, e, c)
  {
    hide ParentOk, AltsApart, QueuesOk, BufsOk;
    assert ChanOk(s, e.c);
    if s.cs[e.c].word.Some? { assert PhaseOk(s, s.cs[e.c].word.value); }
  }

  lemma RestMoves(s: State, e: Event, c: nat)
    requires Inv(s) && Guard(s, e) && c < |s.cs| && !e.Out? && !e.In?
    ensures CallMoves(s, e, c)
  {
    hide PhaseOk, ChanOk, ParentOk, QueuesOk, BufsOk, AltsApart;
    if e.Par? {
      var cur := s.curp.value;
      StartKidsDoes(s.(ps := s.ps[cur := s.ps[cur].(count := |e.kids|)]), cur, e.kids);
    }
  }

  lemma StepMoves(s: State, e: Event, c: nat)
    requires Inv(s) && Guard(s, e) && c < |s.cs|
    ensures var t := Step(s, e);
      |t.cs| == |s.cs| && t.cs[c].sent == s.cs[c].sent + OfferedBy(s, e, c)
      && t.cs[c].rcvd == s.cs[c].rcvd + ReadBy(s, e, t, c)
  {
    if e.Out? { OutMoves(s, e, c); } else if e.In? { InMoves(s, e, c); } else { RestMoves(s, e, c); }
    hide Call, Core;
    if Call(s, e).Go? { ScheduleMoves(Call(s, e).s, Times(e)); }
  }

  lemma {:induction false} TimersMove(s: State, now: int)
    ensures ProcessTimers(s, now).cs == s.cs && ProcessTimers(s, now).mem == s.mem
    decreases |s.timerq|
  {
    if s.timerq == [] || !Expired(s, s.timerq[0], now) {
    } else {
      TimersMove(FireHead(s, now), now);
    }
  }

  /** Scheduling moves no message. */
  lemma {:induction false} ScheduleMoves(s: State, ts: seq<int>)
    ensures Schedule(s, ts).cs == s.cs && Schedule(s, ts).mem == s.mem
    decreases |ts|
  {
    if s.timerq == [] || ts == [] {
    } else {
      TimersMove(s, ts[0]);
      var s1 := ProcessTimers(s, ts[0]);
      if s1.runq == [] && s1.timerq != [] { ScheduleMoves(s1, ts[1..]); }
    }
  }

  /** Over every run: what has been sent on a channel is what the output calls offered, in order, and
      what has been received is what was found in the readers' buffers, in order. */
  lemma {:induction false} RunMoves(s: State, es: seq<Event>, c: nat)
    requires Inv(s) && Admissible(s, es) && c < |s.cs|
    ensures var t := Run(s, es);
      |t.cs| == |s.cs| && t.cs[c].sent == s.cs[c].sent + Offers(s, es, c)
      && t.cs[c].rcvd == s.cs[c].rcvd + Reads(s, es, c)
    decreases |es|
  {
    if es == [] {
    } else {
      var u := Step(s, es[0]);
      StepInv(s, es[0]);
      StepMoves(s, es[0], c);
      RunMoves(u, es[1..], c);
      Assoc(s.cs[c].sent, OfferedBy(s, es[0], c), Offers(u, es[1..], c));
      Assoc(s.cs[c].rcvd, ReadBy(s, es[0], u, c), Reads(u, es[1..], c));
    }
  }

  /** From the start: what the readers of a channel have found in their buffers is a prefix of what the
      writers have offered, with at most one message between them. */
  lemma Delivery(s: State, es: seq<Event>, c: nat)
    requires Start(s) && Inv(s) && Admissible(s, es) && c < |s.cs| && Working(Run(s, es))
    ensures Reads(s, es, c) <= Offers(s, es, c) && |Offers(s, es, c)| <= |Reads(s, es, c)| + 1
  {
    RunMoves(s, es, c);
    Rendezvous(Run(s, es), c);
    assert [] + Offers(s, es, c) == Offers(s, es, c) && [] + Reads(s, es, c) == Reads(s, es, c);
  }
}
