/** What one call of the scheduler does: which timers fire, in which order, and who runs next. */
module CcspTimers {
  import opened Common
  import opened ClockTime
  import opened CcspState
  import opened CcspInv

  // ---- processing the timer queue ----

  /** The processes at the front of the timer queue whose true time is strictly before now. */
  function DueCount(s: State, q: seq<nat>, now: int): (k: nat)
    ensures k <= |q|
  {
    if q != [] && q[0] < |s.ps| && s.ps[q[0]].due < now then 1 + DueCount(s, q[1..], now) else 0
  }

  /** On a queue in time order the prefix counted is exactly the set of expired processes. */
  lemma {:induction false} DueExactly(s: State, q: seq<nat>, now: int)
    requires AllBelow(q, |s.ps|)
    requires forall i, j :: 0 <= i < j < |q| ==> s.ps[q[i]].due <= s.ps[q[j]].due
    ensures forall i :: 0 <= i < |q| ==> (s.ps[q[i]].due < now <==> i < DueCount(s, q, now))
    decreases |q|
  {
    if q == [] {
    } else {
      var rest := q[1..];
      DueExactly(s, rest, now);
      forall i | 0 < i < |q| ensures s.ps[q[i]].due < now <==> i < DueCount(s, q, now) {
        assert q[i] == rest[i - 1];
      }
    }
  }

  lemma {:induction false} DueCountSame(s: State, t: State, q: seq<nat>, now: int)
    requires |s.ps| == |t.ps| && AllBelow(q, |s.ps|)
    requires forall i :: 0 <= i < |q| ==> s.ps[q[i]].due == t.ps[q[i]].due
    ensures DueCount(s, q, now) == DueCount(t, q, now)
    decreases |q|
  {
    if q == [] {
    } else {
      DueCountSame(s, t, q[1..], now);
    }
  }

  /** t is s after the first k processes of its timer queue have been released at time now. */
  ghost predicate Fired(s: State, t: State, k: nat, now: int) {
    && k <= |s.timerq| && |t.ps| == |s.ps| && t.cs == s.cs && t.mem == s.mem && t.curp == s.curp && t.status == s.status
    && t.timerq == s.timerq[k..] && t.runq == s.runq + s.timerq[..k]
    && (forall p :: 0 <= p < |s.ps| ==>
          t.ps[p] == (if p in s.timerq[..k] then s.ps[p].(due := now, phase := Plain) else s.ps[p]))
  }

  lemma FiredMore(s: State, u: State, t: State, k: nat, now: int)
    requires NoDup(s.timerq) && s.timerq != [] && s.timerq[0] < |s.ps|
    requires u == FireHead(s, now) && Fired(u, t, k, now)
    ensures Fired(s, t, k + 1, now)
  {
    assert s.timerq[..k + 1] == [s.timerq[0]] + s.timerq[1..][..k];
    assert s.timerq[k + 1..] == s.timerq[1..][k..];
    assert t.runq == s.runq + s.timerq[..k + 1];
  }

  /** Releasing the process at the head leaves the times of the others. */
  lemma DueCountTail(s: State, now: int)
    requires NoDup(s.timerq) && AllBelow(s.timerq, |s.ps|) && s.timerq != []
    ensures var u := FireHead(s, now); DueCount(u, u.timerq, now) == DueCount(s, s.timerq[1..], now)
  {
    var u := FireHead(s, now);
    forall i | 0 <= i < |u.timerq| ensures u.timerq[i] < |s.ps| && s.ps[u.timerq[i]].due == u.ps[u.timerq[i]].due {
      assert u.timerq[i] == s.timerq[i + 1];
    }
    DueCountSame(u, s, s.timerq[1..], now);
  }

  /** ccsp_processtimers moves to the run queue exactly the processes whose time is strictly before
      now, in time order and each once, whatever the stored 32-bit times look like. */
  lemma {:induction false} ProcessTimersFires(s: State, now: int)
    requires Core(s) && ClockNear(s, now)
    ensures Fired(s, ProcessTimers(s, now), DueCount(s, s.timerq, now), now)
    decreases |s.timerq|
  {
    if s.timerq != [] {
      TimeAfterIsAfter(now, s.ps[s.timerq[0]].due);
      if s.ps[s.timerq[0]].due < now { FiresHead(s, now); }
    }
  }

  lemma {:induction false} FiresHead(s: State, now: int)
    requires Core(s) && ClockNear(s, now) && s.timerq != [] && s.ps[s.timerq[0]].due < now
    requires Expired(s, s.timerq[0], now)
    ensures Fired(s, ProcessTimers(s, now), DueCount(s, s.timerq, now), now)
    decreases |s.timerq|, 0
  {
    assert NoDup(s.timerq) && AllBelow(s.timerq, |s.ps|);
    hide Core, ClockNear, Fired;
    var u := FireHead(s, now);
    FireHeadCore(s, now);
    FireHeadNear(s, now, now);
    ProcessTimersFires(u, now);
    DueCountTail(s, now);
    FiredMore(s, u, ProcessTimers(u, now), DueCount(s, s.timerq[1..], now), now);
  }

  /** In one statement: of the processes on the timer queue, exactly those whose time is strictly before
      now leave it, and exactly those are on the run queue then. */
  lemma FiresExactly(s: State, now: int, p: nat)
    requires Core(s) && ClockNear(s, now) && p in s.timerq
    ensures var t := ProcessTimers(s, now);
      p < |s.ps| && (p in t.timerq <==> !(s.ps[p].due < now)) && (p in t.runq <==> s.ps[p].due < now)
  {
    var q, k := s.timerq, DueCount(s, s.timerq, now);
    DueExactly(s, q, now);
    ProcessTimersFires(s, now);
    var i :| 0 <= i < |q| && q[i] == p;
    assert p !in s.runq && (p in q[..k] <==> i < k) && (p in q[k..] <==> i >= k) by { InPart(q, i, k); }
  }

  /** An element of a sequence without repetition is in the one part or in the other. */
  lemma InPart(q: seq<nat>, i: nat, k: nat)
    requires NoDup(q) && i < |q| && k <= |q|
    ensures (q[i] in q[..k] <==> i < k) && (q[i] in q[k..] <==> i >= k)
  {
    if i < k { assert q[..k][i] == q[i]; } else { assert q[k..][i - k] == q[i]; }
  }

  // ---- sleeping ----

  const MICROS: int := 1_000_000

  /** How long an idle scheduler sleeps when it reads the clock at now, in seconds and microseconds; None
      when it does not. */
  function SleepFor(s: State, now: int): Option<(int, int)>
    requires s.timerq != [] && s.timerq[0] < |s.ps|
  {
    var next := Low32(Low32(s.ps[s.timerq[0]].due) - Low32(now));
    if next > 0 then Some((next / MICROS, next % MICROS)) else None
  }

  /** The scheduler sleeps exactly until the first time on the timer queue, and nobody's time is earlier;
      it does not sleep exactly when that time has come. */
  lemma SleepsUntilDue(s: State, now: int)
    requires Core(s) && ClockNear(s, now) && s.timerq != []
    ensures var due, sleep := s.ps[s.timerq[0]].due, SleepFor(s, now);
      && (sleep == None <==> due <= now)
      && (sleep.Some? ==> 0 <= sleep.value.0 && 0 <= sleep.value.1 < MICROS
                          && now + MICROS * sleep.value.0 + sleep.value.1 == due)
      && (forall p :: p in s.timerq ==> due <= s.ps[p].due)
  {
    var due := s.ps[s.timerq[0]].due;
    Low32Diff(now, due);
    Low32Small(due - now);
    forall p | p in s.timerq ensures due <= s.ps[p].due {
      var i :| 0 <= i < |s.timerq| && s.timerq[i] == p;
      assert i == 0 || s.ps[s.timerq[0]].due <= s.ps[s.timerq[i]].due;
    }
  }

  // ---- choosing the next process ----

  /** t is what the scheduler makes of s: it released the first k processes of the timer queue, and
      the process at the head of the run queue runs; or there is nobody to run. */
  ghost predicate ScheduledBy(s: State, t: State, k: nat) {
    && |t.ps| == |s.ps| && t.cs == s.cs && t.mem == s.mem
    && k <= |s.timerq| && t.timerq == s.timerq[k..]
    && s.runq + s.timerq[..k] == (if t.status == Live && t.curp.Some? then [t.curp.value] + t.runq else t.runq)
    && (forall p :: 0 <= p < |s.ps| ==>
          t.ps[p] == (if p in s.timerq[..k] then s.ps[p].(due := t.ps[p].due, phase := Plain) else s.ps[p]))
  }

  ghost predicate Scheduled(s: State, t: State) {
    exists k: nat :: ScheduledBy(s, t, k)
  }

  lemma {:induction false} ScheduleDoes(s: State, ts: seq<int>)
    requires Core(s) && s.curp == None
    requires s.timerq == [] || ((ts == [] ==> s.runq == []) && forall i :: 0 <= i < |ts| ==> ClockNear(s, ts[i]))
    ensures Scheduled(s, Schedule(s, ts))
    ensures Schedule(s, ts).status == Deadlock <==> s.runq == [] && s.timerq == []
    ensures Schedule(s, ts).status == Asleep ==> Schedule(s, ts) == s.(status := Asleep) && s.runq == []
    ensures Schedule(s, ts).status in {Live, Asleep, Deadlock}
    ensures Schedule(s, ts).status == Live <==> Schedule(s, ts).curp.Some?
    decreases |ts|
  {
    var t := Schedule(s, ts);
    if s.timerq != [] && ts == [] {
      assert ScheduledBy(s, t, 0);
    } else {
      var s1 := if s.timerq != [] then ProcessTimers(s, ts[0]) else s;
      var k := if s.timerq != [] then DueCount(s, s.timerq, ts[0]) else 0;
      if s.timerq != [] { ProcessTimersFires(s, ts[0]); }
      assert s1.runq == s.runq + s.timerq[..k] && s1.timerq == s.timerq[k..];
      if s1.runq == [] && s1.timerq != [] {
        assert k == 0 && s1.ps == s.ps;
        assert s1 == s;
        ScheduleDoes(s1, ts[1..]);
      } else {
        assert ScheduledBy(s, t, k);
      }
    }
  }
}
