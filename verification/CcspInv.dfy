/** What every reachable kernel state satisfies, what the occam discipline asks of the caller of each
    kernel call, and the proof that no call breaks the invariant. */
module CcspInv {
  import opened Common
  import opened ClockTime
  import opened CcspState

  // ---- the invariant ----

  ghost predicate Queued(ph: Phase) { ph.Plain? || ph.AtWait? }

  ghost predicate Running(ph: Phase) { ph.Plain? || ph.InAlt? || ph.AtWait? || ph.InDisable? }

  ghost predicate Sorted(s: State) {
    forall i, j :: 0 <= i < j < |s.timerq| && s.timerq[i] < |s.ps| && s.timerq[j] < |s.ps|
      ==> s.ps[s.timerq[i]].due <= s.ps[s.timerq[j]].due
  }

  ghost predicate QueuesOk(s: State) {
    && NoDup(s.runq) && NoDup(s.timerq)
    && (forall i :: 0 <= i < |s.runq| ==> s.runq[i] < |s.ps| && Queued(s.ps[s.runq[i]].phase))
    && (forall i :: 0 <= i < |s.timerq| ==> s.timerq[i] < |s.ps| && s.ps[s.timerq[i]].phase == Sleeping)
    && (s.curp.Some? ==> s.curp.value < |s.ps| && Running(s.ps[s.curp.value].phase) && s.curp.value !in s.runq)
    && Sorted(s)
  }

  /** On the run queue or running. */
  ghost predicate OnRun(s: State, p: nat) {
    s.curp == Some(p) || p in s.runq
  }

  /** The channel word holds a blocked outputter. */
  ghost predicate SenderAt(s: State, c: nat) {
    c < |s.cs| && s.cs[c].word.Some? && s.cs[c].word.value < |s.ps|
    && var ph := s.ps[s.cs[c].word.value].phase; ph.Sending? && ph.c == c
  }

  /** Every channel p has enabled and not yet disabled holds p itself or a blocked outputter. */
  ghost predicate AltWords(s: State, p: nat, e: set<nat>) {
    forall c: nat :: c in e ==> c < |s.cs| && (s.cs[c].word == Some(p) || SenderAt(s, c))
  }

  ghost predicate AllOwn(s: State, p: nat, e: set<nat>) {
    forall c: nat :: c in e ==> c < |s.cs| && s.cs[c].word == Some(p)
  }

  ghost predicate SomeSender(s: State, e: set<nat>) {
    exists c: nat :: c in e && SenderAt(s, c)
  }

  ghost predicate AltOk(s: State, p: nat, e: set<nat>)
    requires p < |s.ps|
  {
    AltWords(s, p, e)
    && match s.ps[p].ptr
       case Enabling => AllOwn(s, p, e)
       case Waiting => AllOwn(s, p, e)
       case Ready => SomeSender(s, e)
       case _ => false
  }

  ghost predicate KidsOk(s: State, p: nat, kids: set<nat>) {
    forall k: nat :: k in kids ==> k < |s.ps| && !s.ps[k].phase.Off? && s.ps[k].parent == Some(p)
  }

  ghost predicate Committed(s: State, p: nat, c: nat, buf: nat, n: nat)
    requires p < |s.ps|
  {
    && c < |s.cs| && s.cs[c].word == Some(p) && s.ps[p].ptr == Data(buf)
    && buf < |s.mem| && n <= |s.mem[buf]|
  }

  ghost predicate PhaseOk(s: State, p: nat)
    requires p < |s.ps|
  {
    match s.ps[p].phase
    case Off => true
    case Plain => OnRun(s, p)
    case Sleeping => p in s.timerq
    case Sending(c, buf, n) => Committed(s, p, c, buf, n)
    case Receiving(c, buf, n) => Committed(s, p, c, buf, n)
    case InAlt(e) => s.curp == Some(p) && AltOk(s, p, e) && !s.ps[p].ptr.Waiting?
    case AtWait(e) => AltOk(s, p, e) && !s.ps[p].ptr.Enabling? && (OnRun(s, p) <==> s.ps[p].ptr.Ready?)
    case InDisable(e) => s.curp == Some(p) && AltWords(s, p, e) && s.ps[p].ptr == Ready
    case Joining(kids) => kids != {} && |kids| == s.ps[p].count && KidsOk(s, p, kids)
  }

  ghost predicate ParentOk(s: State, p: nat)
    requires p < |s.ps|
  {
    !s.ps[p].phase.Off? && s.ps[p].parent.Some? ==>
      var q := s.ps[p].parent.value;
      q < |s.ps| && s.ps[q].phase.Joining? && p in s.ps[q].phase.kids
  }

  /** The process has channel c's word in its care. */
  ghost predicate Attached(ph: Phase, c: nat) {
    match ph
    case Sending(d, _, _) => c == d
    case Receiving(d, _, _) => c == d
    case _ => c in AltChans(ph)
  }

  /** What has been offered on c is what has been delivered, plus the message of the outputter
      blocked in the channel word. */
  ghost predicate ChanOk(s: State, c: nat)
    requires c < |s.cs|
  {
    && (s.cs[c].word.Some? ==> s.cs[c].word.value < |s.ps| && Attached(s.ps[s.cs[c].word.value].phase, c))
    && s.cs[c].sent == s.cs[c].rcvd +
         if SenderAt(s, c) then
           var ph := s.ps[s.cs[c].word.value].phase; [Content(s, ph.buf, ph.n)]
         else []
  }

  /** A buffer waiting for input is in no other blocked process's hands. */
  ghost predicate BufsOk(s: State) {
    forall p, q :: 0 <= p < |s.ps| && 0 <= q < |s.ps| && p != q && s.ps[p].phase.Receiving?
      ==> !UsesBuf(s.ps[q].phase, s.ps[p].phase.buf)
  }

  ghost predicate UsesBuf(ph: Phase, b: nat) {
    (ph.Sending? || ph.Receiving?) && ph.buf == b
  }

  /** No channel is enabled by two ALTers. */
  ghost predicate AltsApart(s: State) {
    forall p, q :: 0 <= p < |s.ps| && 0 <= q < |s.ps| && p != q ==> AltChans(s.ps[p].phase) !! AltChans(s.ps[q].phase)
  }

  ghost predicate Core(s: State) {
    && QueuesOk(s)
    && (forall p :: 0 <= p < |s.ps| ==> PhaseOk(s, p))
    && (forall p :: 0 <= p < |s.ps| ==> ParentOk(s, p))
    && (forall c :: 0 <= c < |s.cs| ==> ChanOk(s, c))
    && BufsOk(s) && AltsApart(s)
  }

  ghost predicate Inv(s: State) {
    match s.status
    case Live => Core(s) && s.curp.Some?
    case Asleep => Core(s) && s.curp == None && s.runq == [] && s.timerq != []
    case Deadlock => Core(s) && s.curp == None && s.runq == [] && s.timerq == []
    case Finished => true
    case Error => true
    case Fault => false
  }

  // ---- the discipline ----

  ghost predicate Reads(ph: Phase, c: nat) {
    (ph.Receiving? && ph.c == c) || c in AltChans(ph)
  }

  /** No other process is outputting on c. */
  ghost predicate SoleWriter(s: State, p: nat, c: nat) {
    forall q :: 0 <= q < |s.ps| && q != p ==> !(s.ps[q].phase.Sending? && s.ps[q].phase.c == c)
  }

  /** No other process is inputting from c or has it enabled. */
  ghost predicate SoleReader(s: State, p: nat, c: nat) {
    forall q :: 0 <= q < |s.ps| && q != p ==> !Reads(s.ps[q].phase, c)
  }

  /** No blocked process is going to write buffer b. */
  ghost predicate Stable(s: State, b: nat) {
    forall q :: 0 <= q < |s.ps| ==> !(s.ps[q].phase.Receiving? && s.ps[q].phase.buf == b)
  }

  /** No blocked process holds buffer b at all. */
  ghost predicate Unused(s: State, b: nat) {
    forall q :: 0 <= q < |s.ps| ==> !UsesBuf(s.ps[q].phase, b)
  }

  ghost predicate HasBuf(s: State, b: nat, n: nat) {
    b < |s.mem| && n <= |s.mem[b]|
  }

  /** The two ends of a transfer name the same number of bytes. */
  ghost predicate SameCount(s: State, c: nat, n: nat)
    requires c < |s.cs|
  {
    s.cs[c].word.Some? && s.cs[c].word.value < |s.ps| ==>
      var ph := s.ps[s.cs[c].word.value].phase; (ph.Sending? || ph.Receiving?) ==> ph.n == n
  }

  /** The clock reading t is near every time on the timer queue. */
  ghost predicate ClockNear(s: State, t: int) {
    forall i :: 0 <= i < |s.timerq| && s.timerq[i] < |s.ps| ==> Near(t, s.ps[s.timerq[i]].due)
  }

  /** At least one clock reading, all of them near the times on the timer queue. */
  ghost predicate ClocksNear(s: State, ts: seq<int>) {
    ts != [] && forall k :: 0 <= k < |ts| ==> ClockNear(s, ts[k])
  }

  /** The phase of the running process, Off when nothing runs. */
  function CurPhase(s: State): Phase {
    if s.status == Live && s.curp.Some? && s.curp.value < |s.ps| then s.ps[s.curp.value].phase else Off
  }

  ghost predicate Guard(s: State, e: Event) {
    match e
    case Wake(ts) => s.status == Asleep && ClocksNear(s, ts)
    case Out(c, b, n, ts) =>
      CurPhase(s).Plain? && c < |s.cs| && SoleWriter(s, s.curp.value, c) && HasBuf(s, b, n)
      && Stable(s, b) && SameCount(s, c, n) && ClocksNear(s, ts)
    case In(c, b, n, ts) =>
      CurPhase(s).Plain? && c < |s.cs| && SoleReader(s, s.curp.value, c) && HasBuf(s, b, n)
      && Unused(s, b) && SameCount(s, c, n) && ClocksNear(s, ts)
    case Pause(ts) => CurPhase(s).Plain? && ClocksNear(s, ts)
    case Tin(t, now, ts) =>
      CurPhase(s).Plain? && Near(now, t) && ClockNear(s, t) && ClocksNear(s, ts)
      && (forall k :: 0 <= k < |ts| ==> Near(ts[k], t))
    case Alt => CurPhase(s).Plain?
    case Enbc(g, c) =>
      CurPhase(s).InAlt? && c < |s.cs| && (g ==> SoleReader(s, s.curp.value, c))
    case AltWt(ts) => CurPhase(s).InAlt? && ClocksNear(s, ts)
    case Disc(g, c) =>
      (CurPhase(s).AtWait? || CurPhase(s).InDisable?) && c < |s.cs| && (g ==> SoleReader(s, s.curp.value, c))
    case AltEnd =>
      (CurPhase(s).InAlt? || CurPhase(s).AtWait? || CurPhase(s).InDisable?) && AltChans(CurPhase(s)) == {}
    case Par(kids, ts) =>
      CurPhase(s).Plain? && NoDup(kids) && ClocksNear(s, ts)
      && (forall i :: 0 <= i < |kids| ==> kids[i] < |s.ps| && s.ps[kids[i]].phase == Off)
    case End(ts) => CurPhase(s).Plain? && ClocksNear(s, ts)
    case Shutdown => CurPhase(s).Plain?
    case Poke(b, m) => CurPhase(s) != Off && HasBuf(s, b, |m|) && |m| == |s.mem[b]| && Unused(s, b)
  }

  /** What the kernel function of e does, up to its return or its call of ccsp_schedule. */
  function Call(s: State, e: Event): Outcome
    requires Guard(s, e) && Inv(s)
  {
    match e
    case Wake(ts) => Go(s)
    case Out(c, b, n, ts) => ChanOut(s, s.curp.value, c, b, n)
    case In(c, b, n, ts) => ChanIn(s, s.curp.value, c, b, n)
    case Pause(ts) => Leave(LinkProc(s, s.curp.value))
    case Tin(t, now, ts) => TimerIn(s, s.curp.value, t, now)
    case Alt => Stay(AltStart(s, s.curp.value))
    case Enbc(g, c) => Stay(EnableChan(s, s.curp.value, g, c).0)
    case AltWt(ts) => AltWait(s, s.curp.value)
    case Disc(g, c) => Stay(DisableChan(s, s.curp.value, g, c).0)
    case AltEnd => Stay(AltFinish(s, s.curp.value))
    case Par(kids, ts) => ProcPar(s, s.curp.value, kids)
    case End(ts) => EndProc(s, s.curp.value)
    case Shutdown => Stay(s.(status := Finished))
    case Poke(b, m) => Stay(s.(mem := s.mem[b := m]))
  }

  /** The clock readings the scheduler gets to see. */
  function Times(e: Event): seq<int> {
    match e
    case Wake(ts) => ts
    case Out(_, _, _, ts) => ts
    case In(_, _, _, ts) => ts
    case Pause(ts) => ts
    case Tin(_, _, ts) => ts
    case AltWt(ts) => ts
    case Par(_, ts) => ts
    case End(ts) => ts
    case _ => []
  }

  function Step(s: State, e: Event): State
    requires Guard(s, e) && Inv(s)
  {
    Resume(Call(s, e), Times(e))
  }

  /** A kernel function returns in a good state, or calls the scheduler in one. */
  ghost predicate OutcomeOk(o: Outcome) {
    match o
    case Stay(t) => Inv(t)
    case Go(t) => Core(t) && t.curp == None
  }

  // ---- the scheduler keeps the invariant ----

  lemma FireHeadQueues(s: State, now: int)
    requires QueuesOk(s) && s.timerq != []
    ensures QueuesOk(FireHead(s, now))
  {
    NoDupTail(s.timerq);
    NoDupSnoc(s.runq, s.timerq[0]);
  }

  lemma FireHeadCore(s: State, now: int)
    requires Core(s) && s.timerq != []
    ensures Core(FireHead(s, now))
  {
    var t := FireHead(s, now);
    var p := s.timerq[0];
    NoDupTail(s.timerq);
    FireHeadQueues(s, now);
    forall q | 0 <= q < |t.ps| ensures PhaseOk(t, q) { assert PhaseOk(s, q); }
    forall q | 0 <= q < |t.ps| ensures ParentOk(t, q) { assert ParentOk(s, q); }
    forall c | 0 <= c < |t.cs| ensures ChanOk(t, c) { assert ChanOk(s, c); }
  }

  lemma FireHeadNear(s: State, now: int, x: int)
    requires Core(s) && s.timerq != [] && ClockNear(s, x)
    ensures ClockNear(FireHead(s, now), x)
  {
    var t := FireHead(s, now);
    NoDupTail(s.timerq);
    forall i | 0 <= i < |t.timerq| && t.timerq[i] < |t.ps| ensures Near(x, t.ps[t.timerq[i]].due) {
      assert t.timerq[i] == s.timerq[i + 1];
    }
  }

  lemma ProcessTimersCore(s: State, now: int)
    requires Core(s)
    ensures var t := ProcessTimers(s, now);
      Core(t) && t.curp == s.curp && (t.timerq == s.timerq || t.runq != [])
    decreases |s.timerq|
  {
    if s.timerq != [] && Expired(s, s.timerq[0], now) {
      var t := FireHead(s, now);
      FireHeadCore(s, now);
      ProcessTimersCore(t, now);
      ProcessTimersGrows(t, now);
    }
  }

  lemma ProcessTimersGrows(s: State, now: int)
    ensures s.runq <= ProcessTimers(s, now).runq
    decreases |s.timerq|
  {
    if s.timerq != [] && Expired(s, s.timerq[0], now) {
      ProcessTimersGrows(FireHead(s, now), now);
    }
  }

  lemma CoreStatus(s: State, x: Status)
    requires Core(s)
    ensures Core(s.(status := x))
  {
    var t := s.(status := x);
    forall q | 0 <= q < |t.ps| ensures PhaseOk(t, q) { assert PhaseOk(s, q); }
    forall q | 0 <= q < |t.ps| ensures ParentOk(t, q) { assert ParentOk(s, q); }
    forall c | 0 <= c < |t.cs| ensures ChanOk(t, c) { assert ChanOk(s, c); }
  }

  lemma DispatchCore(s: State)
    requires Core(s) && s.curp == None && s.runq != []
    ensures Core(Dispatch(s))
  {
    var t := Dispatch(s);
    NoDupTail(s.runq);
    forall q | 0 <= q < |t.ps| ensures PhaseOk(t, q) { assert PhaseOk(s, q); }
    forall q | 0 <= q < |t.ps| ensures ParentOk(t, q) { assert ParentOk(s, q); }
    forall c | 0 <= c < |t.cs| ensures ChanOk(t, c) { assert ChanOk(s, c); }
  }

  /** From any state in which nobody runs, the scheduler ends in a good state. */
  lemma ScheduleInv(s: State, ts: seq<int>)
    requires Core(s) && s.curp == None
    requires s.timerq == [] || ts != [] || s.runq == []
    ensures Inv(Schedule(s, ts))
    decreases |ts|
  {
    if s.timerq != [] && ts == [] {
      CoreStatus(s, Asleep);
    } else {
      var s1 := if s.timerq != [] then ProcessTimers(s, ts[0]) else s;
      if s.timerq != [] { ProcessTimersCore(s, ts[0]); }
      if s1.runq != [] { DispatchCore(s1); }
      else if s1.timerq == [] { CoreStatus(s1, Deadlock); }
      else { ScheduleInv(s1, ts[1..]); }
    }
  }
}
