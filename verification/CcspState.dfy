/** The state of the ARM/CCSP kernel, seen through process, channel and buffer numbers, and what
    each kernel call does to it.  The pointer structures that store this state are in Kernel.dfy. */
module CcspState {
  import opened Common
  import opened ClockTime

  type Msg = seq<Byte>

  /** The 'pointer' word of a process: the three small sentinels, NULL, or the address of a buffer. */
  datatype Pointer = Null | Enabling | Waiting | Ready | Data(buf: nat)

  /** What a process is doing, as the calls it has made say.  The kernel does not store this. */
  datatype Phase =
    | Off                                             // not started, or ended
    | Plain                                           // between kernel calls
    | Sleeping                                        // on the timer queue
    | Sending(c: nat, buf: nat, n: nat)               // committed in a channel word, output
    | Receiving(c: nat, buf: nat, n: nat)             // committed in a channel word, input
    | InAlt(chans: set<nat>)                          // between Alt and AltWait
    | AtWait(chans: set<nat>)                         // AltWait called, nothing disabled yet
    | InDisable(chans: set<nat>)                      // disabling
    | Joining(kids: set<nat>)                         // stopped at the barrier of its ProcPar

  /** due is the true time whose low 32 bits are in the 'timeout' field; count is the barrier in
      the stack frame of the process's ProcPar; parent is the barrier the process ends on. */
  datatype Proc = Proc(ptr: Pointer, due: int, parent: Option<nat>, count: int, phase: Phase)

  /** A channel word, with the messages offered and delivered so far. */
  datatype Chan = Chan(word: Option<nat>, sent: seq<Msg>, rcvd: seq<Msg>)

  datatype Status = Live | Asleep | Deadlock | Finished | Error | Fault

  datatype State = State(
    curp: Option<nat>, runq: seq<nat>, timerq: seq<nat>,
    ps: seq<Proc>, cs: seq<Chan>, mem: seq<Msg>, status: Status)

  /** One kernel call of the current process, or the clock waking an idle scheduler.  ts holds the
      clock readings the scheduler makes before it finds a process to run. */
  datatype Event =
    | Out(c: nat, buf: nat, n: nat, ts: seq<int>)
    | In(c: nat, buf: nat, n: nat, ts: seq<int>)
    | Pause(ts: seq<int>)
    | Tin(t: int, now: int, ts: seq<int>)
    | Alt
    | Enbc(guard: bool, c: nat)
    | AltWt(ts: seq<int>)
    | Disc(guard: bool, c: nat)
    | AltEnd
    | Par(kids: seq<nat>, ts: seq<int>)
    | End(ts: seq<int>)
    | Shutdown
    | Poke(buf: nat, m: Msg)
    | Wake(ts: seq<int>)

  predicate AllBelow(q: seq<nat>, n: nat) {
    forall i :: 0 <= i < |q| ==> q[i] < n
  }

  function Elems(q: seq<nat>): set<nat> {
    set k | k in q
  }

  // ---- pieces of kernel calls ----

  function SetPtr(s: State, p: nat, v: Pointer): State
    requires p < |s.ps|
  {
    s.(ps := s.ps[p := s.ps[p].(ptr := v)])
  }

  function SetPhase(s: State, p: nat, ph: Phase): State
    requires p < |s.ps|
  {
    s.(ps := s.ps[p := s.ps[p].(phase := ph)])
  }

  function SetWord(s: State, c: nat, w: Option<nat>): State
    requires c < |s.cs|
  {
    s.(cs := s.cs[c := s.cs[c].(word := w)])
  }

  function LinkProc(s: State, p: nat): State {
    s.(runq := s.runq + [p])
  }

  /** memcpy between two whole buffers of which the first n bytes are meant. */
  function Copied(dst: Msg, src: Msg, n: nat): Msg
    requires n <= |src| && n <= |dst|
  {
    src[..n] + dst[n..]
  }

  function CopyBuf(s: State, dst: nat, src: nat, n: nat): State {
    if dst < |s.mem| && src < |s.mem| && n <= |s.mem[dst]| && n <= |s.mem[src]| then
      s.(mem := s.mem[dst := Copied(s.mem[dst], s.mem[src], n)])
    else
      s.(status := Fault)
  }

  function Offer(s: State, c: nat, m: Msg): State
    requires c < |s.cs|
  {
    s.(cs := s.cs[c := s.cs[c].(sent := s.cs[c].sent + [m])])
  }

  function Deliver(s: State, c: nat, m: Msg): State
    requires c < |s.cs|
  {
    s.(cs := s.cs[c := s.cs[c].(rcvd := s.cs[c].rcvd + [m])])
  }

  function Content(s: State, buf: nat, n: nat): Msg {
    if buf < |s.mem| && n <= |s.mem[buf]| then s.mem[buf][..n] else []
  }

  // ---- scheduling ----

  function Expired(s: State, p: nat, now: int): bool {
    p < |s.ps| && TimeAfter(Low32(now), Low32(s.ps[p].due))
  }

  /** Move the head of the timer queue to the run queue. */
  function FireHead(s: State, now: int): State
    requires s.timerq != [] && s.timerq[0] < |s.ps|
  {
    var p := s.timerq[0];
    s.(runq := s.runq + [p],
       timerq := s.timerq[1..],
       ps := s.ps[p := s.ps[p].(due := now, phase := Plain)])
  }

  function ProcessTimers(s: State, now: int): State
    decreases |s.timerq|
  {
    if s.timerq != [] && Expired(s, s.timerq[0], now) then ProcessTimers(FireHead(s, now), now) else s
  }

  function Dispatch(s: State): State
    requires s.runq != []
  {
    s.(curp := Some(s.runq[0]), runq := s.runq[1..], status := Live)
  }

  /** The scheduler loop, as far as the clock readings ts take it. */
  function Schedule(s: State, ts: seq<int>): State
    decreases |ts|
  {
    if s.timerq != [] && ts == [] then s.(status := Asleep)
    else
      var s1 := if s.timerq != [] then ProcessTimers(s, ts[0]) else s;
      if s1.runq != [] then Dispatch(s1)
      else if s1.timerq == [] then s1.(status := Deadlock)
      else Schedule(s1, ts[1..])
  }

  /** How a kernel function ends: it returns to the calling process, or it goes into ccsp_schedule and
      never comes back; the process has saved its context and nobody runs. */
  datatype Outcome = Stay(s: State) | Go(s: State)

  function Leave(s: State): Outcome {
    Go(s.(curp := None))
  }

  function Resume(o: Outcome, ts: seq<int>): State {
    match o
    case Stay(s) => s
    case Go(s) => Schedule(s, ts)
  }

  // ---- channel input and output ----

  /** Commit the current process in the channel word and reschedule. */
  function Commit(s: State, p: nat, c: nat, buf: nat, ph: Phase): State
    requires p < |s.ps| && c < |s.cs|
  {
    SetWord(SetPhase(SetPtr(s, p, Data(buf)), p, ph), c, Some(p))
  }

  /** What ccsp_chanout finds in the channel word decides: nothing, or an ALTer that is enabling or
      already ready, or one that waits, or the inputter. */
  function ChanOut(s: State, p: nat, c: nat, buf: nat, n: nat): Outcome
    requires p < |s.ps| && c < |s.cs|
  {
    var s0 := Offer(s, c, Content(s, buf, n));
    match s.cs[c].word
    case None => Leave(Commit(s0, p, c, buf, Sending(c, buf, n)))
    case Some(q) =>
      if q >= |s.ps| then Stay(s.(status := Fault))
      else match s.ps[q].ptr
        case Enabling => Leave(Commit(SetPtr(s0, q, Ready), p, c, buf, Sending(c, buf, n)))
        case Ready => Leave(Commit(SetPtr(s0, q, Ready), p, c, buf, Sending(c, buf, n)))
        case Waiting => Leave(Commit(LinkProc(SetPtr(s0, q, Ready), q), p, c, buf, Sending(c, buf, n)))
        case Data(dst) =>
          Stay(Deliver(SetWord(SetPhase(LinkProc(CopyBuf(s0, dst, buf, n), q), q, Plain), c, None),
                c, Content(s, buf, n)))
        case Null => Stay(s.(status := Fault))
  }

  function ChanIn(s: State, p: nat, c: nat, buf: nat, n: nat): Outcome
    requires p < |s.ps| && c < |s.cs|
  {
    match s.cs[c].word
    case None => Leave(Commit(s, p, c, buf, Receiving(c, buf, n)))
    case Some(q) =>
      if q >= |s.ps| then Stay(s.(status := Fault))
      else match s.ps[q].ptr
        case Data(src) =>
          Stay(Deliver(SetWord(SetPhase(LinkProc(CopyBuf(s, buf, src, n), q), q, Plain), c, None),
                c, Content(s, src, n)))
        case _ => Stay(s.(status := Fault))
  }

  /** TestChan: is there a process in the channel word? */
  function TestChan(s: State, c: nat): bool
    requires c < |s.cs|
  {
    s.cs[c].word.Some?
  }

  // ---- alternatives ----

  function AltStart(s: State, p: nat): State
    requires p < |s.ps|
  {
    SetPhase(SetPtr(s, p, Enabling), p, InAlt({}))
  }

  function AltChans(ph: Phase): set<nat> {
    match ph
    case InAlt(e) => e
    case AtWait(e) => e
    case InDisable(e) => e
    case _ => {}
  }

  function EnableChan(s: State, p: nat, guard: bool, c: nat): (r: (State, bool))
    requires p < |s.ps| && c < |s.cs|
  {
    if !guard then (s, false)
    else
      var s0 := SetPhase(s, p, InAlt(AltChans(s.ps[p].phase) + {c}));
      if s.cs[c].word == None then (SetWord(s0, c, Some(p)), true)
      else if s.cs[c].word == Some(p) then (s0, true)
      else (SetPtr(s0, p, Ready), true)
  }

  function AltWait(s: State, p: nat): Outcome
    requires p < |s.ps|
  {
    var s0 := SetPhase(s, p, AtWait(AltChans(s.ps[p].phase)));
    if s.ps[p].ptr == Enabling then Leave(SetPtr(s0, p, Waiting)) else Stay(s0)
  }

  function DisableChan(s: State, p: nat, guard: bool, c: nat): (r: (State, bool))
    requires p < |s.ps| && c < |s.cs|
  {
    if !guard then (s, false)
    else
      var s0 := SetPhase(s, p, InDisable(AltChans(s.ps[p].phase) - {c}));
      if s.cs[c].word == Some(p) then (SetWord(s0, c, None), false)
      else if s.cs[c].word == None then (s0, false)
      else (s0, true)
  }

  function AltFinish(s: State, p: nat): State
    requires p < |s.ps|
  {
    SetPhase(SetPtr(s, p, Null), p, Plain)
  }

  // ---- timers ----

  /** The element behind which the walk along the timer queue stops, starting from the i-th: the walk
      goes on while there is a next process and its time is strictly earlier than p's. */
  function WalkTo(s: State, q: seq<nat>, p: nat, i: nat): (w: nat)
    requires p < |s.ps| && AllBelow(q, |s.ps|) && i < |q|
    ensures i <= w < |q|
    decreases |q| - i
  {
    if i + 1 < |q| && TimeAfter(Low32(s.ps[p].due), Low32(s.ps[q[i + 1]].due)) then WalkTo(s, q, p, i + 1) else i
  }

  /** Where ccsp_tin puts a process: in front of a strictly later front, otherwise behind the walk. */
  function TimerSlot(s: State, q: seq<nat>, p: nat): (k: nat)
    requires p < |s.ps| && AllBelow(q, |s.ps|)
    ensures k <= |q|
  {
    if q == [] || TimeAfter(Low32(s.ps[q[0]].due), Low32(s.ps[p].due)) then 0 else WalkTo(s, q, p, 0) + 1
  }

  function InsertTimer(s: State, q: seq<nat>, p: nat): seq<nat>
    requires p < |s.ps| && AllBelow(q, |s.ps|)
  {
    var k := TimerSlot(s, q, p);
    q[..k] + [p] + q[k..]
  }

  function TimerIn(s: State, p: nat, t: int, now: int): Outcome
    requires p < |s.ps| && AllBelow(s.timerq, |s.ps|)
  {
    var s0 := s.(ps := s.ps[p := s.ps[p].(due := t)]);
    if TimeAfter(Low32(now), Low32(t)) then Stay(s0)
    else Leave(SetPhase(s0.(timerq := InsertTimer(s0, s.timerq, p)), p, Sleeping))
  }

  // ---- processes ----

  function StartKid(s: State, p: nat, k: nat): State
    requires k < |s.ps|
  {
    LinkProc(s.(ps := s.ps[k := s.ps[k].(parent := Some(p), phase := Plain)]), k)
  }

  function StartKids(s: State, p: nat, kids: seq<nat>): State
    requires AllBelow(kids, |s.ps|)
    ensures |StartKids(s, p, kids).ps| == |s.ps|
    decreases |kids|
  {
    if kids == [] then s else StartKid(StartKids(s, p, kids[..|kids|-1]), p, kids[|kids|-1])
  }

  /** ProcPar: initialise the barrier, start every child, wait unless there is none. */
  function ProcPar(s: State, p: nat, kids: seq<nat>): Outcome
    requires p < |s.ps| && AllBelow(kids, |s.ps|)
  {
    var s0 := s.(ps := s.ps[p := s.ps[p].(count := |kids|)]);
    var s1 := StartKids(s0, p, kids);
    if |kids| == 0 then Stay(s1) else Leave(SetPhase(s1, p, Joining(Elems(kids))))
  }

  /** The end of ProcStartupCode. */
  function EndProc(s: State, p: nat): Outcome
    requires p < |s.ps|
  {
    match s.ps[p].parent
    case None => Stay(s.(status := Error))
    case Some(q) =>
      if q >= |s.ps| || !s.ps[q].phase.Joining? then Stay(s.(status := Fault))
      else
        var n := s.ps[q].count - 1;
        var s0 := SetPhase(s.(ps := s.ps[q := s.ps[q].(count := n,
                                 phase := Joining(s.ps[q].phase.kids - {p}))]), p, Off);
        Leave(if n == 0 then SetPhase(LinkProc(s0, q), q, Plain) else s0)
  }
}
