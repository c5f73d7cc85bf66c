/** The kernel as it is written: process descriptors linked through their own fields, one-word
    channels, a scheduler record with front, back and timer pointers, all updated in place.  Every
    method is proved against the kernel call of CcspState it implements. */
module Kernel {
  import opened Common
  import opened ClockTime
  import S = CcspState
  import I = CcspInv
  import R = CcspRuns
  import A = CcspAlt
  import T = CcspTheorems
  import Z = CcspTimers

  /** The 'pointer' word: NULL, one of the three sentinels, or a buffer address. */
  datatype Pointer = Null | Enabling | Waiting | Ready | Data(buf: Buffer)

  class Buffer {
    const id: nat
    var bytes: S.Msg

    constructor (id: nat, bytes: S.Msg)
      ensures this.id == id && this.bytes == bytes
    {
      this.id, this.bytes := id, bytes;
    }
  }

  class Channel {
    const id: nat
    var word: Process?

    constructor (id: nat)
      ensures this.id == id && word == null
    {
      this.id, word := id, null;
    }
  }

  /** ccsp_pws_t, without the fields that hold the saved machine context.  A process makes one ProcPar
      call at a time, so the LightProcBarrier in the stack frame of that call is kept with the process,
      as barSucc and barCount, and pbar names the process whose barrier it is. */
  class Process {
    const id: nat
    var link: Process?
    var pointer: Pointer
    var tlink: Process?
    var timeout: Int32
    var pbar: Process?
    var barSucc: Process?
    var barCount: int

    constructor (id: nat)
      ensures this.id == id && link == null && pointer == Null && tlink == null && timeout == 0
      ensures pbar == null && barSucc == null && barCount == 0
    {
      this.id, link, pointer, tlink, timeout := id, null, Null, null, 0;
      pbar, barSucc, barCount := null, null, 0;
    }
  }

  /** ccsp_sched_t, with the abstract state it stores. */
  class Sched {
    var curp: Process?
    var fptr: Process?
    var bptr: Process?
    var tptr: Process?
    ghost var st: S.State
    ghost const procs: seq<Process>
    ghost const chans: seq<Channel>
    ghost const bufs: seq<Buffer>

    ghost predicate Ids() {
      && (forall i :: 0 <= i < |procs| ==> procs[i].id == i)
      && (forall i :: 0 <= i < |chans| ==> chans[i].id == i)
      && (forall i :: 0 <= i < |bufs| ==> bufs[i].id == i)
    }

    ghost predicate Known(p: Process) { p.id < |procs| && procs[p.id] == p }

    /** The process q of the abstract state, as a pointer. */
    ghost predicate Is(p: Process?, q: Option<nat>) {
      match q
      case None => p == null
      case Some(i) => p != null && i < |procs| && p == procs[i]
    }

    ghost predicate SamePtr(x: Pointer, y: S.Pointer) {
      match x
      case Null => y == S.Null
      case Enabling => y == S.Enabling
      case Waiting => y == S.Waiting
      case Ready => y == S.Ready
      case Data(b) => y.Data? && y.buf < |bufs| && bufs[y.buf] == b
    }

    ghost predicate Procs(ps: seq<S.Proc>)
      reads procs`pointer, procs`timeout, procs`pbar, procs`barSucc, procs`barCount
    {
      |ps| == |procs| &&
      forall i :: 0 <= i < |procs| ==> Stored(procs[i], ps[i])
    }

    /** The descriptor p stores the abstract process x: its pointer word, the low 32 bits of its time,
        the barrier it ends on, and its own barrier. */
    ghost predicate Stored(p: Process, x: S.Proc)
      reads p`pointer, p`timeout, p`pbar, p`barSucc, p`barCount
    {
      && SamePtr(p.pointer, x.ptr) && p.timeout == Low32(x.due) && Is(p.pbar, x.parent)
      && p.barCount == x.count && (x.count != 0 ==> p.barSucc == p)
    }

    ghost predicate Words(cs: seq<S.Chan>)
      reads chans`word
    {
      |cs| == |chans| && forall c :: 0 <= c < |chans| ==> Is(chans[c].word, cs[c].word)
    }

    ghost predicate Bytes(mem: seq<S.Msg>)
      reads bufs`bytes
    {
      |mem| == |bufs| && forall b :: 0 <= b < |bufs| ==> bufs[b].bytes == mem[b]
    }

    /** f, b and the link fields spell out the run queue q; b may be stale when q is empty. */
    ghost predicate RunChain(q: seq<nat>, f: Process?, b: Process?)
      reads procs`link
    {
      && NoDup(q) && S.AllBelow(q, |procs|)
      && f == (if q == [] then null else procs[q[0]])
      && (q != [] ==> b == procs[q[|q| - 1]] && procs[q[|q| - 1]].link == null)
      && (forall i :: 0 <= i < |q| - 1 ==> procs[q[i]].link == procs[q[i + 1]])
    }

    /** t and the tlink fields spell out the timer queue q. */
    ghost predicate TimerChain(q: seq<nat>, t: Process?)
      reads procs`tlink
    {
      && NoDup(q) && S.AllBelow(q, |procs|)
      && t == (if q == [] then null else procs[q[0]])
      && (q != [] ==> procs[q[|q| - 1]].tlink == null)
      && (forall i :: 0 <= i < |q| - 1 ==> procs[q[i]].tlink == procs[q[i + 1]])
    }

    ghost predicate Valid()
      reads this, procs, chans, bufs
    {
      var fields, words, bytes := Procs(st.ps), Words(st.cs), Bytes(st.mem);
      var run, timer := RunChain(st.runq, fptr, bptr), TimerChain(st.timerq, tptr);
      Ids() && fields && words && bytes && run && timer && (st.curp.Some? ==> Is(curp, st.curp))
    }

    /** The state before ccsp_first: nothing queued, every descriptor blank, every channel initialised. */
    static ghost function Blank(n: nat, m: nat, bs: seq<Buffer>): S.State
      reads bs
    {
      S.State(None, [], [],
        seq(n, i => S.Proc(S.Null, 0, None, 0, if i == 0 then S.Plain else S.Off)),
        seq(m, i => S.Chan(None, [], [])),
        seq(|bs|, i requires 0 <= i < |bs| reads bs => bs[i].bytes), S.Live)
    }

    /** ccsp_initsched, and ccsp_first for the first process: it is linked and then runs. */
    constructor First(ps: seq<Process>, cs: seq<Channel>, bs: seq<Buffer>)
      requires |ps| > 0 && forall i :: 0 <= i < |ps| ==>
        ps[i].id == i && ps[i].link == null && ps[i].pointer == Null && ps[i].tlink == null && ps[i].timeout == 0
        && ps[i].pbar == null && ps[i].barCount == 0
      requires forall i :: 0 <= i < |cs| ==> cs[i].id == i && cs[i].word == null
      requires forall i :: 0 <= i < |bs| ==> bs[i].id == i
      modifies ps
      ensures Valid() && T.Start(st) && curp == ps[0]
    {
      procs, chans, bufs := ps, cs, bs;
      curp, fptr, bptr, tptr := null, null, null, null;
      st := Blank(|ps|, |cs|, bs);
      new;
      Low32Small(0);
      LinkProc(ps[0]);
      Dispatch();
    }

    // ---- queues ----

    /** ccsp_linkproc: add at the back.  The abstract state is left to the caller. */
    method LinkFields(p: Process, ghost q: seq<nat>)
      requires Ids() && Known(p) && p.id !in q && RunChain(q, fptr, bptr)
      modifies this`fptr, this`bptr, procs`link
      ensures RunChain(q + [p.id], fptr, bptr)
    {
      p.link := null;
      if fptr == null {
        fptr := p;
      } else {
        bptr.link := p;
      }
      bptr := p;
      NoDupSnoc(q, p.id);
    }

    method LinkProc(p: Process)
      requires Valid() && Known(p) && p.id !in st.runq
      modifies this`fptr, this`bptr, this`st, procs`link
      ensures Valid() && st == S.LinkProc(old(st), p.id)
    {
      LinkFields(p, st.runq);
      st := S.LinkProc(st, p.id);
    }

    /** The tail of ccsp_schedule: take the front process and make it the current one. */
    method Dispatch()
      requires Valid() && st.runq != []
      modifies this`fptr, this`curp, this`st
      ensures Valid() && st == S.Dispatch(old(st))
    {
      curp := fptr;
      if fptr == bptr {
        fptr := null;
      } else {
        fptr := fptr.link;
      }
      st := S.Dispatch(st);
    }

    /** ccsp_processtimers, with the clock reading now. */
    method ProcessTimers(now: int)
      requires Valid() && I.Core(st)
      modifies this`fptr, this`bptr, this`tptr, this`st, procs`link, procs`timeout
      ensures Valid() && st == S.ProcessTimers(old(st), now) && I.Core(st)
    {
      while tptr != null && TimeAfter(Low32(now), tptr.timeout)
        invariant Valid() && I.Core(st)
        invariant S.ProcessTimers(st, now) == S.ProcessTimers(old(st), now)
        decreases |st.timerq|
      {
        ghost var s0 := st;
        assert st.timerq[0] !in st.runq;
        FireFront(now);
        I.FireHeadCore(s0, now);
      }
    }

    /** Drop the front of the timer queue; its tlink keeps its old value. */
    method UnlinkFront()
      requires Valid() && st.timerq != []
      modifies this`tptr, this`st
      ensures Valid() && st == old(st).(timerq := old(st).timerq[1..])
    {
      tptr := tptr.tlink;
      NoDupTail(st.timerq);
      st := st.(timerq := st.timerq[1..]);
    }

    method SetTimeout(p: Process, t: int)
      requires Valid() && Known(p)
      modifies this`st, p`timeout
      ensures Valid() && st == old(st).(ps := old(st).ps[p.id := old(st).ps[p.id].(due := t)])
    {
      p.timeout := Low32(t);
      st := st.(ps := st.ps[p.id := st.ps[p.id].(due := t)]);
    }

    /** The phase is not stored. */
    lemma ProcsSame(ps: seq<S.Proc>, qs: seq<S.Proc>)
      requires Procs(qs) && |ps| == |qs|
      requires forall i :: 0 <= i < |ps| ==> ps[i] == qs[i].(phase := ps[i].phase)
      ensures Procs(ps)
    {
    }

    /** The timer pointer is the process at the front. */
    lemma TimerFront()
      requires Valid() && st.timerq != []
      ensures tptr != null && Known(tptr) && tptr.id == st.timerq[0] < |st.ps|
    {
    }

    /** One round of the loop: the front of the timer queue goes to the back of the run queue. */
    method FireFront(now: int)
      requires Valid() && st.timerq != [] && st.timerq[0] !in st.runq
      modifies this`fptr, this`bptr, this`tptr, this`st, procs`link, procs`timeout
      ensures Valid() && st == S.FireHead(old(st), now)
    {
      hide Valid;
      TimerFront();
      var p := tptr;
      LinkProc(p);
      SetTimeout(p, now);
      UnlinkFront();
      SetPhase(p, S.Plain);
    }

    /** Nobody runs, and the invariant holds but for that. */
    ghost predicate Idle()
      reads this
    {
      var core := I.Core(st);
      core && st.curp == None
    }

    /** The length of the sleep, when somebody waits for a time. */
    method SleepTime(now: int) returns (sleep: Option<(int, int)>)
      requires Valid() && tptr != null
      ensures st.timerq != [] && st.timerq[0] < |st.ps| && sleep == Z.SleepFor(st, now)
    {
      var next := Low32(tptr.timeout - Low32(now));
      sleep := if next > 0 then Some((next / Z.MICROS, next % Z.MICROS)) else None;
    }

    /** One pass of ccsp_schedule from its restart label; again says whether to go back to the label, after
        sleeping as long as sleep says.  now is the clock at the time of that decision. */
    method Pass(ts: seq<int>, now: int) returns (again: bool, sleep: Option<(int, int)>)
      requires Valid() && Idle()
      modifies this`fptr, this`bptr, this`tptr, this`curp, this`st, procs`link, procs`timeout
      ensures Valid()
      ensures !again ==> st == S.Schedule(old(st), ts)
      ensures again ==> ts != [] && Idle() && S.Schedule(old(st), ts) == S.Schedule(st, ts[1..])
      ensures again ==> st.timerq != [] && st.timerq[0] < |st.ps| && sleep == Z.SleepFor(st, now)
    {
      hide I.Core;
      again, sleep := false, None;
      if tptr != null {
        if ts == [] {
          st := st.(status := S.Asleep);
          return;
        }
        I.ProcessTimersCore(st, ts[0]);
        ProcessTimers(ts[0]);
      }
      if fptr == null {
        if tptr == null {
          st := st.(status := S.Deadlock);
        } else {
          sleep := SleepTime(now);
          again := true;
        }
      } else {
        Dispatch();
      }
    }

    /** ccsp_schedule, as far as the clock readings ts take it; without a further reading it sleeps. */
    method Schedule(ts: seq<int>)
      requires Valid() && Idle()
      modifies this`fptr, this`bptr, this`tptr, this`curp, this`st, procs`link, procs`timeout
      ensures Valid() && st == S.Schedule(old(st), ts)
    {
      var rest := ts;
      var now: int := *;
      var again, sleep := Pass(rest, now);
      while again
        invariant Valid()
        invariant !again ==> st == S.Schedule(old(st), ts)
        invariant again ==> rest != [] && Idle() && S.Schedule(old(st), ts) == S.Schedule(st, rest[1..])
        decreases |rest|, again
      {
        rest := rest[1..];
        now := *;
        again, sleep := Pass(rest, now);
      }
    }

    /** A kernel function that goes into the scheduler leaves a good state behind. */
    static ghost predicate Leaves(o: S.Outcome) {
      var core := I.Core(o.s);
      o.Go? ==> core && o.s.curp == None
    }

    /** The current process is done with its call o, and somebody else runs. */
    method Leave(ts: seq<int>, ghost o: S.Outcome)
      requires Valid() && o == S.Leave(st) && Leaves(o)
      modifies this`fptr, this`bptr, this`tptr, this`curp, this`st, procs`link, procs`timeout
      ensures Valid() && st == S.Resume(o, ts)
    {
      st := st.(curp := None);
      Schedule(ts);
    }

    // ---- channel input and output ----

    ghost predicate KnownChan(c: Channel) { c.id < |chans| && chans[c.id] == c }

    ghost predicate KnownBuf(b: Buffer) { b.id < |bufs| && bufs[b.id] == b }

    method SetPointer(p: Process, v: Pointer, ghost w: S.Pointer)
      requires Valid() && Known(p) && SamePtr(v, w)
      modifies this`st, p`pointer
      ensures Valid() && st == S.SetPtr(old(st), p.id, w)
    {
      p.pointer := v;
      st := S.SetPtr(st, p.id, w);
    }

    method SetWord(c: Channel, w: Process?, ghost v: Option<nat>)
      requires Valid() && KnownChan(c) && Is(w, v)
      modifies this`st, c`word
      ensures Valid() && st == S.SetWord(old(st), c.id, v)
    {
      c.word := w;
      st := S.SetWord(st, c.id, v);
    }

    /** The phase of a process is not stored anywhere. */
    ghost method SetPhase(p: Process, ph: S.Phase)
      requires Valid() && Known(p)
      modifies this`st
      ensures Valid() && st == S.SetPhase(old(st), p.id, ph)
    {
      ProcsSame(S.SetPhase(st, p.id, ph).ps, st.ps);
      st := S.SetPhase(st, p.id, ph);
    }

    /** Only the word of a channel is stored. */
    lemma WordsSame(cs: seq<S.Chan>, ds: seq<S.Chan>)
      requires Words(ds) && |cs| == |ds| && forall i :: 0 <= i < |cs| ==> cs[i].word == ds[i].word
      ensures Words(cs)
    {
    }

    /** The messages counted on a channel are not stored. */
    ghost method Count(cs: seq<S.Chan>)
      requires Valid() && |cs| == |st.cs| && forall i :: 0 <= i < |cs| ==> cs[i].word == st.cs[i].word
      modifies this`st
      ensures Valid() && st == old(st).(cs := cs)
    {
      WordsSame(cs, st.cs);
      st := st.(cs := cs);
    }

    method ClearLink(p: Process)
      requires Valid() && Known(p) && p.id !in st.runq
      modifies p`link
      ensures Valid()
    {
      p.link := null;
    }

    /** The current process p leaves itself in the channel word. */
    method Commit(p: Process, c: Channel, data: Buffer, ghost ph: S.Phase)
      requires Valid() && Known(p) && KnownChan(c) && KnownBuf(data) && p.id !in st.runq
      modifies this`st, p`pointer, p`link, c`word
      ensures Valid() && st == S.Commit(old(st), p.id, c.id, data.id, ph)
    {
      SetPointer(p, Data(data), S.Data(data.id));
      ClearLink(p);
      SetPhase(p, ph);
      SetWord(c, p, Some(p.id));
    }

    /** memcpy of the first n bytes. */
    method Copy(dst: Buffer, src: Buffer, n: nat)
      requires Valid() && KnownBuf(dst) && KnownBuf(src) && n <= |dst.bytes| && n <= |src.bytes|
      modifies this`st, dst`bytes
      ensures Valid() && st == S.CopyBuf(old(st), dst.id, src.id, n)
    {
      dst.bytes := S.Copied(dst.bytes, src.bytes, n);
      st := S.CopyBuf(st, dst.id, src.id, n);
    }

    /** The process found in the channel word goes back on the run queue and the word is cleared. */
    method Release(other: Process, c: Channel, ghost m: S.Msg)
      requires Valid() && Known(other) && KnownChan(c) && other.id !in st.runq
      modifies this`fptr, this`bptr, this`st, procs`link, c`word
      ensures Valid()
      ensures st
        == S.Deliver(S.SetWord(S.SetPhase(S.LinkProc(old(st), other.id), other.id, S.Plain), c.id, None), c.id, m)
    {
      LinkProc(other);
      SetPhase(other, S.Plain);
      SetWord(c, null, None);
      Count(S.Deliver(st, c.id, m).cs);
    }

    /** The call e is due: the discipline allows it, and p is the running process. */
    ghost predicate Entry(p: Process, e: S.Event)
      reads this, procs, chans, bufs
    {
      Valid() && I.Inv(st) && I.Guard(st, e) && Known(p) && st.curp == Some(p.id)
    }

    /** The outputter p finds the ALTer other in the channel word: make it ready, wake it if it waits,
        and stay in the word. */
    method OutToAlter(p: Process, other: Process, c: Channel, data: Buffer, ghost ph: S.Phase)
      requires Valid() && Known(p) && KnownChan(c) && KnownBuf(data) && Known(other) && p != other
      requires p.id !in st.runq && (other.pointer == Waiting ==> other.id !in st.runq)
      modifies this`fptr, this`bptr, this`st, procs`link, procs`pointer, c`word
      ensures Valid()
      ensures old(other.pointer) != Waiting ==>
        st == S.Commit(S.SetPtr(old(st), other.id, S.Ready), p.id, c.id, data.id, ph)
      ensures old(other.pointer) == Waiting ==>
        st == S.Commit(S.LinkProc(S.SetPtr(old(st), other.id, S.Ready), other.id), p.id, c.id, data.id, ph)
    {
      var waiting := other.pointer == Waiting;
      SetPointer(other, Ready, S.Ready);
      if waiting { LinkProc(other); }
      Commit(p, c, data, ph);
    }

    /** Copy the message to the inputter that waits, and release it. */
    method Serve(other: Process, c: Channel, data: Buffer, n: nat, ghost m: S.Msg)
      requires Valid() && Known(other) && KnownChan(c) && KnownBuf(data) && other.id !in st.runq && other.pointer.Data?
      requires KnownBuf(other.pointer.buf) && n <= |data.bytes| && n <= |other.pointer.buf.bytes|
      modifies this`fptr, this`bptr, this`st, procs`link, c`word, bufs`bytes
      ensures Valid()
      ensures var s := S.CopyBuf(old(st), old(other.pointer.buf.id), data.id, n);
        st == S.Deliver(S.SetWord(S.SetPhase(S.LinkProc(s, other.id), other.id, S.Plain), c.id, None), c.id, m)
    {
      Copy(other.pointer.buf, data, n);
      Release(other, c, m);
    }

    /** What a channel word, a pointer word and a buffer say. */
    lemma WordSays(c: Channel)
      requires Valid() && KnownChan(c)
      ensures c.id < |st.cs| && st.cs[c.id].word == if c.word == null then None else Some(c.word.id)
      ensures c.word != null ==> Known(c.word) && c.word.id < |st.ps|
    {
    }

    lemma PointerSays(p: Process)
      requires Valid() && Known(p)
      ensures p.id < |st.ps| && SamePtr(p.pointer, st.ps[p.id].ptr)
      ensures p.pointer.Data? ==> KnownBuf(p.pointer.buf) && st.ps[p.id].ptr == S.Data(p.pointer.buf.id)
    {
    }

    lemma BufferSays(b: Buffer)
      requires Valid() && KnownBuf(b)
      ensures b.id < |st.mem| && st.mem[b.id] == b.bytes
    {
    }

    /** The cases of ccsp_chanout. */
    static lemma OutIs(s: S.State, p: nat, c: nat, b: nat, n: nat)
      requires p < |s.ps| && c < |s.cs| && (s.cs[c].word.Some? ==> s.cs[c].word.value < |s.ps|)
      ensures var s0, m, o, ph := S.Offer(s, c, S.Content(s, b, n)), S.Content(s, b, n),
          S.ChanOut(s, p, c, b, n), S.Sending(c, b, n);
        match s.cs[c].word
        case None => o == S.Leave(S.Commit(s0, p, c, b, ph))
        case Some(q) =>
          && (s.ps[q].ptr in {S.Enabling, S.Ready} ==> o == S.Leave(S.Commit(S.SetPtr(s0, q, S.Ready), p, c, b, ph)))
          && (s.ps[q].ptr == S.Waiting ==> o == S.Leave(S.Commit(S.LinkProc(S.SetPtr(s0, q, S.Ready), q), p, c, b, ph)))
          && (s.ps[q].ptr.Data? ==> o == S.Stay(S.Deliver(S.SetWord(S.SetPhase(
               S.LinkProc(S.CopyBuf(s0, s.ps[q].ptr.buf, b, n), q), q, S.Plain), c, None), c, m)))
    {
    }

    /** ccsp_chanout, given what the invariant says of the process in the channel word. */
    method ChanOutBody(p: Process, c: Channel, data: Buffer, n: nat, ts: seq<int>)
      requires Valid() && Known(p) && KnownChan(c) && KnownBuf(data) && p.id !in st.runq
      requires MeetsOut(st, p.id, c.id, data.id, n) && Leaves(S.ChanOut(st, p.id, c.id, data.id, n))
      modifies this, procs, chans`word, bufs`bytes
      ensures Valid() && st == S.Resume(S.ChanOut(old(st), p.id, c.id, data.id, n), ts)
    {
      hide Valid, Leaves, S.ChanOut, S.Commit, S.SetPtr, S.LinkProc, S.CopyBuf, S.Deliver, S.Leave;
      ghost var s0, m, ph := st, S.Content(st, data.id, n), S.Sending(c.id, data.id, n);
      WordSays(c);
      BufferSays(data);
      OutIs(s0, p.id, c.id, data.id, n);
      Count(S.Offer(st, c.id, m).cs);
      if c.word == null {
        Commit(p, c, data, ph);
        Leave(ts, S.ChanOut(s0, p.id, c.id, data.id, n));
      } else {
        var other := c.word;
        var ddest := other.pointer;
        PointerSays(other);
        if ddest == Enabling || ddest == Ready || ddest == Waiting {
          OutToAlter(p, other, c, data, ph);
          Leave(ts, S.ChanOut(s0, p.id, c.id, data.id, n));
        } else {
          BufferSays(ddest.buf);
          Serve(other, c, data, n, m);
        }
      }
    }

    /** What an outputter can find in a channel word: nothing, an ALTer, or an inputter whose buffer has
        room; another process, which is not on the run queue unless it is a ready ALTer. */
    static ghost predicate MeetsOut(s: S.State, p: nat, c: nat, b: nat, n: nat) {
      && p < |s.ps| && c < |s.cs| && I.HasBuf(s, b, n)
      && (s.cs[c].word.Some? ==>
            var q := s.cs[c].word.value;
            q < |s.ps| && q != p && s.ps[q].ptr != S.Null
            && (s.ps[q].ptr == S.Waiting ==> q !in s.runq)
            && (s.ps[q].ptr.Data? ==> q !in s.runq && I.HasBuf(s, s.ps[q].ptr.buf, n)))
    }

    static lemma OutMeets(s: S.State, e: S.Event)
      requires I.Inv(s) && I.Guard(s, e) && e.Out?
      ensures MeetsOut(s, s.curp.value, e.c, e.buf, e.n)
    {
      assert I.ChanOk(s, e.c);
      if s.cs[e.c].word.Some? { assert I.PhaseOk(s, s.cs[e.c].word.value); }
    }

    /** ccsp_chanout. */
    method ChanOut(p: Process, c: Channel, data: Buffer, n: nat, ts: seq<int>)
      requires KnownChan(c) && KnownBuf(data) && Entry(p, S.Out(c.id, data.id, n, ts))
      modifies this, procs, chans`word, bufs`bytes
      ensures Valid() && st == I.Step(old(st), S.Out(c.id, data.id, n, ts))
    {
      R.CallInv(st, S.Out(c.id, data.id, n, ts));
      OutMeets(st, S.Out(c.id, data.id, n, ts));
      ChanOutBody(p, c, data, n, ts);
    }

    /** What an inputter can find in a channel word: nothing, or an outputter whose buffer is long enough. */
    static ghost predicate MeetsIn(s: S.State, p: nat, c: nat, b: nat, n: nat) {
      && p < |s.ps| && c < |s.cs| && I.HasBuf(s, b, n)
      && (s.cs[c].word.Some? ==>
            var q := s.cs[c].word.value;
            q < |s.ps| && q != p && q !in s.runq && s.ps[q].ptr.Data? && I.HasBuf(s, s.ps[q].ptr.buf, n))
    }

    static lemma InMeets(s: S.State, e: S.Event)
      requires I.Inv(s) && I.Guard(s, e) && e.In?
      ensures MeetsIn(s, s.curp.value, e.c, e.buf, e.n)
    {
      assert I.ChanOk(s, e.c);
      if s.cs[e.c].word.Some? { assert I.PhaseOk(s, s.cs[e.c].word.value); }
    }

    /** ccsp_chanin, given what the invariant says of the process in the channel word. */
    method ChanInBody(p: Process, c: Channel, data: Buffer, n: nat, ts: seq<int>)
      requires Valid() && Known(p) && KnownChan(c) && KnownBuf(data) && p.id !in st.runq
      requires MeetsIn(st, p.id, c.id, data.id, n) && Leaves(S.ChanIn(st, p.id, c.id, data.id, n))
      modifies this, procs, chans`word, bufs`bytes
      ensures Valid() && st == S.Resume(S.ChanIn(old(st), p.id, c.id, data.id, n), ts)
    {
      if c.word == null {
        ghost var s0 := st;
        Commit(p, c, data, S.Receiving(c.id, data.id, n));
        Leave(ts, S.ChanIn(s0, p.id, c.id, data.id, n));
      } else {
        var other := c.word;
        match other.pointer
        case Data(dsrc) =>
          ghost var m := S.Content(st, dsrc.id, n);
          Copy(data, dsrc, n);
          Release(other, c, m);
        case _ =>
          assert false;
      }
    }

    /** ccsp_chanin. */
    method ChanIn(p: Process, c: Channel, data: Buffer, n: nat, ts: seq<int>)
      requires KnownChan(c) && KnownBuf(data) && Entry(p, S.In(c.id, data.id, n, ts))
      modifies this, procs, chans`word, bufs`bytes
      ensures Valid() && st == I.Step(old(st), S.In(c.id, data.id, n, ts))
    {
      R.CallInv(st, S.In(c.id, data.id, n, ts));
      InMeets(st, S.In(c.id, data.id, n, ts));
      ChanInBody(p, c, data, n, ts);
    }

    /** ccsp_testchan. */
    method TestChan(c: Channel) returns (ready: bool)
      requires Valid() && KnownChan(c)
      ensures ready == S.TestChan(st, c.id)
    {
      ready := c.word != null;
    }

    /** ccsp_pause. */
    method Pause(p: Process, ts: seq<int>)
      requires Entry(p, S.Pause(ts))
      modifies this, procs
      ensures Valid() && st == I.Step(old(st), S.Pause(ts))
    {
      R.CallInv(st, S.Pause(ts));
      ghost var s0 := st;
      LinkProc(p);
      Leave(ts, I.Call(s0, S.Pause(ts)));
    }

    // ---- alternatives ----

    /** ccsp_alt. */
    method Alt(p: Process)
      requires Entry(p, S.Alt)
      modifies this`st, p`pointer
      ensures Valid() && st == I.Step(old(st), S.Alt)
    {
      SetPointer(p, Enabling, S.Enabling);
      SetPhase(p, S.InAlt({}));
    }

    method EnbcBody(p: Process, guard: bool, c: Channel) returns (enb: bool)
      requires Valid() && Known(p) && KnownChan(c)
      modifies this`st, p`pointer, c`word
      ensures Valid() && (st, enb) == S.EnableChan(old(st), p.id, guard, c.id)
    {
      if !guard {
        enb := false;
      } else {
        SetPhase(p, S.InAlt(S.AltChans(st.ps[p.id].phase) + {c.id}));
        if c.word == null {
          SetWord(c, p, Some(p.id));
        } else if c.word == p {
        } else {
          SetPointer(p, Ready, S.Ready);
        }
        enb := true;
      }
    }

    /** ccsp_enbc. */
    method Enbc(p: Process, guard: bool, c: Channel) returns (enb: bool)
      requires KnownChan(c) && Entry(p, S.Enbc(guard, c.id))
      modifies this`st, p`pointer, c`word
      ensures Valid() && st == I.Step(old(st), S.Enbc(guard, c.id)) && enb == guard
    {
      enb := EnbcBody(p, guard, c);
    }

    method DiscBody(p: Process, guard: bool, c: Channel) returns (fired: bool)
      requires Valid() && Known(p) && KnownChan(c)
      modifies this`st, c`word
      ensures Valid() && (st, fired) == S.DisableChan(old(st), p.id, guard, c.id)
    {
      if !guard {
        fired := false;
      } else {
        SetPhase(p, S.InDisable(S.AltChans(st.ps[p.id].phase) - {c.id}));
        if c.word == p {
          SetWord(c, null, None);
          fired := false;
        } else if c.word == null {
          fired := false;
        } else {
          fired := true;
        }
      }
    }

    /** ccsp_disc: fired says whether an outputter is blocked in the channel. */
    method Disc(p: Process, guard: bool, c: Channel) returns (fired: bool)
      requires KnownChan(c) && Entry(p, S.Disc(guard, c.id))
      modifies this`st, c`word
      ensures Valid() && st == I.Step(old(st), S.Disc(guard, c.id))
      ensures fired <==> guard && I.SenderAt(old(st), c.id)
    {
      assert I.ChanOk(st, c.id) && I.PhaseOk(st, p.id);
      fired := DiscBody(p, guard, c);
    }

    method AltWtBody(p: Process, ts: seq<int>)
      requires Valid() && Known(p) && Leaves(S.AltWait(st, p.id))
      modifies this, procs
      ensures Valid() && st == S.Resume(S.AltWait(old(st), p.id), ts)
    {
      ghost var s0 := st;
      SetPhase(p, S.AtWait(S.AltChans(st.ps[p.id].phase)));
      if p.pointer == Enabling {
        SetPointer(p, Waiting, S.Waiting);
        Leave(ts, S.AltWait(s0, p.id));
      }
    }

    /** ccsp_altwt. */
    method AltWt(p: Process, ts: seq<int>)
      requires Entry(p, S.AltWt(ts))
      modifies this, procs
      ensures Valid() && st == I.Step(old(st), S.AltWt(ts))
    {
      R.CallInv(st, S.AltWt(ts));
      AltWtBody(p, ts);
    }

    /** ccsp_altend. */
    method AltEnd(p: Process)
      requires Entry(p, S.AltEnd)
      modifies this`st, p`pointer
      ensures Valid() && st == I.Step(old(st), S.AltEnd)
    {
      SetPointer(p, Null, S.Null);
      SetPhase(p, S.Plain);
    }

    // ---- timers ----

    method LinkBehindFields(p: Process, walk: Process, ghost i: nat, ghost q: seq<nat>, ghost r: seq<nat>)
      requires Ids() && Known(p) && p.id !in q && TimerChain(q, tptr) && i < |q| && walk == procs[q[i]]
      requires r == q[..i + 1] + [p.id] + q[i + 1..]
      modifies p`tlink, walk`tlink
      ensures TimerChain(r, tptr)
    {
      assert forall j :: 0 <= j < |r| ==> r[j] == if j <= i then q[j] else if j == i + 1 then p.id else q[j - 1];
      p.tlink := walk.tlink;
      walk.tlink := p;
    }

    /** p goes behind the process walk, which is the i-th of the timer queue. */
    method LinkBehind(p: Process, walk: Process, ghost i: nat)
      requires Valid() && Known(p) && p.id !in st.timerq && i < |st.timerq| && walk == procs[st.timerq[i]]
      modifies this`st, p`tlink, walk`tlink
      ensures Valid() && st == old(st).(timerq := old(st).timerq[..i + 1] + [p.id] + old(st).timerq[i + 1..])
    {
      ghost var r := st.timerq[..i + 1] + [p.id] + st.timerq[i + 1..];
      LinkBehindFields(p, walk, i, st.timerq, r);
      st := st.(timerq := r);
    }

    /** p goes in front of the timer queue. */
    method LinkInFront(p: Process)
      requires Valid() && Known(p) && p.id !in st.timerq
      modifies this`st, this`tptr, p`tlink
      ensures Valid() && st == old(st).(timerq := [p.id] + old(st).timerq)
    {
      hide Procs, Words, Bytes, RunChain;
      p.tlink := tptr;
      tptr := p;
      st := st.(timerq := [p.id] + st.timerq);
    }

    /** The walk of ccsp_tin along the timer queue. */
    method Walk(p: Process) returns (walk: Process, ghost i: nat)
      requires Valid() && Known(p) && st.timerq != []
      ensures i < |st.timerq| && walk == procs[st.timerq[i]] && i == S.WalkTo(st, st.timerq, p.id, 0)
    {
      walk := tptr;
      i := 0;
      while walk.tlink != null && TimeAfter(p.timeout, walk.tlink.timeout)
        invariant i < |st.timerq| && walk == procs[st.timerq[i]]
        invariant S.WalkTo(st, st.timerq, p.id, 0) == S.WalkTo(st, st.timerq, p.id, i)
        decreases |st.timerq| - i
      {
        walk := walk.tlink;
        i := i + 1;
      }
    }

    /** The part of ccsp_tin that links p into the timer queue. */
    method LinkTimer(p: Process)
      requires Valid() && Known(p) && p.id !in st.timerq
      modifies this`st, this`tptr, procs`tlink
      ensures Valid() && st == old(st).(timerq := S.InsertTimer(old(st), old(st).timerq, p.id))
    {
      if tptr == null || TimeAfter(tptr.timeout, p.timeout) {
        LinkInFront(p);
      } else {
        var walk, i := Walk(p);
        LinkBehind(p, walk, i);
      }
    }

    method TinBody(p: Process, t: int, now: int, ts: seq<int>)
      requires Valid() && Known(p) && p.id !in st.timerq && Leaves(S.TimerIn(st, p.id, t, now))
      modifies this, procs
      ensures Valid() && st == S.Resume(S.TimerIn(old(st), p.id, t, now), ts)
    {
      ghost var s0 := st;
      SetTimeout(p, t);
      if TimeAfter(Low32(now), p.timeout) { return; }
      LinkTimer(p);
      SetPhase(p, S.Sleeping);
      Leave(ts, S.TimerIn(s0, p.id, t, now));
    }

    /** ccsp_tin: t is the requested time and now the clock reading. */
    method Tin(p: Process, t: int, now: int, ts: seq<int>)
      requires Entry(p, S.Tin(t, now, ts))
      modifies this, procs
      ensures Valid() && st == I.Step(old(st), S.Tin(t, now, ts))
    {
      R.CallInv(st, S.Tin(t, now, ts));
      TinBody(p, t, now, ts);
    }

    // ---- processes ----

    /** ccsp_runp, called by LightProcStart: child k of p is given its barrier and started. */
    method StartKid(p: Process, k: Process)
      requires Valid() && Known(p) && Known(k) && k.id !in st.runq
      modifies this`fptr, this`bptr, this`st, k`pbar, procs`link
      ensures Valid() && st == S.StartKid(old(st), p.id, k.id)
    {
      k.pbar := p;
      st := st.(ps := st.ps[k.id := st.ps[k.id].(parent := Some(p.id))]);
      SetPhase(k, S.Plain);
      LinkProc(k);
    }

    /** LightProcBarrierInit. */
    method BarrierInit(p: Process, n: nat)
      requires Valid() && Known(p)
      modifies this`st, p`barSucc, p`barCount
      ensures Valid() && st == old(st).(ps := old(st).ps[p.id := old(st).ps[p.id].(count := n)])
    {
      p.barSucc := p;
      p.barCount := n;
      st := st.(ps := st.ps[p.id := st.ps[p.id].(count := n)]);
    }

    static ghost function Numbers(kids: seq<Process>): seq<nat> {
      seq(|kids|, i requires 0 <= i < |kids| => kids[i].id)
    }

    lemma Sizes()
      requires Valid()
      ensures |st.ps| == |procs| && |st.cs| == |chans|
    {
    }

    static lemma NoKids(s: S.State, p: nat, q: seq<nat>)
      ensures S.StartKids(s, p, q[..0]) == s && s.runq + q[..0] == s.runq
    {
    }

    /** One more child: it is not queued yet, and then it is the last. */
    static lemma StartKidsNext(s: S.State, p: nat, q: seq<nat>, i: nat)
      requires S.AllBelow(q, |s.ps|) && i < |q| && NoDup(q) && p < |s.ps| && q[i] !in s.runq
      requires S.StartKids(s, p, q[..i]).runq == s.runq + q[..i]
      ensures q[i] !in S.StartKids(s, p, q[..i]).runq && S.StartKids(s, p, q[..i + 1]).runq == s.runq + q[..i + 1]
      ensures S.StartKids(s, p, q[..i + 1]) == S.StartKid(S.StartKids(s, p, q[..i]), p, q[i])
    {
      assert q[..i + 1][..i] == q[..i] && q[..i + 1] == q[..i] + [q[i]];
    }

    /** The loop of ProcPar. */
    method StartKids(p: Process, kids: seq<Process>, ghost q: seq<nat>)
      requires Valid() && Known(p) && q == Numbers(kids) && NoDup(q) && S.AllBelow(q, |procs|)
      requires forall i :: 0 <= i < |kids| ==> Known(kids[i]) && q[i] !in st.runq
      modifies this`fptr, this`bptr, this`st, procs`pbar, procs`link
      ensures Valid() && st == S.StartKids(old(st), p.id, q)
    {
      hide Valid, S.StartKids, S.StartKid;
      ghost var s0 := st;
      var i := 0;
      Sizes();
      NoKids(s0, p.id, q);
      while i < |kids|
        invariant i <= |kids| && Valid()
        invariant st == S.StartKids(s0, p.id, q[..i]) && st.runq == s0.runq + q[..i]
      {
        StartKidsNext(s0, p.id, q, i);
        StartKid(p, kids[i]);
        i := i + 1;
      }
      assert q[..|kids|] == q;
    }

    method ParBody(p: Process, kids: seq<Process>, ghost q: seq<nat>, ts: seq<int>)
      requires Valid() && Known(p) && q == Numbers(kids) && NoDup(q) && S.AllBelow(q, |st.ps|) && p.id !in q
      requires forall i :: 0 <= i < |kids| ==> Known(kids[i]) && q[i] !in st.runq
      requires Leaves(S.ProcPar(st, p.id, q))
      modifies this, procs
      ensures Valid() && st == S.Resume(S.ProcPar(old(st), p.id, q), ts)
    {
      ghost var s0 := st;
      BarrierInit(p, |kids|);
      StartKids(p, kids, q);
      if |kids| != 0 {
        SetPhase(p, S.Joining(S.Elems(q)));
        Leave(ts, S.ProcPar(s0, p.id, q));
      }
    }

    /** ProcPar. */
    method Par(p: Process, kids: seq<Process>, ghost q: seq<nat>, ts: seq<int>)
      requires (forall i :: 0 <= i < |kids| ==> Known(kids[i])) && q == Numbers(kids) && Entry(p, S.Par(q, ts))
      modifies this, procs
      ensures Valid() && st == I.Step(old(st), S.Par(q, ts))
    {
      R.CallInv(st, S.Par(q, ts));
      ParBody(p, kids, q, ts);
    }

    method EndBody(p: Process, ts: seq<int>)
      requires Valid() && Known(p) && p.id !in st.runq && Leaves(S.EndProc(st, p.id))
      requires st.ps[p.id].parent.Some? ==>
        var q := st.ps[p.id].parent.value;
        q < |st.ps| && q != p.id && q !in st.runq && st.ps[q].phase.Joining? && st.ps[q].count != 0
      modifies this, procs
      ensures Valid() && st == S.Resume(S.EndProc(old(st), p.id), ts)
    {
      ghost var s0 := st;
      if p.pbar == null {
        st := st.(status := S.Error);
      } else {
        var bar := p.pbar;
        var succ := bar.barSucc;
        CountDown(p, bar);
        if bar.barCount == 0 {
          LinkProc(succ);
          SetPhase(succ, S.Plain);
        }
        Leave(ts, S.EndProc(s0, p.id));
      }
    }

    /** Child p is gone from the barrier of bar. */
    method CountDown(p: Process, bar: Process)
      requires Valid() && Known(p) && Known(bar) && p != bar && bar.barSucc == bar && st.ps[bar.id].phase.Joining?
      modifies this`st, bar`barCount
      ensures Valid() && st == S.SetPhase(old(st).(ps := old(st).ps[bar.id :=
        old(st).ps[bar.id].(count := old(st).ps[bar.id].count - 1,
                            phase := S.Joining(old(st).ps[bar.id].phase.kids - {p.id}))]), p.id, S.Off)
    {
      bar.barCount := bar.barCount - 1;
      ghost var x := st.ps[bar.id];
      st := st.(ps := st.ps[bar.id := x.(count := x.count - 1, phase := S.Joining(x.phase.kids - {p.id}))]);
      SetPhase(p, S.Off);
    }

    static lemma EndMeets(s: S.State, e: S.Event)
      requires I.Inv(s) && I.Guard(s, e) && e.End? && s.ps[s.curp.value].parent.Some?
      ensures var q := s.ps[s.curp.value].parent.value;
        q < |s.ps| && q != s.curp.value && q !in s.runq && s.ps[q].phase.Joining? && s.ps[q].count != 0
    {
      assert I.ParentOk(s, s.curp.value);
      assert I.PhaseOk(s, s.ps[s.curp.value].parent.value);
    }

    /** The end of ProcStartupCode: count down the barrier, run the successor if that was the last, stop. */
    method End(p: Process, ts: seq<int>)
      requires Entry(p, S.End(ts))
      modifies this, procs
      ensures Valid() && st == I.Step(old(st), S.End(ts))
    {
      R.CallInv(st, S.End(ts));
      if st.ps[p.id].parent.Some? { EndMeets(st, S.End(ts)); }
      EndBody(p, ts);
    }

    // ---- ProcAlt and ProcPriAlt ----

    static ghost function Names(list: seq<Channel>): seq<nat> {
      seq(|list|, i requires 0 <= i < |list| => list[i].id)
    }

    /** The enabling loop. */
    method EnableLoop(p: Process, list: seq<Channel>, ghost q: seq<nat>) returns (enb: bool)
      requires Valid() && Known(p) && q == Names(list) && S.AllBelow(q, |chans|)
      requires forall i :: 0 <= i < |list| ==> KnownChan(list[i])
      modifies this`st, p`pointer, chans`word
      ensures Valid() && st == A.EnableAll(old(st), p.id, q, 0) && enb == (list != [])
    {
      enb := false;
      var i := 0;
      while i < |list|
        invariant i <= |list| && Valid() && enb == (i > 0)
        invariant A.EnableAll(st, p.id, q, i) == A.EnableAll(old(st), p.id, q, 0)
      {
        var e := EnbcBody(p, true, list[i]);
        enb := enb || e;
        i := i + 1;
      }
    }

    /** The disabling loop: only the first ready guard in the list is selected. */
    method DisableLoop(p: Process, list: seq<Channel>, ghost q: seq<nat>) returns (rdy: int)
      requires Valid() && Known(p) && q == Names(list) && S.AllBelow(q, |chans|)
      requires forall i :: 0 <= i < |list| ==> KnownChan(list[i])
      modifies this`st, chans`word
      ensures Valid() && (st, Index(rdy)) == A.Sweep(old(st), p.id, q, 0, None)
    {
      hide Valid;
      Sizes();
      rdy := -1;
      var i := 0;
      while i < |list|
        invariant i <= |list| && Valid() && |st.ps| == |procs| && |st.cs| == |chans|
        invariant A.Sweep(st, p.id, q, i, Index(rdy)) == A.Sweep(old(st), p.id, q, 0, None)
      {
        var fired := DiscBody(p, true, list[i]);
        if fired && rdy < 0 { rdy := i; }
        i := i + 1;
      }
    }

    /** The loop of ProcPriAltSkip: the least index of a channel in which an outputter is blocked. */
    method FirstReady(p: Process, list: seq<Channel>, ghost q: seq<nat>) returns (rdy: int)
      requires Valid() && I.Core(st) && I.CurPhase(st).Plain? && st.curp == Some(p.id)
      requires q == Names(list) && S.AllBelow(q, |st.cs|)
      requires forall i :: 0 <= i < |list| ==> KnownChan(list[i]) && I.SoleReader(st, p.id, q[i])
      ensures if rdy >= 0 then A.LeastReady(st, q, Some(rdy)) else forall i :: 0 <= i < |q| ==> !I.SenderAt(st, q[i])
    {
      hide Valid, I.Core, I.SoleReader, I.SenderAt;
      rdy := -1;
      var i := 0;
      while i < |list|
        invariant i <= |list| && forall k :: 0 <= k < i ==> !I.SenderAt(st, q[k])
      {
        var ready := TestChan(list[i]);
        T.TestChanReady(st, q[i]);
        if ready { return i; }
        i := i + 1;
      }
    }

    /** ProcPriAltSkip: with no outputter blocked in any of the channels the process lets the others run,
        and skips. */
    method AltSkip(p: Process, list: seq<Channel>, ghost q: seq<nat>, ts: seq<int>) returns (rdy: int)
      requires Entry(p, S.Pause(ts)) && q == Names(list) && S.AllBelow(q, |st.cs|)
      requires forall i :: 0 <= i < |list| ==> KnownChan(list[i]) && I.SoleReader(st, p.id, q[i])
      modifies this, procs
      ensures Valid()
      ensures rdy >= 0 ==> st == old(st) && A.LeastReady(st, q, Some(rdy))
      ensures rdy < 0 ==> st == I.Step(old(st), S.Pause(ts)) && forall i :: 0 <= i < |q| ==> !I.SenderAt(old(st), q[i])
    {
      hide Valid, I.Core, I.SoleReader, I.SenderAt, A.LeastReady, I.Step;
      rdy := FirstReady(p, list, q);
      if rdy < 0 { Pause(p, ts); }
    }

    static ghost function Index(rdy: int): Option<nat> {
      if rdy < 0 then None else Some(rdy)
    }

    /** ccsp_seterrm: the program stops with a message. */
    method SetErrM()
      requires Valid()
      modifies this`st
      ensures Valid() && st == old(st).(status := S.Error)
    {
      st := st.(status := S.Error);
    }

    /** ProcAlt up to AltWait; with nothing enabled it is an error. */
    method AltOpen(p: Process, list: seq<Channel>, ghost q: seq<nat>, ts: seq<int>)
      requires Entry(p, S.Alt) && q == Names(list) && S.AllBelow(q, |st.cs|) && I.ClocksNear(st, ts)
      requires forall i :: 0 <= i < |list| ==> KnownChan(list[i]) && I.SoleReader(st, p.id, q[i])
      modifies this, procs, chans`word
      ensures Valid() && st == A.Opens(old(st), p.id, q, ts)
    {
      A.AltEnables(st, p.id, q, ts);
      hide Valid, I.Inv, I.Step, I.SoleReader;
      Sizes();
      Alt(p);
      var enb := EnableLoop(p, list, q);
      if !enb {
        SetErrM();
      } else {
        AltWt(p, ts);
      }
    }

    /** What ProcAlt does when the ALTer runs again after AltWait: it never gets to "no ready guard at
        end", and returns the least index of a channel in which an outputter is blocked. */
    method AltSelect(p: Process, list: seq<Channel>, ghost q: seq<nat>) returns (rdy: int)
      requires Valid() && I.Inv(st) && st.status == S.Live && Known(p) && st.curp == Some(p.id)
      requires q == Names(list) && S.AllBelow(q, |chans|) && st.ps[p.id].phase == S.AtWait(S.Elems(q))
      requires forall i :: 0 <= i < |list| ==> KnownChan(list[i])
      modifies this`st, p`pointer, chans`word
      ensures Valid() && I.Inv(st) && A.OnlyUnhooked(old(st), st, p.id)
      ensures rdy >= 0 && A.LeastReady(old(st), q, Some(rdy))
    {
      A.AltReturns(st, p.id, q);
      rdy := DisableLoop(p, list, q);
      SetPointer(p, Null, S.Null);
      SetPhase(p, S.Plain);
    }
  }
}
