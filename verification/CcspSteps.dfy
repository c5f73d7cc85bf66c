/** Every kernel call, made under the occam discipline, keeps the invariant. */
module CcspSteps {
  import opened Common
  import opened ClockTime
  import opened CcspState
  import opened CcspInv

  // ---- frame ----

  /** From s to t nothing happened to process q, nor to the words and children it relies on, except
      that outputters may have committed in channels it has enabled, making it ready. */
  ghost predicate Same(s: State, t: State, q: nat) {
    && q < |s.ps| == |t.ps| && t.ps[q] == s.ps[q]
    && (OnRun(s, q) <==> OnRun(t, q)) && (s.curp == Some(q) ==> t.curp == Some(q))
    && (q in s.timerq ==> q in t.timerq)
    && (forall c: nat :: c < |s.cs| && Attached(s.ps[q].phase, c) && s.cs[c].word == Some(q)
          ==> (c < |t.cs| && t.cs[c].word == Some(q)))
    && (forall c: nat :: c in AltChans(s.ps[q].phase) && SenderAt(s, c) ==> SenderAt(t, c))
    && |t.mem| == |s.mem| && (forall b :: 0 <= b < |s.mem| ==> |t.mem[b]| == |s.mem[b]|)
  }

  /** The children a process waits for are still there. */
  ghost predicate SameKids(s: State, t: State, q: nat) {
    q < |s.ps| == |t.ps| && (s.ps[q].phase.Joining? ==>
      forall k: nat :: k in s.ps[q].phase.kids && k < |s.ps| && !s.ps[k].phase.Off?
        ==> !t.ps[k].phase.Off? && t.ps[k].parent == s.ps[k].parent)
  }

  lemma FramePhase(s: State, t: State, q: nat)
    requires q < |s.ps| && PhaseOk(s, q) && Same(s, t, q) && SameKids(s, t, q)
    ensures PhaseOk(t, q)
  {
    if SomeSender(s, AltChans(s.ps[q].phase)) {
      var c: nat :| c in AltChans(s.ps[q].phase) && SenderAt(s, c);
      assert SenderAt(t, c);
    }
  }

  lemma FrameApart(s: State, t: State)
    requires AltsApart(s) && |t.ps| == |s.ps|
    requires forall p :: 0 <= p < |s.ps| ==> AltChans(t.ps[p].phase) <= AltChans(s.ps[p].phase)
    ensures AltsApart(t)
  {
  }

  // ---- a process blocks in a channel word ----

  /** What changes when the current process p commits in channel c in phase ph, offering the messages
      ms, and finds the ALTer w there, if any. */
  ghost predicate Blocks(s: State, t: State, p: nat, c: nat, ph: Phase, ms: seq<Msg>, w: Option<nat>) {
    && p < |s.ps| && c < |s.cs| && |t.ps| == |s.ps| && |t.cs| == |s.cs| && (ph.Sending? || ph.Receiving?)
    && t.curp == None && t.timerq == s.timerq && t.mem == s.mem
    && (w.Some? ==> w.value < |s.ps| && w.value != p && t.ps[w.value] == s.ps[w.value].(ptr := Ready))
    && t.runq == (if w.Some? && s.ps[w.value].ptr.Waiting? then s.runq + [w.value] else s.runq)
    && t.ps[p] == s.ps[p].(ptr := Data(ph.buf), phase := ph)
    && (forall q :: 0 <= q < |s.ps| && q != p && w != Some(q) ==> t.ps[q] == s.ps[q])
    && t.cs[c] == Chan(Some(p), s.cs[c].sent + ms, s.cs[c].rcvd)
    && (forall d :: 0 <= d < |s.cs| && d != c ==> t.cs[d] == s.cs[d])
  }

  /** The process may block as ph says, in a channel word that is empty or, for an output, holds an ALTer. */
  ghost predicate MayBlock(s: State, ph: Phase, ms: seq<Msg>) {
    && Core(s) && CurPhase(s).Plain? && (ph.Sending? || ph.Receiving?) && ph.c < |s.cs| && HasBuf(s, ph.buf, ph.n)
    && (if ph.Sending? then Stable(s, ph.buf) && ms == [Content(s, ph.buf, ph.n)] else Unused(s, ph.buf) && ms == [])
    && (s.cs[ph.c].word.Some? ==>
          (ph.Sending? && s.cs[ph.c].word.value < |s.ps|
          && s.curp != s.cs[ph.c].word && ph.c in AltChans(s.ps[s.cs[ph.c].word.value].phase)))
  }

  lemma BlockQueues(s: State, t: State, ph: Phase, ms: seq<Msg>)
    requires MayBlock(s, ph, ms) && Blocks(s, t, s.curp.value, ph.c, ph, ms, s.cs[ph.c].word)
    ensures QueuesOk(t)
  {
    hide ParentOk, BufsOk, AltsApart, ChanOk, Stable, Unused, HasBuf;
    if s.cs[ph.c].word.Some? { assert PhaseOk(s, s.cs[ph.c].word.value); }
  }

  lemma BlockPhases(s: State, t: State, ph: Phase, ms: seq<Msg>, q: nat)
    requires MayBlock(s, ph, ms) && Blocks(s, t, s.curp.value, ph.c, ph, ms, s.cs[ph.c].word) && q < |s.ps|
    ensures PhaseOk(t, q)
  {
    assert PhaseOk(s, q);
    hide ParentOk, ChanOk, BufsOk, AltsApart, Stable, Unused;
    if s.curp == Some(q) {
    } else if s.cs[ph.c].word == Some(q) {
      assert SenderAt(t, ph.c);
      assert forall d: nat :: d != ph.c && SenderAt(s, d) ==> SenderAt(t, d);
    } else {
      assert Same(s, t, q);
      FramePhase(s, t, q);
    }
  }

  lemma BlockCore(s: State, t: State, ph: Phase, ms: seq<Msg>)
    requires MayBlock(s, ph, ms) && Blocks(s, t, s.curp.value, ph.c, ph, ms, s.cs[ph.c].word)
    ensures Core(t)
  {
    BlockQueues(s, t, ph, ms);
    forall q | 0 <= q < |t.ps| ensures PhaseOk(t, q) { BlockPhases(s, t, ph, ms, q); }
    forall q | 0 <= q < |t.ps| ensures ParentOk(t, q) { assert ParentOk(s, q); }
    forall d | 0 <= d < |t.cs| ensures ChanOk(t, d) { assert ChanOk(s, d); }
  }

  // ---- the second of two processes to arrive at a channel moves the data ----

  /** What changes when q, blocked in channel c, is released: buffer dst is written. */
  ghost predicate Releases(s: State, t: State, c: nat, q: nat, dst: nat) {
    && q < |s.ps| && c < |s.cs| && |t.ps| == |s.ps| && |t.cs| == |s.cs| && |t.mem| == |s.mem|
    && t.curp == s.curp && t.timerq == s.timerq && t.runq == s.runq + [q]
    && t.ps[q] == s.ps[q].(phase := Plain)
    && (forall r :: 0 <= r < |s.ps| && r != q ==> t.ps[r] == s.ps[r])
    && t.cs[c].word == None && t.cs[c].sent == t.cs[c].rcvd
    && (forall d :: 0 <= d < |s.cs| && d != c ==> t.cs[d] == s.cs[d])
    && (forall b :: 0 <= b < |s.mem| ==> |t.mem[b]| == |s.mem[b]| && (b != dst ==> t.mem[b] == s.mem[b]))
  }

  ghost predicate MayRelease(s: State, c: nat, q: nat, dst: nat) {
    && Core(s) && s.curp != Some(q) && q < |s.ps| && c < |s.cs|
    && (s.ps[q].phase.Sending? || s.ps[q].phase.Receiving?) && s.ps[q].phase.c == c
    && (forall r :: 0 <= r < |s.ps| && r != q ==> !UsesBuf(s.ps[r].phase, dst) && c !in AltChans(s.ps[r].phase))
  }

  lemma ReleasePhases(s: State, t: State, c: nat, q: nat, dst: nat, r: nat)
    requires MayRelease(s, c, q, dst) && Releases(s, t, c, q, dst) && r < |s.ps|
    ensures PhaseOk(t, r)
  {
    assert PhaseOk(s, r) && PhaseOk(s, q);
    if r != q {
      assert Same(s, t, r);
      FramePhase(s, t, r);
    }
  }

  lemma ReleaseQueues(s: State, t: State, c: nat, q: nat, dst: nat)
    requires MayRelease(s, c, q, dst) && Releases(s, t, c, q, dst)
    ensures QueuesOk(t)
  {
    assert PhaseOk(s, q);
  }

  lemma ReleaseCore(s: State, t: State, c: nat, q: nat, dst: nat)
    requires MayRelease(s, c, q, dst) && Releases(s, t, c, q, dst)
    ensures Core(t)
  {
    assert PhaseOk(s, q);
    ReleaseQueues(s, t, c, q, dst);
    FrameApart(s, t);
    forall r | 0 <= r < |t.ps| ensures PhaseOk(t, r) { ReleasePhases(s, t, c, q, dst, r); }
    forall r | 0 <= r < |t.ps| ensures ParentOk(t, r) { assert ParentOk(s, r); }
    forall d | 0 <= d < |t.cs| ensures ChanOk(t, d) { assert ChanOk(s, d); }
  }

  // ---- channel calls ----

  lemma EnabledWord(s: State, r: nat, c: nat)
    requires Core(s) && r < |s.ps| && c in AltChans(s.ps[r].phase)
    ensures c < |s.cs| && (s.cs[c].word == Some(r) || SenderAt(s, c))
  {
    assert PhaseOk(s, r);
  }

  lemma OutRelease(s: State, e: Event)
    requires Inv(s) && Guard(s, e) && e.Out? && s.cs[e.c].word.Some?
    requires s.cs[e.c].word.value < |s.ps| && s.ps[s.cs[e.c].word.value].phase.Receiving?
    ensures OutcomeOk(Call(s, e))
  {
    var q := s.cs[e.c].word.value;
    assert ChanOk(s, e.c) && PhaseOk(s, q);
    forall r | 0 <= r < |s.ps| && r != q ensures e.c !in AltChans(s.ps[r].phase) {
      if e.c in AltChans(s.ps[r].phase) { EnabledWord(s, r, e.c); }
    }
    ReleaseCore(s, Call(s, e).s, e.c, q, s.ps[q].phase.buf);
  }

  lemma OutBlock(s: State, e: Event)
    requires Inv(s) && Guard(s, e) && e.Out?
    requires s.cs[e.c].word.Some? && s.cs[e.c].word.value < |s.ps| ==> !s.ps[s.cs[e.c].word.value].phase.Receiving?
    ensures OutcomeOk(Call(s, e))
  {
    assert ChanOk(s, e.c);
    var w := s.cs[e.c].word;
    if w.Some? { assert PhaseOk(s, w.value); }
    var ph, ms := Sending(e.c, e.buf, e.n), [Content(s, e.buf, e.n)];
    assert Blocks(s, Call(s, e).s, s.curp.value, e.c, ph, ms, w);
    BlockCore(s, Call(s, e).s, ph, ms);
  }

  lemma OutInv(s: State, e: Event)
    requires Inv(s) && Guard(s, e) && e.Out?
    ensures OutcomeOk(Call(s, e))
  {
    assert ChanOk(s, e.c);
    var w := s.cs[e.c].word;
    if w.Some? && s.ps[w.value].phase.Receiving? { OutRelease(s, e); } else { OutBlock(s, e); }
  }

  lemma InInv(s: State, e: Event)
    requires Inv(s) && Guard(s, e) && e.In?
    ensures OutcomeOk(Call(s, e))
  {
    assert ChanOk(s, e.c);
    var w := s.cs[e.c].word;
    if w.Some? {
      assert PhaseOk(s, w.value);
      ReleaseCore(s, Call(s, e).s, e.c, w.value, e.buf);
    } else {
      var ph := Receiving(e.c, e.buf, e.n);
      assert Blocks(s, Call(s, e).s, s.curp.value, e.c, ph, [], w);
      BlockCore(s, Call(s, e).s, ph, []);
    }
  }

  // ---- alternatives: only the ALTer and one channel word change ----

  ghost predicate Retouches(s: State, t: State, p: nat, c: nat) {
    && p < |s.ps| && |t.ps| == |s.ps| && |t.cs| == |s.cs| && t.mem == s.mem
    && t.timerq == s.timerq && t.runq == s.runq
    && (t.curp == s.curp || t.curp == None)
    && (forall r :: 0 <= r < |s.ps| && r != p ==> t.ps[r] == s.ps[r])
    && t.ps[p].parent == s.ps[p].parent
    && (forall d :: 0 <= d < |s.cs| && d != c ==> t.cs[d] == s.cs[d])
    && (c < |s.cs| ==> t.cs[c].sent == s.cs[c].sent && t.cs[c].rcvd == s.cs[c].rcvd)
  }

  /** An ALTer's word may only change between empty and its own. */
  ghost predicate MayRetouch(s: State, t: State, p: nat, c: nat) {
    && Core(s) && s.curp == Some(p) && p < |s.ps| && Retouches(s, t, p, c) && PhaseOk(t, p)
    && (t.ps[p].phase.AtWait? || (Running(t.ps[p].phase) && t.curp == s.curp))
    && AltChans(s.ps[p].phase) - {c} <= AltChans(t.ps[p].phase) <= AltChans(s.ps[p].phase) + {c}
    && (c in AltChans(t.ps[p].phase) ==> forall r :: 0 <= r < |s.ps| && r != p ==> c !in AltChans(s.ps[r].phase))
    && (c < |s.cs| ==> var w, w' := s.cs[c].word, t.cs[c].word;
          && (w' != w ==> (w == None || w == Some(p)) && (w' == None || w' == Some(p)))
          && (w' == Some(p) ==> c in AltChans(t.ps[p].phase)))
  }

  lemma RetouchPhases(s: State, t: State, p: nat, c: nat, r: nat)
    requires MayRetouch(s, t, p, c) && r < |s.ps|
    ensures PhaseOk(t, r)
  {
    assert PhaseOk(s, p) && PhaseOk(s, r);
    if r != p { assert Same(s, t, r); FramePhase(s, t, r); }
  }

  lemma RetouchCore(s: State, t: State, p: nat, c: nat)
    requires MayRetouch(s, t, p, c)
    ensures Core(t)
  {
    assert PhaseOk(s, p);
    forall r | 0 <= r < |t.ps| ensures PhaseOk(t, r) { RetouchPhases(s, t, p, c, r); }
    forall r | 0 <= r < |t.ps| ensures ParentOk(t, r) { assert ParentOk(s, r); }
    forall d | 0 <= d < |t.cs| ensures ChanOk(t, d) { assert ChanOk(s, d); }
  }

  lemma AltInv(s: State, e: Event)
    requires Inv(s) && Guard(s, e) && (e.Alt? || e.AltEnd?)
    ensures OutcomeOk(Call(s, e))
  {
    RetouchCore(s, Call(s, e).s, s.curp.value, |s.cs|);
  }

  lemma EnbcInv(s: State, e: Event)
    requires Inv(s) && Guard(s, e) && e.Enbc?
    ensures OutcomeOk(Call(s, e))
  {
    hide QueuesOk, ParentOk, BufsOk;
    var p, c, t := s.curp.value, e.c, Call(s, e).s;
    if e.guard {
      assert PhaseOk(s, p) && ChanOk(s, c);
      if s.cs[c].word.Some? && s.cs[c].word != Some(p) {
        assert SenderAt(s, c) && SenderAt(t, c);
        assert SomeSender(t, AltChans(t.ps[p].phase));
      }
      assert forall d: nat :: d != c && SenderAt(s, d) ==> SenderAt(t, d);
      assert PhaseOk(t, p);
      RetouchCore(s, t, p, c);
    }
  }

  lemma AltWtInv(s: State, e: Event)
    requires Inv(s) && Guard(s, e) && e.AltWt?
    ensures OutcomeOk(Call(s, e))
  {
    var p, t := s.curp.value, Call(s, e).s;
    assert PhaseOk(s, p);
    assert forall d: nat :: SenderAt(s, d) ==> SenderAt(t, d);
    assert PhaseOk(t, p);
    RetouchCore(s, t, p, |s.cs|);
  }

  lemma DiscInv(s: State, e: Event)
    requires Inv(s) && Guard(s, e) && e.Disc?
    ensures OutcomeOk(Call(s, e))
  {
    var p, c, t := s.curp.value, e.c, Call(s, e).s;
    if e.guard {
      assert PhaseOk(s, p) && ChanOk(s, c);
      assert forall d: nat :: d != c && SenderAt(s, d) ==> SenderAt(t, d);
      assert PhaseOk(t, p);
      RetouchCore(s, t, p, c);
    }
  }
}
