/** Infrared frames to and from an RCX brick, through a device that reads and writes as much at a time as
    it likes, and the blocks in which a firmware image is sent. */
module Rcx {
  import opened Common

  const PKT_SIZE: nat := 8
  const IR_BLOCK_SIZE: nat := 200

  // ---- frames ----

  function Inverse(b: Byte): Byte { 255 - b }

  function Sum(s: seq<Byte>): nat {
    if s == [] then 0 else Sum(s[..|s| - 1]) + s[|s| - 1]
  }

  function SumByte(s: seq<Byte>): Byte { Sum(s) % 256 }

  /** Every byte followed by its inverse. */
  function Doubled(s: seq<Byte>): (d: seq<Byte>)
    ensures |d| == 2 * |s|
    ensures forall i :: 0 <= i < |s| ==> d[2 * i] == s[i] && d[2 * i + 1] == Inverse(s[i])
  {
    if s == [] then [] else Doubled(s[..|s| - 1]) + [s[|s| - 1], Inverse(s[|s| - 1])]
  }

  function Frame(s: seq<Byte>): (f: seq<Byte>)
    ensures |f| == 2 * |s| + 5
  {
    [0x55, 0xff, 0x00] + Doubled(s) + [SumByte(s), Inverse(SumByte(s))]
  }

  /** A frame header at position i. */
  predicate HeaderAt(s: seq<Byte>, i: nat) {
    i + 3 <= |s| && s[i] == 0x55 && s[i + 1] == 0xff && s[i + 2] == 0x00
  }

  /** The first header is at h. */
  ghost predicate FirstHeader(s: seq<Byte>, h: nat) {
    HeaderAt(s, h) && forall i: nat :: i < h ==> !HeaderAt(s, i)
  }

  /** The bytes at the payload positions of a frame for n bytes. */
  function Payload(f: seq<Byte>, n: nat): (p: seq<Byte>)
    requires |f| == 2 * n + 5
    ensures |p| == n && forall i :: 0 <= i < n ==> p[i] == f[3 + 2 * i]
  {
    seq(n, i requires 0 <= i < n => f[3 + 2 * i])
  }

  /** What the receiver makes of a whole frame: the payload if the sum is right. */
  function Decoded(f: seq<Byte>, n: nat): Option<seq<Byte>>
    requires |f| == 2 * n + 5
  {
    if f[2 * n + 3] == SumByte(Payload(f, n)) then Some(Payload(f, n)) else None
  }

  /** The sum of the payload, from its front. */
  function Total(s: seq<Byte>): nat {
    if s == [] then 0 else s[0] + Total(s[1..])
  }

  /** What a frame for s looks like on the wire: the header; each byte of s, and last the low byte of their
      sum, followed by its complement. */
  ghost predicate OnWire(f: seq<Byte>, s: seq<Byte>) {
    var n := |s|;
    && |f| == 2 * n + 5 && f[0] == 0x55 && f[1] == 0xff && f[2] == 0x00
    && (forall i :: 0 <= i < n ==> f[3 + 2 * i] == s[i])
    && (forall i :: 0 <= i <= n ==> f[3 + 2 * i] as int + f[4 + 2 * i] as int == 255)
    && (Total(s) - f[3 + 2 * n]) % 256 == 0
  }

  lemma {:induction false} TotalSnoc(s: seq<Byte>, b: Byte)
    ensures Total(s + [b]) == Total(s) + b
    decreases |s|
  {
    if s == [] {
      assert Total([b]) == b + Total([b][1..]);
    } else {
      assert (s + [b])[1..] == s[1..] + [b];
      TotalSnoc(s[1..], b);
    }
  }

  lemma {:induction false} SumIsTotal(s: seq<Byte>)
    ensures Sum(s) == Total(s)
    decreases |s|
  {
    if s == [] {
    } else {
      SumIsTotal(s[..|s| - 1]);
      TotalSnoc(s[..|s| - 1], s[|s| - 1]);
      assert s == s[..|s| - 1] + [s[|s| - 1]];
    }
  }

  /** The frame is what it should be on the wire, and nothing else is. */
  lemma FrameIs(s: seq<Byte>, f: seq<Byte>)
    ensures OnWire(f, s) <==> f == Frame(s)
  {
    var g, n, d := Frame(s), |s|, Doubled(s);
    SumIsTotal(s);
    forall i | 0 <= i < n ensures g[3 + 2 * i] == s[i] && g[3 + 2 * i] as int + g[4 + 2 * i] as int == 255 {
      assert g[3 + 2 * i] == d[2 * i] && g[4 + 2 * i] == d[2 * i + 1];
    }
    assert OnWire(g, s);
    if OnWire(f, s) { OneOnWire(f, g, s); }
  }

  lemma OneOnWire(f: seq<Byte>, g: seq<Byte>, s: seq<Byte>)
    requires OnWire(f, s) && OnWire(g, s)
    ensures f == g
  {
    var n := |s|;
    assert f[3 + 2 * n] == g[3 + 2 * n];
    forall k | 0 <= k < |f| ensures f[k] == g[k] {
      if k >= 3 {
        var i := (k - 3) / 2;
        assert 0 <= i <= n && (k == 3 + 2 * i || k == 4 + 2 * i);
        if i < n { assert f[3 + 2 * i] == s[i] == g[3 + 2 * i]; }
        assert f[4 + 2 * i] as int == 255 - f[3 + 2 * i] as int && g[4 + 2 * i] as int == 255 - g[3 + 2 * i] as int;
      }
    }
  }

  /** A frame is decoded to its payload. */
  lemma FrameDecodes(s: seq<Byte>)
    ensures Decoded(Frame(s), |s|) == Some(s)
  {
    var f := Frame(s);
    forall i | 0 <= i < |s| ensures Payload(f, |s|)[i] == s[i] { assert f[3 + 2 * i] == Doubled(s)[2 * i]; }
    assert Payload(f, |s|) == s;
  }

  /** Of the bytes at the payload positions the receiver takes exactly those whose sum is the byte behind. */
  lemma SumDecides(f: seq<Byte>, n: nat)
    requires |f| == 2 * n + 5
    ensures Decoded(f, n) == if (Total(Payload(f, n)) - f[2 * n + 3]) % 256 == 0 then Some(Payload(f, n)) else None
  {
    SumIsTotal(Payload(f, n));
  }

  // ---- the device ----

  /** Successive reads and writes handle at most as many bytes as the plans say; a plan that has run out
      is a failure. */
  class Brick {
    var wire: seq<Byte>                  // what has still to be read
    var sent: seq<Byte>                  // what has been written
    var readPlan: seq<nat>
    var writePlan: seq<nat>

    constructor (w: seq<Byte>, r: seq<nat>, s: seq<nat>)
      ensures wire == w && sent == [] && readPlan == r && writePlan == s
    {
      wire, sent, readPlan, writePlan := w, [], r, s;
    }

    /** Read at most limit bytes into buf from position at on. */
    method Read(buf: array<Byte>, at: nat, limit: nat) returns (ret: int)
      requires at + limit <= buf.Length && limit > 0
      modifies `wire, `readPlan, buf
      ensures old(readPlan) == [] || old(wire) == [] ==>
        (ret == -1 && wire == old(wire) && readPlan == old(readPlan) && buf[..] == old(buf[..]))
      ensures old(readPlan) != [] && old(wire) != [] ==>
        ret == Least(Least(old(readPlan)[0], limit), |old(wire)|) && readPlan == old(readPlan)[1..]
        && wire == old(wire)[ret..] && buf[at..at + ret] == old(wire)[..ret] && buf[..at] == old(buf[..at])
    {
      if readPlan == [] || wire == [] { return -1; }
      ret := Least(Least(readPlan[0], limit), |wire|);
      readPlan := readPlan[1..];
      var k := 0;
      while k < ret
        invariant 0 <= k <= ret && wire == old(wire) && readPlan == old(readPlan)[1..]
        invariant buf[..at] == old(buf[..at]) && buf[at..at + k] == wire[..k]
      {
        buf[at + k] := wire[k];
        k := k + 1;
      }
      wire := wire[ret..];
    }

    /** Write at most limit bytes of s. */
    method Write(s: seq<Byte>) returns (ret: int)
      requires s != []
      modifies `sent, `writePlan
      ensures old(writePlan) == [] ==> ret == -1 && sent == old(sent) && writePlan == []
      ensures old(writePlan) != [] ==>
        ret == Least(old(writePlan)[0], |s|) && writePlan == old(writePlan)[1..] && sent == old(sent) + s[..ret]
    {
      if writePlan == [] { return -1; }
      ret := Least(writePlan[0], |s|);
      writePlan := writePlan[1..];
      sent := sent + s[..ret];
    }
  }

  function Least(a: nat, b: nat): nat { if a < b then a else b }

  // ---- sending ----

  /** Compose the frame in a buffer. */
  method Compose(data: seq<Byte>) returns (buf: array<Byte>)
    ensures fresh(buf) && buf[..] == Frame(data) && OnWire(buf[..], data)
  {
    buf := new Byte[2 * |data| + 5](_ => 0);
    buf[0], buf[1], buf[2] := 0x55, 0xff, 0x00;
    var pos: nat, sum: nat := 3, 0;
    for k := 0 to |data|
      invariant pos == 3 + 2 * k && sum == Sum(data[..k])
      invariant buf[..pos] == [0x55, 0xff, 0x00] + Doubled(data[..k])
    {
      ghost var before := buf[..pos];
      buf[pos], buf[pos + 1] := data[k], Inverse(data[k]);
      sum := sum + data[k];
      pos := pos + 2;
      assert data[..k + 1][..k] == data[..k];
      assert buf[..pos] == before + [data[k], Inverse(data[k])];
    }
    assert data[..|data|] == data;
    ghost var before := buf[..pos];
    buf[pos] := sum % 256;
    buf[pos + 1] := Inverse(sum % 256);
    assert buf[..] == before + [SumByte(data), Inverse(SumByte(data))];
    FrameIs(data, buf[..]);
  }

  /** Every write of the plan takes something, and there are enough of them for n bytes. */
  ghost predicate Willing(plan: seq<nat>, n: nat) {
    |plan| >= n && forall k :: 0 <= k < |plan| ==> plan[k] > 0
  }

  /** send_to_rcx: as long as the device takes something each time, the whole frame goes out, however the
      device divides it; otherwise a beginning of the frame has gone out and the failure is returned. */
  method Send(b: Brick, data: seq<Byte>) returns (ret: int)
    modifies b`sent, b`writePlan
    ensures exists k: nat :: k <= |Frame(data)| && b.sent == old(b.sent) + Frame(data)[..k]
    ensures ret > 0 ==> b.sent == old(b.sent) + Frame(data)
    ensures ret > 0 ==> |b.sent| >= |old(b.sent)| && OnWire(b.sent[|old(b.sent)|..], data)
    ensures Willing(old(b.writePlan), |Frame(data)|) ==> ret > 0
  {
    var buf := Compose(data);
    ghost var f, plan, j := buf[..], b.writePlan, 0;
    var len: int, pos: int := buf.Length, 0;
    ret := 0;
    assert f[..0] == [];
    while len > 0
      invariant 0 <= len && 0 <= pos && pos + len == |f| && buf[..] == f && b.sent == old(b.sent) + f[..pos]
      invariant pos > 0 ==> ret > 0
      invariant 0 <= j <= |plan| && j <= pos && b.writePlan == plan[j..]
      decreases len
    {
      var bytes := if len > PKT_SIZE then PKT_SIZE else len;
      ghost var part := f[pos..pos + bytes];
      ret := b.Write(buf[pos..pos + bytes]);
      if ret <= 0 {
        if ret == 0 {
          assert plan[j] == 0;
          assert part[..0] == [];
        }
        return;
      }
      Longer(f, pos, bytes, ret);
      Assoc(old(b.sent), f[..pos], part[..ret]);
      len := len - ret;
      pos := pos + ret;
      j := j + 1;
    }
    assert f[..pos] == f;
    SentIs(old(b.sent), b.sent, data);
  }

  lemma SentIs(was: seq<Byte>, now: seq<Byte>, data: seq<Byte>)
    requires now == was + Frame(data)
    ensures |now| >= |was| && OnWire(now[|was|..], data)
  {
    JoinParts(was, Frame(data));
    FrameIs(data, now[|was|..]);
  }

  lemma Longer(f: seq<Byte>, pos: nat, bytes: nat, k: nat)
    requires pos + bytes <= |f| && k <= bytes
    ensures f[..pos] + f[pos..pos + bytes][..k] == f[..pos + k]
  {
  }

  // ---- receiving ----

  /** memmove: the first byte is dropped. */
  method Shift(buf: array<Byte>, pos: nat)
    requires 0 < pos <= buf.Length
    modifies buf
    ensures buf[..pos - 1] == old(buf[1..pos])
  {
    var k := 0;
    while k < pos - 1
      invariant 0 <= k <= pos - 1
      invariant forall i :: 0 <= i < k ==> buf[i] == old(buf[i + 1])
      invariant forall i :: k <= i < buf.Length ==> buf[i] == old(buf[i])
    {
      buf[k] := buf[k + 1];
      k := k + 1;
    }
  }

  ghost predicate NoHeader(s: seq<Byte>, start: nat, at: nat) {
    forall i: nat :: start <= i < at ==> !HeaderAt(s, i)
  }

  lemma NoHeaderOn(s: seq<Byte>, start: nat, at: nat)
    ensures NoHeader(s, start, start)
    ensures start <= at && NoHeader(s, start, at) && !HeaderAt(s, at) ==> NoHeader(s, start, at + 1)
  {
  }

  lemma NoHeaderJoin(s: seq<Byte>, start: nat, mid: nat, at: nat)
    requires NoHeader(s, start, mid) && NoHeader(s, mid, at)
    ensures NoHeader(s, start, at)
  {
  }

  /** Whether a header is at the front of the buffer. */
  lemma HeaderInFront(was: seq<Byte>, s: seq<Byte>, at: nat)
    requires |was| >= 3 && at + |was| <= |s| && was == s[at..at + |was|]
    ensures HeaderAt(s, at) <==> was[0] == 0x55 && was[1] == 0xff && was[2] == 0x00
    ensures was[1..] == s[at + 1..at + |was|]
  {
    assert was[0] == s[at] && was[1] == s[at + 1] && was[2] == s[at + 2];
  }

  lemma Passed(was: seq<Byte>, s: seq<Byte>, start: nat, at: nat)
    requires |was| >= 3 && at + |was| <= |s| && was == s[at..at + |was|] && start <= at && NoHeader(s, start, at)
    requires was[0] != 0x55 || was[1] != 0xff || was[2] != 0x00
    ensures NoHeader(s, start, at + 1) && was[1..] == s[at + 1..at + |was|]
  {
    HeaderInFront(was, s, at);
    NoHeaderOn(s, start, at);
  }

  /** The header search: drop bytes until the buffer begins with a header or is too short to tell. */
  method Search(buf: array<Byte>, n: nat, ghost s: seq<Byte>, ghost start: nat) returns (pos: nat, ghost at: nat)
    requires n <= buf.Length && start + n <= |s| && buf[..n] == s[start..start + n]
    modifies buf
    ensures pos <= n && at == start + (n - pos) && buf[..pos] == s[at..at + pos]
    ensures NoHeader(s, start, at)
    ensures pos >= 3 ==> HeaderAt(s, at)
  {
    hide HeaderAt, NoHeader;
    pos, at := n, start;
    NoHeaderOn(s, start, at);
    while pos >= 3 && (buf[0] != 0x55 || buf[1] != 0xff || buf[2] != 0x00)
      invariant pos <= n && at == start + (n - pos) && buf[..pos] == s[at..at + pos]
      invariant NoHeader(s, start, at)
    {
      ghost var was := buf[..pos];
      assert was[0] == buf[0] && was[1] == buf[1] && was[2] == buf[2] && was[1..] == buf[1..pos];
      Passed(was, s, start, at);
      Shift(buf, pos);
      pos := pos - 1;
      at := at + 1;
    }
    if pos >= 3 {
      HeaderInFront(buf[..pos], s, at);
    }
  }

  /** The frame for n bytes that begins with the first header of the stream s. */
  ghost predicate FrameIn(s: seq<Byte>, h: nat, n: nat) {
    FirstHeader(s, h) && h + 2 * n + 5 <= |s|
  }

  /** The result for the bytes f of a frame. */
  ghost predicate Result(f: seq<Byte>, n: nat, ret: int, data: seq<Byte>)
    requires |f| == 2 * n + 5
  {
    var d := Decoded(f, n);
    if d.Some? then ret == n && data == d.value else ret == -1
  }

  /** recv_from_rcx for a payload of n bytes.  When the first header in the stream has a whole frame's
      length behind it, and every read delivers something, then whatever the reads deliver at a time
      exactly the bytes up to the end of that frame are read, and the result is what those bytes decode to. */
  method Receive(b: Brick, n: nat) returns (ret: int, data: seq<Byte>)
    modifies b`wire, b`readPlan
    ensures forall h: nat :: (FrameIn(old(b.wire), h, n) && Willing(old(b.readPlan), |old(b.wire)|)
      ==> b.wire == old(b.wire)[h + 2 * n + 5..] && Result(old(b.wire)[h..h + 2 * n + 5], n, ret, data))
  {
    hide Decoded, HeaderAt, FirstHeader, NoHeader, Result;
    NoHeaderOn(b.wire, 0, 0);
    ghost var s, plan, j := b.wire, b.readPlan, 0;
    var len := 2 * n + 5;
    var buf := new Byte[len](_ => 0);
    var pos: nat := 0;
    ghost var start: nat := 0;
    ret, data := -1, [];
    while pos < len
      invariant pos <= len && start + pos <= |s| && b.wire == s[start + pos..] && buf[..pos] == s[start..start + pos]
      invariant NoHeader(s, 0, start)
      invariant pos >= 3 ==> HeaderAt(s, start)
      invariant 0 <= j <= |plan| && b.readPlan == plan[j..]
      invariant Willing(plan, |s|) ==> j <= start + pos
      decreases |b.readPlan|, len - pos
    {
      var limit := if len - pos > PKT_SIZE then PKT_SIZE else len - pos;
      ret := b.Read(buf, pos, limit);
      if ret < 0 {
        if b.wire == [] { TooShort(s, start, pos, n); }
        return -1, [];
      }
      j := j + 1;
      Next(buf, s, start, pos, ret);
      ghost var from := start;
      pos, start := Search(buf, pos + ret, s, start);
      NoHeaderJoin(s, 0, from, start);
    }
    ret, data := Check(buf, n);
    OnlyHeader(s, start);
    assert buf[..] == s[start..start + len];
  }

  /** The bytes read go behind those in the buffer. */
  lemma Next(buf: array<Byte>, s: seq<Byte>, start: nat, pos: nat, k: nat)
    requires start + pos + k <= |s| && pos + k <= buf.Length
    requires buf[..pos] == s[start..start + pos] && buf[pos..pos + k] == s[start + pos..][..k]
    ensures buf[..pos + k] == s[start..start + pos + k]
    ensures s[start + pos..][k..] == s[start + pos + k..]
  {
    assert buf[..pos + k] == buf[..pos] + buf[pos..pos + k];
    assert s[start..start + pos] + s[start + pos..][..k] == s[start..start + pos + k];
  }

  lemma OnlyHeader(s: seq<Byte>, start: nat)
    requires HeaderAt(s, start) && NoHeader(s, 0, start)
    ensures forall h: nat :: FirstHeader(s, h) ==> h == start
  {
  }

  /** At the end of the stream with less than a frame in the buffer there was no whole frame. */
  lemma TooShort(s: seq<Byte>, start: nat, pos: nat, n: nat)
    requires start + pos == |s| && pos < 2 * n + 5 && NoHeader(s, 0, start)
    ensures forall h: nat :: FirstHeader(s, h) ==> h + 2 * n + 5 > |s|
  {
  }

  /** Take the payload out of a whole frame and check the sum. */
  method Check(buf: array<Byte>, n: nat) returns (ret: int, data: seq<Byte>)
    requires buf.Length == 2 * n + 5
    ensures Result(buf[..], n, ret, data)
  {
    data := [];
    var i := 3;
    while i < 2 * n + 3
      invariant i == 3 + 2 * |data| && |data| <= n && data == Payload(buf[..], n)[..|data|]
    {
      data := data + [buf[i]];
      i := i + 2;
    }
    assert data == Payload(buf[..], n);
    var sum: nat := 0;
    for k := 0 to |data|
      invariant sum == Sum(data[..k])
    {
      assert data[..k + 1][..k] == data[..k];
      sum := sum + data[k];
    }
    assert data[..|data|] == data;
    ret := if buf[2 * n + 3] == sum % 256 then |data| else -1;
  }

  /** The round trip: after any garbage in which, together with the frame, no header comes before the
      frame's own, the payload is received and what follows the frame is not read. */
  method RoundTrip(b: Brick, garbage: seq<Byte>, payload: seq<Byte>, rest: seq<Byte>)
    returns (ret: int, data: seq<Byte>)
    requires b.wire == garbage + Frame(payload) + rest && FirstHeader(b.wire, |garbage|)
    requires Willing(b.readPlan, |b.wire|)
    modifies b`wire, b`readPlan
    ensures ret == |payload| && data == payload && b.wire == rest
  {
    ghost var s, h, f := b.wire, |garbage|, Frame(payload);
    assert s[h..h + |f|] == f && s[h + |f|..] == rest;
    FrameDecodes(payload);
    assert FrameIn(s, h, |payload|);
    ret, data := Receive(b, |payload|);
  }

  // ---- firmware blocks ----

  /** The message for the i-th block: the operation with its toggle bit, the block number, which is zero
      for the last one, the length, the data and their sum. */
  function BlockMessage(i: nat, last: bool, d: seq<Byte>): (m: seq<Byte>)
    ensures |m| == |d| + 6
  {
    var number := if last then 0 else i + 1;
    [0x45 + 8 * ((i + 1) % 2), number % 256, number / 256 % 256, |d| % 256, |d| / 256 % 256] + d + [SumByte(d)]
  }

  /** What the message of block i says: it asks for the transfer of a block, in the form that takes turns with
      the other; the number, counted from one but zero for the last block, and the length are written low
      byte first; and the data are followed by the low byte of their sum. */
  ghost predicate SaysBlock(m: seq<Byte>, i: nat, last: bool, d: seq<Byte>) {
    && |m| == |d| + 6 && m[5..5 + |d|] == d
    && m[0] in {0x45, 0x4d} && (m[0] == 0x4d <==> i % 2 == 0)
    && m[1] as int + 256 * (m[2] as int) == (if last then 0 else i + 1) && m[3] as int + 256 * (m[4] as int) == |d|
    && (Total(d) - m[|m| - 1]) % 256 == 0
  }

  lemma BlockSays(i: nat, last: bool, d: seq<Byte>)
    requires |d| < 0x1_0000 && i + 1 < 0x1_0000
    ensures SaysBlock(BlockMessage(i, last, d), i, last, d)
  {
    SumIsTotal(d);
    var m := BlockMessage(i, last, d);
    assert m[5..5 + |d|] == d;
  }

  /** Two blocks that follow each other differ in the operation. */
  lemma BlocksToggle(m: seq<Byte>, k: seq<Byte>, i: nat, last: bool, d: seq<Byte>, e: seq<Byte>)
    requires SaysBlock(m, i, false, d) && SaysBlock(k, i + 1, last, e)
    ensures m[0] != k[0]
  {
    assert i % 2 == 0 <==> (i + 1) % 2 == 1;
  }

  /** What a receiver collects from the messages. */
  function Collected(ms: seq<seq<Byte>>): seq<Byte>
    requires forall k :: 0 <= k < |ms| ==> |ms[k]| >= 6
  {
    if ms == [] then [] else Collected(ms[..|ms| - 1]) + ms[|ms| - 1][5..|ms[|ms| - 1]| - 1]
  }

  /** A block of a firmware: full unless it is the last one, and numbered. */
  ghost predicate IsBlock(m: seq<Byte>, i: nat, last: bool) {
    exists d: seq<Byte> :: m == BlockMessage(i, last, d) && 0 < |d| <= IR_BLOCK_SIZE && (!last ==> |d| == IR_BLOCK_SIZE)
  }

  /** Compose one message, byte by byte. */
  method ComposeBlock(block: nat, last: bool, d: seq<Byte>) returns (m: seq<Byte>)
    requires block > 0
    ensures m == BlockMessage(block - 1, last, d)
  {
    var number := if last then 0 else block;
    m := [0x45 + 8 * (block % 2)];
    m := m + [number % 256, number / 256 % 256] + [|d| % 256, |d| / 256 % 256];
    m := m + d;
    m := m + [SumByte(d)];
  }

  /** The first messages carry the image up to pos, and the last of them says so if that is all. */
  ghost predicate Carried(ms: seq<seq<Byte>>, image: seq<Byte>, pos: nat)
    requires pos <= |image|
  {
    && (forall k :: 0 <= k < |ms| ==> |ms[k]| >= 6)
    && (forall i :: 0 <= i < |ms| ==> IsBlock(ms[i], i, pos == |image| && i == |ms| - 1))
    && Collected(ms) == image[..pos]
  }

  lemma CollectOne(ms: seq<seq<Byte>>, m: seq<Byte>, image: seq<Byte>, pos: nat, n: nat)
    requires pos < pos + n <= |image| && Carried(ms, image, pos) && n <= IR_BLOCK_SIZE
    requires IsBlock(m, |ms|, pos + n == |image|) && |m| >= 6 && m[5..|m| - 1] == image[pos..pos + n]
    ensures Carried(ms + [m], image, pos + n)
  {
    hide IsBlock;
    var t := ms + [m];
    assert t[..|t| - 1] == ms && t[|t| - 1] == m;
    assert image[..pos] + image[pos..pos + n] == image[..pos + n];
    forall i | 0 <= i < |t| ensures |t[i]| >= 6 && IsBlock(t[i], i, pos + n == |image| && i == |t| - 1) {
      if i < |ms| { assert t[i] == ms[i]; }
    }
  }

  lemma BlockIs(i: nat, last: bool, d: seq<Byte>)
    requires 0 < |d| <= IR_BLOCK_SIZE && (!last ==> |d| == IR_BLOCK_SIZE)
    ensures var m := BlockMessage(i, last, d); IsBlock(m, i, last) && |m| >= 6 && m[5..|m| - 1] == d
  {
  }

  lemma CarriedEnds(image: seq<Byte>)
    ensures Carried([], image, 0)
    ensures forall ms :: Carried(ms, image, |image|) ==>
      (forall i :: 0 <= i < |ms| ==> |ms[i]| >= 6 && IsBlock(ms[i], i, i == |ms| - 1)) && Collected(ms) == image
  {
    assert image[..|image|] == image;
    hide IsBlock;
  }

  /** The block loop of upload_firmware: the messages carry the image, in order and completely. */
  method Blocks(image: seq<Byte>) returns (ms: seq<seq<Byte>>)
    ensures forall i :: 0 <= i < |ms| ==> |ms[i]| >= 6 && IsBlock(ms[i], i, i == |ms| - 1)
    ensures Collected(ms) == image
  {
    ms := [];
    var block, pos := 1, 0;
    CarriedEnds(image);
    hide Carried, BlockMessage, IsBlock;
    while pos < |image|
      invariant 0 <= pos <= |image| && (pos < |image| ==> block == |ms| + 1 && pos == IR_BLOCK_SIZE * |ms|)
      invariant Carried(ms, image, pos)
      decreases |image| - pos
    {
      var pkt := if |image| - pos > IR_BLOCK_SIZE then IR_BLOCK_SIZE else |image| - pos;
      var last := !(|image| - pos > pkt);
      var m := ComposeBlock(block, last, image[pos..pos + pkt]);
      BlockIs(block - 1, last, image[pos..pos + pkt]);
      CollectOne(ms, m, image, pos, pkt);
      ms := ms + [m];
      if !last { block := block + 1; }
      pos := pos + pkt;
    }
  }
}
