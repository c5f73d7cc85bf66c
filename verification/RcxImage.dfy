/** Putting the firmware image together from the records of an S-record file. */
module RcxImage {
  import opened Common
  import opened Rcx

  const WORD: int := 0x1_0000_0000
  const MAX_IMAGE: int := 0x7000

  /** A record as load_srec leaves it: kind 1 holds data, kind 9 the start address. */
  datatype Srec = Srec(kind: nat, addr: nat, data: seq<Byte>)

  datatype Firmware = Firmware(addr: nat, start: nat, data: seq<Byte>)

  /** Addresses of data have two bytes, and what is left of a line for data is at most 252 bytes. */
  predicate Parsed(r: Srec) {
    r.kind == 1 ==> r.addr < 0x1_0000 && |r.data| <= 252
  }

  predicate AllParsed(recs: seq<Srec>) {
    forall j :: 0 <= j < |recs| ==> Parsed(recs[j])
  }

  function End(r: Srec): nat { r.addr + |r.data| }

  /** The lower and the upper bound of the data, as they are kept while the file is read. */
  function Lowest(recs: seq<Srec>): (lo: nat)
    ensures lo < 0x1_0000_0000
  {
    if recs == [] then 0xffff_ffff
    else
      var (l, r) := (Lowest(recs[..|recs| - 1]), recs[|recs| - 1]);
      if r.kind == 1 && r.addr < l then r.addr else l
  }

  function Highest(recs: seq<Srec>): nat {
    if recs == [] then 0
    else
      var (u, r) := (Highest(recs[..|recs| - 1]), recs[|recs| - 1]);
      if r.kind == 1 && End(r) > u then End(r) else u
  }

  function LastStart(recs: seq<Srec>): nat {
    if recs == [] then 0
    else if recs[|recs| - 1].kind == 9 then recs[|recs| - 1].addr else LastStart(recs[..|recs| - 1])
  }

  predicate Covers(r: Srec, a: int) {
    r.kind == 1 && r.addr <= a < End(r)
  }

  /** The byte for address a: that of the last record that has one, or zero. */
  function ByteAt(recs: seq<Srec>, a: int): Byte {
    if recs == [] then 0
    else
      var r := recs[|recs| - 1];
      if Covers(r, a) then r.data[a - r.addr] else ByteAt(recs[..|recs| - 1], a)
  }

  /** The length, as an unsigned difference. */
  function Length(recs: seq<Srec>): nat {
    (Highest(recs) - Lowest(recs)) % 0x1_0000_0000
  }

  /** The bytes for n addresses from lo on. */
  function BytesFrom(recs: seq<Srec>, lo: int, n: nat): (d: seq<Byte>)
    ensures |d| == n && forall k :: 0 <= k < n ==> d[k] == ByteAt(recs, lo + k)
  {
    if n == 0 then [] else BytesFrom(recs, lo, n - 1) + [ByteAt(recs, lo + n - 1)]
  }

  /** The image of a file; None is one of the two error exits. */
  function Image(recs: seq<Srec>): Option<Firmware> {
    if recs == [] || Length(recs) > MAX_IMAGE then None
    else Some(Firmware(Lowest(recs), LastStart(recs), BytesFrom(recs, Lowest(recs), Length(recs))))
  }

  /** The bounds enclose every data record. */
  lemma {:induction false} Encloses(recs: seq<Srec>, j: nat)
    requires j < |recs| && recs[j].kind == 1
    ensures Lowest(recs) <= recs[j].addr && End(recs[j]) <= Highest(recs)
    decreases |recs|
  {
    if j >= |recs| - 1 {
    } else {
      Encloses(recs[..|recs| - 1], j);
    }
  }

  /** And they are the bounds of data records, if there are any. */
  lemma {:induction false} Attained(recs: seq<Srec>, j: nat)
    requires AllParsed(recs) && j < |recs| && recs[j].kind == 1
    ensures exists i :: 0 <= i < |recs| && recs[i].kind == 1 && recs[i].addr == Lowest(recs)
    ensures exists i :: 0 <= i < |recs| && recs[i].kind == 1 && End(recs[i]) == Highest(recs)
    decreases |recs|
  {
    var s, r := recs[..|recs| - 1], recs[|recs| - 1];
    if i: nat :| i < |s| && s[i].kind == 1 {
      Attained(s, i);
      var x :| 0 <= x < |s| && s[x].kind == 1 && s[x].addr == Lowest(s);
      var y :| 0 <= y < |s| && s[y].kind == 1 && End(s[y]) == Highest(s);
      assert recs[x] == s[x] && recs[y] == s[y];
    } else {
      NoData(s);
      assert recs[j] == r;
    }
  }

  lemma {:induction false} NoData(recs: seq<Srec>)
    requires forall i :: 0 <= i < |recs| ==> recs[i].kind != 1
    ensures Lowest(recs) == 0xffff_ffff && Highest(recs) == 0
    decreases |recs|
  {
    if recs == [] {
    } else {
      NoData(recs[..|recs| - 1]);
    }
  }

  /** Without data records the difference of the bounds wraps around, and the image is one zero byte at
      the last address there is. */
  lemma NoDataImage(recs: seq<Srec>)
    requires recs != [] && forall i :: 0 <= i < |recs| ==> recs[i].kind != 1
    ensures Image(recs) == Some(Firmware(0xffff_ffff, LastStart(recs), [0]))
  {
    hide Lowest, Highest, LastStart, ByteAt, BytesFrom;
    NoData(recs);
    Nowhere(recs, 0xffff_ffff);
    var d := Image(recs).value.data;
    assert |d| == 1 && d[0] == ByteAt(recs, 0xffff_ffff) && d == [0];
  }

  lemma {:induction false} Nowhere(recs: seq<Srec>, a: int)
    requires forall i :: 0 <= i < |recs| ==> !Covers(recs[i], a)
    ensures ByteAt(recs, a) == 0
    decreases |recs|
  {
    if recs == [] {
    } else {
      Nowhere(recs[..|recs| - 1], a);
    }
  }

  /** The last record that covers an address decides. */
  lemma {:induction false} LastDecides(recs: seq<Srec>, j: nat, a: int)
    requires j < |recs| && Covers(recs[j], a) && forall i :: j < i < |recs| ==> !Covers(recs[i], a)
    ensures ByteAt(recs, a) == recs[j].data[a - recs[j].addr]
    decreases |recs|
  {
    if j >= |recs| - 1 {
    } else {
      LastDecides(recs[..|recs| - 1], j, a);
    }
  }

  /** Every data record lies in the image, and where no later record overlaps it the image holds its
      bytes at its address. */
  lemma ImageHolds(recs: seq<Srec>, j: nat)
    requires AllParsed(recs) && Image(recs).Some? && j < |recs| && recs[j].kind == 1
    ensures var fw, r := Image(recs).value, recs[j];
      fw.addr <= r.addr && End(r) <= fw.addr + |fw.data|
      && ((forall i, a :: j < i < |recs| && r.addr <= a < End(r) ==> !Covers(recs[i], a)) ==>
            fw.data[r.addr - fw.addr..End(r) - fw.addr] == r.data)
  {
    var fw, r := Image(recs).value, recs[j];
    Encloses(recs, j);
    BoundsSmall(recs);
    if forall i, a :: j < i < |recs| && r.addr <= a < End(r) ==> !Covers(recs[i], a) {
      forall k | 0 <= k < |r.data| ensures fw.data[r.addr - fw.addr + k] == r.data[k] {
        LastDecides(recs, j, r.addr + k);
      }
    }
  }

  lemma {:induction false} BoundsSmall(recs: seq<Srec>)
    requires AllParsed(recs)
    ensures Highest(recs) < 0x1_0000 + 252
    decreases |recs|
  {
    if recs == [] {
    } else {
      BoundsSmall(recs[..|recs| - 1]);
    }
  }

  /** The start address is that of the last record of kind 9, or zero. */
  lemma {:induction false} StartIs(recs: seq<Srec>, j: nat)
    requires forall i :: j < i < |recs| ==> recs[i].kind != 9
    ensures j < |recs| && recs[j].kind == 9 ==> LastStart(recs) == recs[j].addr
    ensures (forall i :: 0 <= i < |recs| ==> recs[i].kind != 9) ==> LastStart(recs) == 0
    decreases |recs|
  {
    if recs == [] {
    } else {
      StartIs(recs[..|recs| - 1], j);
    }
  }

  /** The distance from the beginning of one data record to the end of another is too large. */
  ghost predicate TooFar(recs: seq<Srec>, i: nat, j: nat) {
    i < |recs| && j < |recs| && recs[i].kind == 1 && recs[j].kind == 1 && End(recs[i]) - recs[j].addr > 0x7000
  }

  /** A file with data records is refused exactly when two of them are too far apart. */
  lemma ImageRefused(recs: seq<Srec>, d: nat)
    requires AllParsed(recs) && d < |recs| && recs[d].kind == 1
    ensures Image(recs).None? <==> exists i, j :: TooFar(recs, i, j)
  {
    hide Lowest, Highest, ByteAt, LastStart, BytesFrom;
    Attained(recs, d);
    BoundsSmall(recs);
    Encloses(recs, d);
    if i: nat, j: nat :| TooFar(recs, i, j) {
      Encloses(recs, i);
      Encloses(recs, j);
    }
    var j :| 0 <= j < |recs| && recs[j].kind == 1 && recs[j].addr == Lowest(recs);
    var i :| 0 <= i < |recs| && recs[i].kind == 1 && End(recs[i]) == Highest(recs);
    assert TooFar(recs, i, j) <==> Highest(recs) - Lowest(recs) > 0x7000;
  }

  /** The first loop of load_rcx_firmware, over the lines that could be parsed. */
  method Bounds(recs: seq<Srec>) returns (lo: nat, hi: nat, start: nat)
    ensures lo == Lowest(recs) && hi == Highest(recs) && start == LastStart(recs)
  {
    lo, hi, start := 0xffff_ffff, 0, 0;
    for j := 0 to |recs|
      invariant lo == Lowest(recs[..j]) && hi == Highest(recs[..j]) && start == LastStart(recs[..j])
    {
      assert recs[..j + 1][..j] == recs[..j];
      var r := recs[j];
      if r.kind == 1 {
        if r.addr < lo { lo := r.addr; }
        if r.addr + |r.data| > hi { hi := r.addr + |r.data|; }
      } else if r.kind == 9 {
        start := r.addr;
      }
    }
    assert recs[..|recs|] == recs;
  }

  /** load_rcx_firmware: find the bounds, clear the image, copy the data records in file order. */
  method Assemble(recs: seq<Srec>) returns (fw: Option<Firmware>)
    requires AllParsed(recs)
    ensures fw == Image(recs)
  {
    var lo, hi, start := Bounds(recs);
    var n := (hi - lo) % 0x1_0000_0000;
    if recs == [] || n > MAX_IMAGE { return None; }
    BoundsSmall(recs);
    var img := new Byte[n](_ => 0);
    for j := 0 to |recs|
      invariant forall k :: 0 <= k < n ==> img[k] == ByteAt(recs[..j], lo + k)
    {
      assert recs[..j + 1][..j] == recs[..j];
      var r := recs[j];
      if r.kind == 1 {
        Encloses(recs, j);
        CopyIn(img, r.addr - lo, r.data);
      }
    }
    assert recs[..|recs|] == recs;
    fw := Some(Firmware(lo, start, img[..]));
    assert img[..] == Image(recs).value.data;
  }

  /** memcpy. */
  method CopyIn(img: array<Byte>, at: nat, data: seq<Byte>)
    requires at + |data| <= img.Length
    modifies img
    ensures forall k :: 0 <= k < img.Length ==> img[k] == if at <= k < at + |data| then data[k - at] else old(img[k])
  {
    for i := 0 to |data|
      invariant forall k :: 0 <= k < img.Length ==> img[k] == if at <= k < at + i then data[k - at] else old(img[k])
    {
      img[at + i] := data[i];
    }
  }

  /** What goes to the brick is the image, in blocks. */
  method Upload(recs: seq<Srec>) returns (ms: seq<seq<Byte>>)
    requires AllParsed(recs)
    ensures Image(recs).None? ==> ms == []
    ensures forall i :: 0 <= i < |ms| ==> |ms[i]| >= 6 && IsBlock(ms[i], i, i == |ms| - 1)
    ensures Image(recs).Some? ==> Collected(ms) == Image(recs).value.data
  {
    var fw := Assemble(recs);
    if fw.None? { return []; }
    ms := Blocks(fw.value.data);
  }
}
