/** Small shared vocabulary: optional values, bytes, and sequences. */
module Common {

  type Byte = b: int | 0 <= b < 256

  datatype Option<+T> = None | Some(value: T)

  /** No element occurs at two different positions. */
  ghost predicate NoDup<T>(s: seq<T>) {
    forall i, j :: 0 <= i < j < |s| ==> s[i] != s[j]
  }

  lemma NoDupSnoc<T>(s: seq<T>, x: T)
    requires NoDup(s) && x !in s
    ensures NoDup(s + [x])
  {
  }

  lemma NoDupTail<T>(s: seq<T>)
    requires NoDup(s) && s != []
    ensures NoDup(s[1..]) && s[0] !in s[1..]
    ensures forall x :: x in s <==> x == s[0] || x in s[1..]
  {
    assert s == [s[0]] + s[1..];
  }

  lemma RemoveAt<T>(s: seq<T>, k: nat)
    requires k < |s|
    ensures multiset(s[..k] + s[k + 1..]) == multiset(s) - multiset{s[k]}
  {
    assert s == s[..k] + [s[k]] + s[k + 1..];
  }

  /** Take the first element away from one side, and an equal one from the other. */
  lemma RemoveBoth<T>(a: seq<T>, b: seq<T>) returns (k: nat)
    requires multiset(a) == multiset(b) && a != []
    ensures k < |b| && b[k] == a[0] && multiset(a[1..]) == multiset(b[..k] + b[k + 1..])
  {
    assert a[0] in multiset(b);
    k :| 0 <= k < |b| && b[k] == a[0];
    RemoveAt(a, 0);
    RemoveAt(b, k);
    assert a[..0] + a[0 + 1..] == a[1..];
  }

  lemma JoinParts<T>(a: seq<T>, b: seq<T>)
    ensures (a + b)[..|a|] == a && (a + b)[|a|..] == b
  {
  }

  lemma SplitAt<T>(s: seq<T>, k: nat)
    requires k < |s|
    ensures s == s[..k] + ([s[k]] + s[k + 1..])
  {
  }

  lemma ConsParts<T>(x: T, s: seq<T>)
    ensures ([x] + s)[0] == x && ([x] + s)[1..] == s
  {
  }

  lemma Assoc<T>(a: seq<T>, b: seq<T>, c: seq<T>)
    ensures (a + b) + c == a + (b + c)
  {
  }

  lemma Regroup<T>(a: seq<T>, b: seq<T>, c: seq<T>, d: seq<T>)
    ensures a + (b + (c + d)) == (a + b) + c + d && (a + b + c) + d == a + (b + c + d)
  {
  }

  /** The parts, joined with the last in front. */
  function JoinBack<T>(parts: seq<seq<T>>): seq<T> {
    if parts == [] then [] else JoinBack(parts[1..]) + parts[0]
  }

  lemma {:induction false} JoinBackHolds<T>(parts: seq<seq<T>>, x: T)
    ensures x in JoinBack(parts) <==> exists k: nat :: k < |parts| && x in parts[k]
    decreases |parts|
  {
    if parts == [] {
    } else {
      JoinBackHolds(parts[1..], x);
      if k: nat :| k < |parts[1..]| && x in parts[1..][k] { assert x in parts[k + 1]; }
      if k: nat :| k < |parts| && x in parts[k] {
        if k > 0 { assert x in parts[1..][k - 1]; }
      }
    }
  }

  function Pow256(k: nat): (p: int)
    ensures p >= 1
  {
    if k == 0 then 1 else 256 * Pow256(k - 1)
  }

  /** Two to the power k. */
  function Pow2(k: nat): (r: int)
    ensures r >= 1
  {
    if k == 0 then 1 else 2 * Pow2(k - 1)
  }

  // ---- remainders ----

  lemma ModIs(y: int, p: int, q: int, r: int)
    requires p >= 1 && 0 <= r < p && y == p * q + r
    ensures y % p == r
  {
    var d := y / p;
    assert y == p * d + y % p;
    assert p * (d - q) == r - y % p;
    assert p * (q - d) == y % p - r;
    if d > q { MulAtLeast(p, d - q); }
    if d < q { MulAtLeast(p, q - d); }
  }

  lemma MulAtLeast(p: int, k: int)
    requires p >= 1 && k >= 1
    ensures p * k >= p
  {
  }

  lemma DivIs(y: int, p: int, q: int, r: int)
    requires p >= 1 && 0 <= r < p && y == p * q + r
    ensures y / p == q
  {
    ModIs(y, p, q, r);
    var d := y / p;
    assert y == p * d + y % p;
    assert p * (d - q) == 0;
    if d > q { MulAtLeast(p, d - q); }
    if d < q {
      assert p * (q - d) == 0;
      MulAtLeast(p, q - d);
    }
  }
}
