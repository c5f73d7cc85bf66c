/** Integer facts about pairs of 32-bit words. */
module Words64 {
  import opened Common
  import opened Machine386

  lemma Pow2Add(a: nat, b: nat)
    ensures Pow2(a + b) == Pow2(a) * Pow2(b)
  {
    if a > 0 {
      Pow2Add(a - 1, b);
      assert Pow2(a) == 2 * Pow2(a - 1) && Pow2(a + b) == 2 * Pow2(a + b - 1);
      MulAssoc(2, Pow2(a - 1), Pow2(b));
    }
  }

  lemma MulAssoc(a: int, b: int, c: int)
    ensures (a * b) * c == a * (b * c)
  {
  }

  lemma Pow2Word()
    ensures Pow2(32) == W && Pow2(64) == W * W
  {
    assert Pow2(8) == 256;
    Pow2Add(8, 8);
    Pow2Add(16, 16);
    Pow2Add(32, 32);
  }

  /** Quotient and remainder are determined by their defining property. */
  lemma DivModUnique(x: int, d: int, q: int, r: int)
    requires d > 0 && x == q * d + r && 0 <= r < d
    ensures x / d == q && x % d == r
  {
    var q', r' := x / d, x % d;
    assert (q - q') * d == r' - r;
    if q - q' >= 1 { MulMono(1, q - q', d); }
    if q - q' <= -1 { MulMono(1, q' - q, d); }
  }

  lemma MulMono(a: int, b: int, d: int)
    requires a <= b && d >= 0
    ensures a * d <= b * d
  {
  }

  lemma Distribute(a: int, b: int, d: int)
    ensures (a + b) * d == a * d + b * d && (a - b) * d == a * d - b * d
  {
  }

  /** The 64-bit value of a pair. */
  function Pair(hi: int, lo: int): int { hi * W + lo }

  predicate IsPair(hi: int, lo: int) { 0 <= hi < W && 0 <= lo < W }

  /** With p * q == W, shifting left by p splits x at its q-th part. */
  lemma SplitLeft(x: int, p: int, q: int)
    requires p >= 1 && q >= 1 && p * q == W && 0 <= x < W
    ensures (x * p) % W == (x % q) * p && (x * p) / W == x / q && 0 <= x / q < p && 0 <= (x % q) * p <= W - p
  {
    var a, b := x / q, x % q;
    assert x == a * q + b;
    Distribute(a * q, b, p);
    MulAssoc(a, q, p);
    assert q * p == W;
    MulMono(0, b, p);
    MulMono(b, q - 1, p);
    Distribute(q, 1, p);
    assert x * p == a * W + b * p;
    DivModUnique(x * p, W, a, b * p);
    if a >= p { MulMono(p, a, q); }
    if a < 0 { MulMono(a, -1, q); }
  }

  lemma LeftProduct(hi: int, lo: int, p: int, h: int, a: int, c: int, b: int)
    requires hi * p == h * W + a && lo * p == c * W + b
    ensures Pair(hi, lo) * p == h * (W * W) + Pair(a + c, b)
  {
    calc {
      (hi * W + lo) * p;
    == { Distribute(hi * W, lo, p); MulAssoc(hi, W, p); MulAssoc(hi, p, W); }
      (hi * p) * W + lo * p;
    == { Distribute(h * W, a, W); MulAssoc(h, W, W); }
      h * (W * W) + a * W + c * W + b;
    }
  }

  lemma TimesIs(x: int, y: nat)
    ensures Times(x, y) == x * y
  {
    if y > 0 {
      TimesIs(x, y - 1);
      Distribute(y - 1, 1, x);
    }
  }

  lemma {:induction false} ShlIs(x: int, k: nat)
    requires 0 <= x < W
    ensures ShlWord(x, k) == (x * Pow2(k)) % W
    decreases k
  {
    if k == 0 {
    } else {
      var r := Double(x);
      var q := (2 * x - r) / W;
      ShlIs(r, k - 1);
      var p := Pow2(k - 1);
      MulAssoc(2, x, p);
      assert x * Pow2(k) == (2 * x) * p by { MulAssoc(x, 2, p); }
      Distribute(q * W, r, p);
      MulAssoc(q, W, p);
      MulAssoc(q, p, W);
      var a, b := (r * p) / W, (r * p) % W;
      Distribute(q * p, a, W);
      DivModUnique(x * Pow2(k), W, q * p + a, b);
    }
  }

  lemma {:induction false} ShrIs(x: int, k: nat)
    requires x >= 0
    ensures ShrWord(x, k) == x / Pow2(k)
    decreases k
  {
    if k == 0 {
    } else {
      ShrIs(x / 2, k - 1);
      var p := Pow2(k - 1);
      var a, b := (x / 2) / p, (x / 2) % p;
      MulAssoc(a, p, 2);
      DivModUnique(x, Pow2(k), a, 2 * b + x % 2);
    }
  }

  /** Left shift of a pair by less than a word. */
  lemma ShiftLeftShort(hi: int, lo: int, n: nat)
    requires IsPair(hi, lo) && n < 32
    ensures IsPair(ShldWord(hi, lo, n), ShlWord(lo, n))
    ensures Pair(ShldWord(hi, lo, n), ShlWord(lo, n)) == (Pair(hi, lo) * Pow2(n)) % (W * W)
  {
    Pow2Add(n, 32 - n);
    Pow2Word();
    ShlIs(hi, n);
    ShlIs(lo, n);
    ShrIs(lo, 32 - n);
    ShiftLeftPq(hi, lo, Pow2(n), Pow2(32 - n));
  }

  lemma ShiftLeftPq(hi: int, lo: int, p: int, q: int)
    requires IsPair(hi, lo) && p >= 1 && q >= 1 && p * q == W
    ensures IsPair((hi * p) % W + lo / q, (lo * p) % W)
    ensures Pair((hi * p) % W + lo / q, (lo * p) % W) == (Pair(hi, lo) * p) % (W * W)
  {
    SplitLeft(lo, p, q);
    SplitLeft(hi, p, q);
    LeftProduct(hi, lo, p, hi / q, (hi * p) % W, lo / q, (lo * p) % W);
    PairBound((hi * p) % W + lo / q, (lo * p) % W);
    DivModUnique(Pair(hi, lo) * p, W * W, hi / q, Pair((hi * p) % W + lo / q, (lo * p) % W));
  }

  lemma PairBound(hi: int, lo: int)
    requires IsPair(hi, lo)
    ensures 0 <= Pair(hi, lo) < W * W
  {
    MulMono(0, hi, W);
    MulMono(hi, W - 1, W);
  }

  /** Left shift of a pair by a word and k bits more. */
  lemma ShiftLeftWord(hi: int, lo: int, k: nat)
    requires IsPair(hi, lo) && k < 32
    ensures IsPair(ShlWord(lo, k), 0)
    ensures Pair(ShlWord(lo, k), 0) == (Pair(hi, lo) * Pow2(32 + k)) % (W * W)
  {
    var p := Pow2(k);
    Pow2Add(32, k);
    Pow2Word();
    ShlIs(lo, k);
    var a, b := (lo * p) / W, (lo * p) % W;
    assert lo * p == a * W + b;
    calc {
      Pair(hi, lo) * Pow2(32 + k);
    ==
      (hi * W + lo) * (W * p);
    == { MulAssoc(hi * W + lo, p, W); Distribute(hi * W, lo, p); }
      ((hi * W) * p + lo * p) * W;
    == { MulAssoc(hi, W, p); MulAssoc(hi, p, W); }
      ((hi * p) * W + a * W + b) * W;
    == { Distribute(hi * p, a, W); Distribute((hi * p + a) * W, b, W); MulAssoc(hi * p + a, W, W); }
      (hi * p + a) * (W * W) + b * W;
    }
    PairBound(b, 0);
    DivModUnique(Pair(hi, lo) * Pow2(32 + k), W * W, hi * p + a, b * W);
  }

  /** Left shift by two words or more leaves nothing. */
  lemma ShiftLeftOut(x: int, n: nat)
    requires n >= 64
    ensures (x * Pow2(n)) % (W * W) == 0
  {
    Pow2Add(64, n - 64);
    Pow2Word();
    var p := Pow2(n - 64);
    assert x * (W * W * p) == (x * p) * (W * W) by { MulAssoc(x, p, W * W); }
    DivModUnique(x * Pow2(n), W * W, x * p, 0);
  }

  lemma RightProduct(p: int, q: int, a: int, b: int, c: int, d: int)
    requires p * q == W
    ensures Pair(a * p + b, c * p + d) == Pair(a, c + b * q) * p + d
  {
    calc {
      (a * p + b) * W + c * p + d;
    == { Distribute(a * p, b, W); MulAssoc(a, p, W); MulAssoc(a, W, p); }
      (a * W) * p + b * (p * q) + c * p + d;
    == { MulAssoc(b, q, p); }
      (a * W) * p + (b * q) * p + c * p + d;
    == { Distribute(a * W, c, p); Distribute(a * W + c, b * q, p); }
      (a * W + c + b * q) * p + d;
    }
  }

  /** Right shift of a pair by less than a word. */
  lemma ShiftRightShort(hi: int, lo: int, n: nat)
    requires IsPair(hi, lo) && n < 32
    ensures IsPair(ShrWord(hi, n), ShrdWord(lo, hi, n))
    ensures Pair(ShrWord(hi, n), ShrdWord(lo, hi, n)) == Pair(hi, lo) / Pow2(n)
  {
    Pow2Add(n, 32 - n);
    Pow2Word();
    ShrIs(hi, n);
    ShrIs(lo, n);
    ShlIs(hi, 32 - n);
    ShiftRightPq(hi, lo, Pow2(n), Pow2(32 - n));
  }

  lemma ShiftRightPq(hi: int, lo: int, p: int, q: int)
    requires IsPair(hi, lo) && p >= 1 && q >= 1 && p * q == W
    ensures IsPair(hi / p, lo / p + (hi * q) % W)
    ensures Pair(hi / p, lo / p + (hi * q) % W) == Pair(hi, lo) / p
  {
    SplitLeft(hi, q, p);
    SplitLeft(lo, q, p);
    Divided(hi, p);
    Divided(lo, p);
    RightProduct(p, q, hi / p, hi % p, lo / p, lo % p);
    DivModUnique(Pair(hi, lo), p, Pair(hi / p, lo / p + (hi % p) * q), lo % p);
  }

  lemma Divided(x: int, p: int)
    requires p >= 1 && 0 <= x < W
    ensures x == (x / p) * p + x % p && 0 <= x / p < W
  {
    var a := x / p;
    if a >= W { MulMono(W, a, p); MulMono(1, p, W); }
    if a < 0 { MulMono(a, -1, p); }
  }

  /** Right shift of a pair by a word and k bits more. */
  lemma ShiftRightWord(hi: int, lo: int, k: nat)
    requires IsPair(hi, lo) && k < 32
    ensures IsPair(0, ShrWord(hi, k))
    ensures Pair(0, ShrWord(hi, k)) == Pair(hi, lo) / Pow2(32 + k)
  {
    Pow2Add(32, k);
    Pow2Word();
    ShrIs(hi, k);
    Divided(hi, Pow2(k));
    RightWordPq(hi / Pow2(k), hi % Pow2(k), lo, Pow2(k));
  }

  lemma RightWordPq(a: int, b: int, lo: int, p: int)
    requires p >= 1 && 0 <= b < p && 0 <= lo < W
    ensures Pair(a * p + b, lo) / (W * p) == a
  {
    Distribute(a * p, b, W);
    MulAssoc(a, p, W);
    MulMono(0, b, W);
    MulMono(b, p - 1, W);
    Distribute(p, 1, W);
    DivModUnique(Pair(a * p + b, lo), p * W, a, b * W + lo);
  }

  /** Right shift by two words or more leaves nothing. */
  lemma ShiftRightOut(hi: int, lo: int, n: nat)
    requires IsPair(hi, lo) && n >= 64
    ensures Pair(hi, lo) / Pow2(n) == 0
  {
    Pow2Add(64, n - 64);
    Pow2Word();
    PairBound(hi, lo);
    MulMono(1, Pow2(n - 64), W * W);
    DivModUnique(Pair(hi, lo), Pow2(n), 0, Pair(hi, lo));
  }
}
