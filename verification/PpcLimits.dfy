/** Two forms the pass gets wrong, and exactly when. */
module PpcLimits {
  import opened Common
  import opened PpcRtl
  import opened PpcPass
  import opened PpcKeeps

  /** On machine t the rewritten instruction does what the original does. */
  ghost predicate KeptOn(env: Env, i: Ins, v: int, t: Mach) {
    Do(env, i, t).Some? && Line(env, Lined(Rewrite(i, v)), t).Some?
    && Agree(Do(env, i, t).value, Line(env, Lined(Rewrite(i, v)), t).value, v)
  }

  /** The addresses a store of four bytes touches. */
  lemma FourKeys(a: int, x: int, k: int)
    ensures k in StoreN(map[], a, 4, x) <==> k in {Word(a), Word(a + 1), Word(a + 2), Word(a + 3)}
  {
    var m1: map<int, int> := map[Word(a + 3) := x % 256];
    var m2 := m1[Word(a + 2) := x / 256 % 256];
    var m3 := m2[Word(a + 1) := x / 256 / 256 % 256];
    var m4 := m3[Word(a) := x / 256 / 256 / 256 % 256];
    StoreTail(map[], a, x, m1);
    assert StoreN(m1, a, 3, x / 256) == StoreN(m2, a, 2, x / 256 / 256);
    assert StoreN(m2, a, 2, x / 256 / 256) == StoreN(m3, a, 1, x / 256 / 256 / 256);
    assert StoreN(m3, a, 1, x / 256 / 256 / 256) == StoreN(m4, a, 0, x / 256 / 256 / 256 / 256) == m4;
  }

  lemma StoreTail(m: map<int, int>, a: int, x: int, m1: map<int, int>)
    requires m1 == m[Word(a + 3) := x % 256]
    ensures StoreN(m, a, 4, x) == StoreN(m1, a, 3, x / 256)
  {
  }

  lemma SameFour(b: W32, c: W32)
    requires b in {c, Word(c + 1), Word(c + 2), Word(c + 3)}
    requires Word(b + 3) in {c, Word(c + 1), Word(c + 2), Word(c + 3)}
    ensures b == c
  {
    assert Word(b + 3) == (if b + 3 < 0x1_0000_0000 then b + 3 else b + 3 - 0x1_0000_0000);
    assert Word(c + 1) == if c + 1 < 0x1_0000_0000 then c + 1 else c + 1 - 0x1_0000_0000;
  }

  /** Four bytes stored d further on are the same memory only when d is a multiple of 2^32. */
  lemma ShiftedStore(a: int, d: int, x: int)
    requires StoreN(map[], Word(a + d), 4, x) == StoreN(map[], Word(a), 4, x)
    ensures Word(d) == 0
  {
    var b: int := Word(a);
    var c: int := Word(a + d);
    FourKeys(b, x, b);
    FourKeys(c, x, b);
    FourKeys(b, x, Word(b + 3));
    FourKeys(c, x, Word(b + 3));
    SmallWord(b);
    SmallWord(c);
    SameFour(b, c);
    SameWord(a, d);
  }

  lemma SameWord(a: int, d: int)
    requires Word(a + d) == Word(a)
    ensures Word(d) == 0
  {
  }

  /** A constant, or a register below v. */
  predicate Plain(s: Arg, v: int) { s.Const? || (s.Reg? && s.r < v) }

  /** A constant or a register written to a name with a displacement: the displacement is dropped, so the
      pass is right exactly when it is zero modulo 2^32. */
  lemma NameDisplacement(env: Env, s: Arg, x: string, d: int, v: int)
    requires Plain(s, v)
    ensures var i := Move(s, Addr(NameAt(x), false, d)); (forall t: Mach :: KeptOn(env, i, v, t)) <==> Word(d) == 0
  {
    if Word(d) == 0 {
      forall t: Mach ensures KeptOn(env, Move(s, Addr(NameAt(x), false, d)), v, t) {
        StoreWithout(env, s, x, d, v, t);
        NoDistance(env.place(NameAt(x)), d);
      }
    } else {
      Misplaced(env, s, x, d, v);
    }
  }

  lemma Misplaced(env: Env, s: Arg, x: string, d: int, v: int)
    requires Plain(s, v) && Word(d) != 0
    ensures !KeptOn(env, Move(s, Addr(NameAt(x), false, d)), v, Mach(map[], map[], (0, 0)))
  {
    hide KeptOn, StoreN, Value;
    var t := Mach(map[], map[], (0, 0));
    var a, y := env.place(NameAt(x)), Value(env, t, s);
    StoreWithout(env, s, x, d, v, t);
    if StoreN(map[], Word(a + d), 4, y) == StoreN(map[], Word(a), 4, y) { ShiftedStore(a, d, y); }
  }

  /** What is stored goes to the name itself. */
  lemma StoreWithout(env: Env, s: Arg, x: string, d: int, v: int, t: Mach)
    requires Plain(s, v)
    ensures var i, a, y := Move(s, Addr(NameAt(x), false, d)), env.place(NameAt(x)), Value(env, t, s);
      KeptOn(env, i, v, t) <==> StoreN(t.mem, Word(a + d), 4, y) == StoreN(t.mem, Word(a), 4, y)
  {
    if s.Reg? { RegWithout(env, s.r, x, d, v, t); } else { ConstWithout(env, s.n, x, d, v, t); }
  }

  lemma RegWithout(env: Env, r: int, x: string, d: int, v: int, t: Mach)
    requires r < v
    ensures var i, a := Move(Reg(r), Addr(NameAt(x), false, d)), env.place(NameAt(x));
      KeptOn(env, i, v, t) <==> StoreN(t.mem, Word(a + d), 4, Get(t, r)) == StoreN(t.mem, Word(a), 4, Get(t, r))
  {
    hide StoreN;
    var i := Move(Reg(r), Addr(NameAt(x), false, d));
    var o := Rewrite(i, v);
    var a := Word(env.place(NameAt(x)));
    assert Lined(o) == [o.cur, o.post[0]];
    var t1 := Set(t, v, a);
    Line2(env, o.cur, o.post[0], t, t1);
    assert Get(t1, v) == a && Get(t1, r) == Get(t, r);
    AgreeFresh(t, t, v, v, a);
    AgreeParts(t, t1, v, StoreN(t.mem, a, 4, Get(t, r)), t.fl);
  }

  lemma ConstWithout(env: Env, n: int, x: string, d: int, v: int, t: Mach)
    ensures var i, a := Move(Const(n), Addr(NameAt(x), false, d)), env.place(NameAt(x));
      KeptOn(env, i, v, t) <==> StoreN(t.mem, Word(a + d), 4, Word(n)) == StoreN(t.mem, Word(a), 4, Word(n))
  {
    hide StoreN;
    var i := Move(Const(n), Addr(NameAt(x), false, d));
    var o := Rewrite(i, v);
    var a := Word(env.place(NameAt(x)));
    assert Lined(o) == [o.cur, o.post[0], o.post[1]];
    var t1 := Set(t, v + 1, a);
    var t2 := Set(t1, v, Word(n));
    Line3(env, o.cur, o.post[0], o.post[1], t, t1, t2);
    AgreeFresh(t, t, v, v + 1, a);
    AgreeFresh(t, t1, v, v, Word(n));
    assert Get(t2, v + 1) == a && Get(t2, v) == Word(n);
    AgreeParts(t, t2, v, StoreN(t.mem, a, 4, Word(n)), t.fl);
  }

  /** What is stored, and what should be. */
  lemma ByteWithout(env: Env, n: int, x: string, d: int, v: int, t: Mach)
    ensures KeptOn(env, MoveB(Const(n), Addr(NameAt(x), false, d)), v, t)
      <==> StoreN(t.mem, Word(env.place(NameAt(x)) + d), 1, n % 256) == StoreN(t.mem, Word(n), 1, Word(n) % 256)
  {
    var i := MoveB(Const(n), Addr(NameAt(x), false, d));
    var o := Rewrite(i, v);
    var a := Word(env.place(NameAt(x)) + d);
    assert Lined(o) == [o.cur, o.post[0], o.post[1]];
    hide StoreN;
    var t1 := Set(t, v, a);
    var t2 := Set(t1, v, Word(n));
    Line3(env, o.cur, o.post[0], o.post[1], t, t1, t2);
    AgreeFresh(t, t, v, v, a);
    AgreeFresh(t, t1, v, v, Word(n));
    assert Get(t2, v) == Word(n);
    AgreeParts(t, t2, v, StoreN(t.mem, Word(n), 1, Word(n) % 256), t.fl);
  }

  /** A constant byte written to a name is written to the address that the constant is: the register that
      holds the name's address is overwritten first.  It is right exactly when the two are the same. */
  lemma ByteToName(env: Env, n: int, x: string, d: int, v: int)
    ensures (forall t: Mach :: KeptOn(env, MoveB(Const(n), Addr(NameAt(x), false, d)), v, t))
      <==> Word(env.place(NameAt(x)) + d) == Word(n)
  {
    if Word(env.place(NameAt(x)) + d) == Word(n) {
      forall t: Mach ensures KeptOn(env, MoveB(Const(n), Addr(NameAt(x), false, d)), v, t) {
        ByteWithout(env, n, x, d, v, t);
        LowByte(n);
      }
    } else {
      ByteMisplaced(env, n, x, d, v);
    }
  }

  lemma ByteMisplaced(env: Env, n: int, x: string, d: int, v: int)
    requires Word(env.place(NameAt(x)) + d) != Word(n)
    ensures !KeptOn(env, MoveB(Const(n), Addr(NameAt(x), false, d)), v, Mach(map[], map[], (0, 0)))
  {
    ByteWithout(env, n, x, d, v, Mach(map[], map[], (0, 0)));
    LowByte(n);
    var a, b := Word(env.place(NameAt(x)) + d), n % 256;
    hide KeptOn, Word;
    OneKey(a, b);
    OneKey(Word(n), b);
    assert a in map[a := b] && a !in map[Word(n) := b];
  }

  lemma LowByte(n: int)
    ensures Word(n) % 256 == n % 256
  {
  }

  lemma OneKey(a: W32, b: int)
    requires 0 <= b < 256
    ensures StoreN(map[], a, 1, b) == map[a := b]
  {
    assert StoreN(map[a := b], a, 0, b / 256) == map[a := b];
  }
}
