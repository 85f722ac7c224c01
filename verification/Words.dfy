/** 64-bit words and their bits, as the sparse bitmap uses them. */
module Words {
  import opened Prelude

  const ALL: bv64 := 0xFFFF_FFFF_FFFF_FFFF
  const TOP: bv64 := 0x8000_0000_0000_0000

  /** `w << k`, one place at a time. */
  function Shl(w: bv64, k: nat): bv64 {
    if k == 0 then w else Double(Shl(w, k - 1))
  }

  /** `w >> k`, one place at a time. */
  function Shr(w: bv64, k: nat): bv64 {
    if k == 0 then w else Half(Shr(w, k - 1))
  }

  function Double(w: bv64): bv64 { w << 1 }

  function Half(w: bv64): bv64 { w >> 1 }

  function Or(a: bv64, b: bv64): bv64 { a | b }

  function And(a: bv64, b: bv64): bv64 { a & b }

  function Xor(a: bv64, b: bv64): bv64 { a ^ b }

  function Not(a: bv64): bv64 { !a }

  function Less1(a: bv64): bv64 { a - 1 }

  /** The word with only bit `k` set. */
  function Bit(k: nat): bv64
    requires k < 64
  {
    Shl(1, k)
  }

  predicate Has(w: bv64, k: nat) {
    k < 64 && And(w, Bit(k)) != 0
  }

  lemma ShiftStepLow(k: nat)
    requires 0 < k < 32
    ensures (1 as bv64) << k == ((1 as bv64) << (k - 1)) << 1
  {
    assert
      || k == 1 || k == 2 || k == 3 || k == 4 || k == 5 || k == 6 || k == 7 || k == 8 || k == 9 || k == 10
      || k == 11 || k == 12 || k == 13 || k == 14 || k == 15 || k == 16 || k == 17 || k == 18 || k == 19 || k == 20
      || k == 21 || k == 22 || k == 23 || k == 24 || k == 25 || k == 26 || k == 27 || k == 28 || k == 29 || k == 30 || k == 31;
  }

  lemma ShiftStepHigh(k: nat)
    requires 32 <= k < 64
    ensures (1 as bv64) << k == ((1 as bv64) << (k - 1)) << 1
  {
    assert
      || k == 32 || k == 33 || k == 34 || k == 35 || k == 36 || k == 37 || k == 38 || k == 39 || k == 40 || k == 41
      || k == 42 || k == 43 || k == 44 || k == 45 || k == 46 || k == 47 || k == 48 || k == 49 || k == 50 || k == 51 || k == 52
      || k == 53 || k == 54 || k == 55 || k == 56 || k == 57 || k == 58 || k == 59 || k == 60 || k == 61 || k == 62 || k == 63;
  }

  /** The bit as the source writes it. */
  lemma {:induction false} BitShift(k: nat)
    requires k < 64
    ensures Bit(k) == (1 as bv64) << k
  {
    if k > 0 {
      BitShift(k - 1);
      if k < 32 { ShiftStepLow(k); } else { ShiftStepHigh(k); }
    }
  }

  /** The test of bit `k` as the source writes it. */
  predicate Tests(w: bv64, k: nat)
    requires k < 64
  {
    w & ((1 as bv64) << k) != 0
  }

  lemma HasTests(w: bv64, k: nat)
    ensures Has(w, k) <==> k < 64 && Tests(w, k)
  {
    hide Bit;
    if k < 64 { BitShift(k); }
  }

  predicate Hot(m: bv64) {
    m != 0 && m & (m - 1) == 0
  }

  predicate TopClear(m: bv64) {
    m & TOP == 0
  }

  // ---------------------------------------------------------------- single bits

  lemma HotOne()
    ensures Hot(1) && TopClear(1)
  {
  }

  lemma HotDouble(m: bv64)
    requires Hot(m) && TopClear(m)
    ensures Hot(Double(m))
  {
  }

  lemma HotTop(m: bv64)
    requires Hot(m) && !TopClear(m)
    ensures Double(m) == 0
  {
  }

  lemma {:induction false} ZeroStays(j: nat, k: nat)
    requires j <= k && Shl(1, j) == 0
    ensures Shl(1, k) == 0
  {
    if j < k {
      ZeroStays(j, k - 1);
      DoubleZero();
    }
  }

  lemma DoubleZero()
    ensures Double(0) == 0
  {
  }

  lemma LastBit()
    ensures Shl(1, 63) == TOP
  {
    assert Shl(1, 4) == 0x10;
    assert Shl(1, 8) == 0x100;
    assert Shl(1, 12) == 0x1000;
    assert Shl(1, 16) == 0x1_0000;
    assert Shl(1, 20) == 0x10_0000;
    assert Shl(1, 24) == 0x100_0000;
    assert Shl(1, 28) == 0x1000_0000;
    assert Shl(1, 32) == 0x1_0000_0000;
    assert Shl(1, 36) == 0x10_0000_0000;
    assert Shl(1, 40) == 0x100_0000_0000;
    assert Shl(1, 44) == 0x1000_0000_0000;
    assert Shl(1, 48) == 0x1_0000_0000_0000;
    assert Shl(1, 52) == 0x10_0000_0000_0000;
    assert Shl(1, 56) == 0x100_0000_0000_0000;
    assert Shl(1, 60) == 0x1000_0000_0000_0000;
  }

  lemma {:induction false} BitHot(k: nat)
    requires k < 64
    ensures Hot(Shl(1, k)) && (k < 63 ==> TopClear(Shl(1, k)))
  {
    hide Hot, TopClear, Double;
    if k == 0 {
      HotOne();
    } else {
      BitHot(k - 1);
      HotDouble(Shl(1, k - 1));
    }
    if k < 63 && !TopClear(Shl(1, k)) {
      HotTop(Shl(1, k));
      ZeroStays(k + 1, 63);
      LastBit();
    }
  }

  // ---------------------------------------------------------------- bitwise operations

  lemma PickOr(a: bv64, b: bv64, m: bv64)
    ensures And(Or(a, b), m) != 0 <==> And(a, m) != 0 || And(b, m) != 0
  {
    calc {
      And(Or(a, b), m) != 0;
      (a | b) & m != 0;
      a & m != 0 || b & m != 0;
      And(a, m) != 0 || And(b, m) != 0;
    }
  }

  lemma HotPick(a: bv64, m: bv64)
    requires Hot(m)
    ensures a & m == 0 || a & m == m
  {
  }

  lemma PickAnd(a: bv64, b: bv64, m: bv64)
    requires Hot(m)
    ensures And(And(a, b), m) != 0 <==> And(a, m) != 0 && And(b, m) != 0
  {
    HotPick(a, m);
    HotPick(b, m);
    calc {
      And(And(a, b), m) != 0;
      (a & b) & m != 0;
      a & m != 0 && b & m != 0;
      And(a, m) != 0 && And(b, m) != 0;
    }
  }

  lemma XorDistributes(a: bv64, b: bv64, m: bv64)
    ensures And(Xor(a, b), m) == Xor(And(a, m), And(b, m))
  {
    calc {
      And(Xor(a, b), m);
      (a ^ b) & m;
      (a & m) ^ (b & m);
      Xor(And(a, m), And(b, m));
    }
  }

  lemma XorCases(m: bv64)
    ensures Xor(0, 0) == 0 && Xor(m, 0) == m && Xor(0, m) == m && Xor(m, m) == 0
  {
  }

  lemma PickXor(a: bv64, b: bv64, m: bv64)
    requires Hot(m)
    ensures And(Xor(a, b), m) != 0 <==> (And(a, m) != 0) != (And(b, m) != 0)
  {
    HotPick(a, m);
    HotPick(b, m);
    hide Xor;
    XorDistributes(a, b, m);
    XorCases(m);
  }

  lemma PickNot(a: bv64, m: bv64)
    requires Hot(m)
    ensures And(Not(a), m) != 0 <==> And(a, m) == 0
  {
    HotPick(a, m);
    calc {
      And(Not(a), m) != 0;
      (!a) & m != 0;
      a & m == 0;
      And(a, m) == 0;
    }
  }

  lemma PickZero(m: bv64)
    ensures And(0, m) == 0
  {
  }

  lemma BitOps(a: bv64, b: bv64, k: nat)
    requires k < 64
    ensures Has(Or(a, b), k) <==> Has(a, k) || Has(b, k)
    ensures Has(And(a, b), k) <==> Has(a, k) && Has(b, k)
    ensures Has(Xor(a, b), k) <==> Has(a, k) != Has(b, k)
    ensures Has(Not(a), k) <==> !Has(a, k)
    ensures !Has(0, k) && Has(ALL, k)
  {
    hide Or, And, Xor, Not, Hot, Shl;
    BitHot(k);
    PickOr(a, b, Bit(k));
    PickAnd(a, b, Bit(k));
    PickXor(a, b, Bit(k));
    PickNot(a, Bit(k));
    PickNot(0, Bit(k));
    PickZero(Bit(k));
    NotZero();
  }

  lemma NotZero()
    ensures Not(0) == ALL
  {
  }

  // ---------------------------------------------------------------- shifts

  lemma PickDouble(w: bv64, m: bv64)
    requires TopClear(m)
    ensures And(Double(w), Double(m)) != 0 <==> And(w, m) != 0
  {
    calc {
      And(Double(w), Double(m)) != 0;
      (w << 1) & (m << 1) != 0;
      w & m != 0;
      And(w, m) != 0;
    }
  }

  lemma PickDoubleLow(w: bv64)
    ensures And(Double(w), 1) == 0
  {
  }

  lemma PickHalf(w: bv64, m: bv64)
    requires TopClear(m)
    ensures And(Half(w), m) != 0 <==> And(w, Double(m)) != 0
  {
    calc {
      And(Half(w), m) != 0;
      (w >> 1) & m != 0;
      w & (m << 1) != 0;
      And(w, Double(m)) != 0;
    }
  }

  lemma PickHalfTop(w: bv64)
    ensures And(Half(w), TOP) == 0
  {
  }

  lemma BitDouble(w: bv64, k: nat)
    requires k < 64
    ensures Has(Double(w), k) <==> k > 0 && Has(w, k - 1)
  {
    hide And, Double, TopClear, Hot;
    if k > 0 {
      BitHot(k - 1);
      PickDouble(w, Bit(k - 1));
    } else {
      PickDoubleLow(w);
    }
  }

  lemma BitHalf(w: bv64, k: nat)
    requires k < 64
    ensures Has(Half(w), k) <==> k < 63 && Has(w, k + 1)
  {
    hide And, Double, Half, TopClear, Hot;
    if k < 63 {
      BitHot(k);
      PickHalf(w, Bit(k));
    } else {
      LastBit();
      PickHalfTop(w);
    }
  }

  lemma {:induction false} BitShl(w: bv64, n: nat, k: nat)
    requires k < 64
    ensures Has(Shl(w, n), k) <==> k >= n && Has(w, k - n)
    decreases n
  {
    hide Has, Double;
    if n > 0 {
      BitDouble(Shl(w, n - 1), k);
      if k > 0 { BitShl(w, n - 1, k - 1); }
    }
  }

  lemma {:induction false} BitShr(w: bv64, n: nat, k: nat)
    requires k < 64
    ensures Has(Shr(w, n), k) <==> k + n < 64 && Has(w, k + n)
    decreases n
  {
    hide Has, Half;
    if n > 0 {
      BitHalf(Shr(w, n - 1), k);
      if k < 63 { BitShr(w, n - 1, k + 1); }
    }
  }

  lemma BitOne(k: nat)
    requires k < 64
    ensures Has(1, k) <==> k == 0
  {
    if k > 0 {
      BitDoubleOne(Shl(1, k - 1));
    }
  }

  lemma BitDoubleOne(m: bv64)
    ensures And(1, Double(m)) == 0
  {
  }

  lemma BitIs(j: nat, k: nat)
    requires j < 64 && k < 64
    ensures Has(Bit(j), k) <==> j == k
  {
    BitShl(1, j, k);
    hide Has;
    if k >= j { BitOne(k - j); }
  }

  lemma LessDouble(m: bv64)
    requires Hot(m) && TopClear(m)
    ensures Less1(Double(m)) == Or(Double(Less1(m)), 1)
  {
  }

  lemma LessOne()
    ensures Less1(1) == 0
  {
  }

  /** `(1 << n) - 1` has the bits below `n`. */
  lemma {:induction false} BitBelow(n: nat, k: nat)
    requires n < 64 && k < 64
    ensures Has(Less1(Bit(n)), k) <==> k < n
    decreases n
  {
    hide Has, Less1, Or, Double, Hot, TopClear;
    if n == 0 {
      LessOne();
      BitOps(0, 0, k);
    } else {
      BitHot(n - 1);
      LessDouble(Bit(n - 1));
      BitOps(Double(Less1(Bit(n - 1))), 1, k);
      BitDouble(Less1(Bit(n - 1)), k);
      BitOne(k);
      if k > 0 { BitBelow(n - 1, k - 1); }
    }
  }

  // ---------------------------------------------------------------- words are their bits

  predicate ClearBelow(w: bv64, m: bv64) {
    w & (m - 1) == 0
  }

  lemma ClearStart(w: bv64)
    ensures ClearBelow(w, 1)
  {
  }

  lemma ClearNext(w: bv64, m: bv64)
    requires Hot(m) && ClearBelow(w, m) && And(w, m) == 0
    ensures ClearBelow(w, Double(m))
  {
  }

  lemma ClearTop(w: bv64)
    requires ClearBelow(w, TOP) && And(w, TOP) == 0
    ensures w == 0
  {
  }

  lemma {:induction false} BitFrom(w: bv64, j: nat) returns (k: nat)
    requires j < 64 && ClearBelow(w, Bit(j)) && w != 0
    ensures k < 64 && Has(w, k)
    decreases 64 - j
  {
    hide And, Double, ClearBelow, Hot, TopClear;
    if Has(w, j) {
      k := j;
    } else {
      BitHot(j);
      if j < 63 {
        ClearNext(w, Bit(j));
        k := BitFrom(w, j + 1);
      } else {
        LastBit();
        ClearTop(w);
        k := j;
      }
    }
  }

  lemma SomeBit(w: bv64) returns (k: nat)
    requires w != 0
    ensures k < 64 && Has(w, k)
  {
    ClearStart(w);
    hide ClearBelow, Has;
    k := BitFrom(w, 0);
  }

  lemma XorZero(a: bv64, b: bv64)
    ensures Xor(a, b) == 0 <==> a == b
  {
  }

  /** A word is determined by its bits. */
  lemma BitsDetermine(a: bv64, b: bv64)
    requires forall k :: 0 <= k < 64 ==> Has(a, k) == Has(b, k)
    ensures a == b
  {
    hide *;
    XorZero(a, b);
    if a != b {
      var k := SomeBit(Xor(a, b));
      BitOps(a, b, k);
    }
  }

  /** The number of bits set, as the compiler's builtin gives it. */
  function PopCount(w: bv64): nat {
    |set k | 0 <= k < 64 && Has(w, k)|
  }
}
