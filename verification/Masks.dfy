/** 32-bit permission masks and the word operations applied to them. */
module Masks {

  predicate Meets(data: bv32, mask: bv32) {
    data & mask != 0
  }

  function Union(a: bv32, b: bv32): bv32 {
    a | b
  }

  function Intersection(a: bv32, b: bv32): bv32 {
    a & b
  }

  function Invert(a: bv32): bv32 {
    !a
  }

  /** `a` without what `b` already grants. */
  function Clear(a: bv32, b: bv32): bv32 {
    a & !b
  }

  /** The inverse logic of auditdeny: `a` with what `b` leaves unset set. */
  function FillIn(a: bv32, b: bv32): bv32 {
    a | !b
  }

  lemma UnionMeets(a: bv32, b: bv32, m: bv32)
    ensures Meets(Union(a, b), m) <==> Meets(a, m) || Meets(b, m)
  {
    calc {
      Meets(Union(a, b), m);
      (a | b) & m != 0;
      a & m != 0 || b & m != 0;
      Meets(a, m) || Meets(b, m);
    }
  }

  lemma InvertIntersection(a: bv32, b: bv32)
    ensures Invert(Intersection(a, b)) == Union(Invert(a), Invert(b))
  {
    calc {
      Invert(Intersection(a, b));
      !(a & b);
      !a | !b;
      Union(Invert(a), Invert(b));
    }
  }

  lemma IntersectionMeets(a: bv32, b: bv32, m: bv32)
    ensures Meets(Invert(Intersection(a, b)), m) <==> Meets(Invert(a), m) || Meets(Invert(b), m)
  {
    hide *;
    InvertIntersection(a, b);
    UnionMeets(Invert(a), Invert(b), m);
  }

  lemma ZeroMeets(a: bv32, m: bv32)
    ensures a == 0 ==> !Meets(a, m)
  {
    calc ==> {
      a == 0;
      a & m == 0;
      !Meets(a, m);
    }
  }

  /** Clearing in `a` what `b` already grants loses nothing and adds nothing. */
  lemma TrimGrant(a: bv32, b: bv32, m: bv32)
    ensures Meets(Clear(a, b), m) ==> Meets(a, m)
    ensures Meets(a, m) ==> Meets(Clear(a, b), m) || Meets(b, m)
    ensures Clear(a, b) == 0 ==> !Meets(Clear(a, b), m)
  {
    calc ==> {
      Meets(Clear(a, b), m);
      a & !b & m != 0;
      a & m != 0;
      Meets(a, m);
    }
    calc ==> {
      Meets(a, m);
      a & m != 0;
      a & !b & m != 0 || b & m != 0;
      Meets(Clear(a, b), m) || Meets(b, m);
    }
    ZeroMeets(Clear(a, b), m);
  }

  /** What is left shares nothing with what was cleared. */
  lemma ClearApart(a: bv32, b: bv32)
    ensures !Meets(Clear(a, b), b)
  {
    calc {
      Meets(Clear(a, b), b);
      a & !b & b != 0;
      (0 as bv32) != 0;
    }
  }

  lemma NonzeroMeetsItself(a: bv32)
    ensures Meets(a, a) <==> a != 0
  {
    calc {
      Meets(a, a);
      a & a != 0;
      a != 0;
    }
  }

  lemma MeetsSymmetric(a: bv32, b: bv32)
    ensures Meets(a, b) <==> Meets(b, a)
  {
    calc {
      Meets(a, b);
      a & b != 0;
      b & a != 0;
      Meets(b, a);
    }
  }

  lemma InvertFillIn(a: bv32, b: bv32)
    ensures Invert(FillIn(a, b)) == Clear(Invert(a), Invert(b))
  {
    calc {
      Invert(FillIn(a, b));
      !(a | !b);
      !a & !!b;
      Clear(Invert(a), Invert(b));
    }
  }

  lemma InvertFull(a: bv32)
    ensures a == 0xFFFF_FFFF <==> Invert(a) == 0
  {
    calc {
      a == 0xFFFF_FFFF;
      !a == 0;
      Invert(a) == 0;
    }
  }

  /** The same for auditdeny masks, whose unset bits are what the rules ask for. */
  lemma TrimDeny(a: bv32, b: bv32, m: bv32)
    ensures Meets(Invert(FillIn(a, b)), m) ==> Meets(Invert(a), m)
    ensures Meets(Invert(a), m) ==> Meets(Invert(FillIn(a, b)), m) || Meets(Invert(b), m)
    ensures FillIn(a, b) == 0xFFFF_FFFF ==> !Meets(Invert(FillIn(a, b)), m)
  {
    hide *;
    InvertFillIn(a, b);
    InvertFull(FillIn(a, b));
    TrimGrant(Invert(a), Invert(b), m);
    ZeroMeets(Invert(FillIn(a, b)), m);
  }

  lemma NoneMet(m: bv32)
    ensures !Meets(0, m) && !Meets(Invert(0xFFFF_FFFF), m)
  {
    InvertFull(0xFFFF_FFFF);
    ZeroMeets(0, m);
  }

  lemma DisjointFromInverse(a: bv32)
    ensures !Meets(a, Invert(a))
  {
    calc {
      Meets(a, Invert(a));
      a & !a != 0;
      (0 as bv32) != 0;
    }
  }

  lemma Inside(a: bv32, b: bv32)
    requires !Meets(a, Invert(b))
    ensures Intersection(a, b) == a
  {
    calc ==> {
      !Meets(a, Invert(b));
      a & !b == 0;
      a & b == a;
    }
  }

  lemma IntersectionCommutes(a: bv32, b: bv32)
    ensures Intersection(a, b) == Intersection(b, a)
  {
    calc {
      Intersection(a, b);
      a & b;
      b & a;
      Intersection(b, a);
    }
  }

  /** A word is determined by the masks it meets. */
  lemma MasksDetermine(a: bv32, b: bv32)
    requires forall m: bv32 :: Meets(a, m) <==> Meets(b, m)
    ensures a == b
  {
    hide *;
    DisjointFromInverse(a);
    DisjointFromInverse(b);
    Inside(a, b);
    Inside(b, a);
    IntersectionCommutes(a, b);
  }

  lemma InvertInjective(a: bv32, b: bv32)
    requires Invert(a) == Invert(b)
    ensures a == b
  {
    calc ==> {
      Invert(a) == Invert(b);
      !a == !b;
      a == b;
    }
  }

  // ---------------------------------------------------------------- single bits

  /** The word `1 << k`. */
  function Single(k: nat): bv32
    requires k < 32
  {
    if k == 0 then 1 else Single(k - 1) << 1
  }

  lemma ShiftStep(k: nat)
    requires 0 < k < 32
    ensures (1 as bv32) << k == ((1 as bv32) << (k - 1)) << 1
  {
    assert
      || k == 1 || k == 2 || k == 3 || k == 4 || k == 5 || k == 6 || k == 7 || k == 8 || k == 9 || k == 10
      || k == 11 || k == 12 || k == 13 || k == 14 || k == 15 || k == 16 || k == 17 || k == 18 || k == 19 || k == 20
      || k == 21 || k == 22 || k == 23 || k == 24 || k == 25 || k == 26 || k == 27 || k == 28 || k == 29 || k == 30 || k == 31;
  }

  /** What the source writes as UINT32_C(1) << k. */
  lemma {:induction false} SingleShift(k: nat)
    requires k < 32
    ensures Single(k) == (1 as bv32) << k
  {
    if k > 0 {
      SingleShift(k - 1);
      ShiftStep(k);
    }
  }

  predicate OneHot(m: bv32) {
    m != 0 && m & (m - 1) == 0
  }

  lemma LastSingle()
    ensures Single(31) == 0x8000_0000
  {
    assert Single(4) == 0x10;
    assert Single(8) == 0x100;
    assert Single(12) == 0x1000;
    assert Single(16) == 0x1_0000;
    assert Single(20) == 0x10_0000;
    assert Single(24) == 0x100_0000;
    assert Single(28) == 0x1000_0000;
  }

  lemma {:induction false} ZeroStays(j: nat, k: nat)
    requires j <= k < 32 && Single(j) == 0
    ensures Single(k) == 0
  {
    if j < k { ZeroStays(j, k - 1); }
  }

  lemma HotStart()
    ensures OneHot(1)
  {
  }

  lemma HotShift(m: bv32)
    requires OneHot(m) && m & 0x8000_0000 == 0
    ensures OneHot(m << 1)
  {
  }

  lemma HotTop(m: bv32)
    requires OneHot(m) && m & 0x8000_0000 != 0
    ensures m << 1 == 0
  {
  }

  lemma {:induction false} SingleHot(k: nat)
    requires k < 32
    ensures OneHot(Single(k))
    ensures k < 31 ==> Single(k) & 0x8000_0000 == 0
  {
    hide OneHot;
    if k == 0 {
      HotStart();
    } else {
      SingleHot(k - 1);
      HotShift(Single(k - 1));
    }
    if k < 31 && Single(k) & 0x8000_0000 != 0 {
      HotTop(Single(k));
      ZeroStays(k + 1, 31);
      LastSingle();
    }
  }

  lemma ShiftBoth(a: bv32, b: bv32)
    requires a & 0x8000_0000 == 0
    ensures (a << 1) & (b << 1) != 0 <==> a & b != 0
  {
  }

  lemma LowBit(a: bv32)
    ensures 1 & (a << 1) == 0 && (a << 1) & 1 == 0
  {
  }

  /** Different bits do not meet. */
  lemma {:induction false} SingleMeets(t: nat, u: nat)
    requires t < 32 && u < 32
    ensures Meets(Single(t), Single(u)) <==> t == u
  {
    if t > 0 && u > 0 {
      SingleMeets(t - 1, u - 1);
      SingleHot(t - 1);
      ShiftBoth(Single(t - 1), Single(u - 1));
    } else if t > 0 {
      LowBit(Single(t - 1));
    } else if u > 0 {
      LowBit(Single(u - 1));
    }
  }

  lemma HotPick(a: bv32, m: bv32)
    requires OneHot(m)
    ensures a & m == 0 || a & m == m
  {
  }

  lemma HotIntersection(a: bv32, b: bv32, m: bv32)
    requires OneHot(m)
    ensures Meets(Intersection(a, b), m) <==> Meets(a, m) && Meets(b, m)
  {
    HotPick(a, m);
    HotPick(b, m);
    calc {
      Meets(Intersection(a, b), m);
      (a & b) & m != 0;
      a & m != 0 && b & m != 0;
      Meets(a, m) && Meets(b, m);
    }
  }

  lemma HotClear(a: bv32, b: bv32, m: bv32)
    requires OneHot(m)
    ensures Meets(Clear(a, b), m) <==> Meets(a, m) && !Meets(b, m)
  {
    HotPick(a, m);
    HotPick(b, m);
    calc {
      Meets(Clear(a, b), m);
      (a & !b) & m != 0;
      a & m != 0 && b & m == 0;
      Meets(a, m) && !Meets(b, m);
    }
  }

  /** A nonzero word meets some single bit. */
  lemma LowestBit(w: bv32) returns (k: nat)
    requires w != 0
    ensures k < 32 && Meets(w, Single(k))
  {
    NothingBelow(w);
    k := BitFrom(w, 0);
  }

  /** No bit of `w` is below the single bit `m`. */
  predicate ClearBelow(w: bv32, m: bv32) {
    w & (m - 1) == 0
  }

  lemma {:induction false} BitFrom(w: bv32, j: nat) returns (k: nat)
    requires j < 32 && ClearBelow(w, Single(j)) && w != 0
    ensures k < 32 && Meets(w, Single(k))
    decreases 32 - j
  {
    if j < 31 { SingleNext(j); }
    hide *;
    if Meets(w, Single(j)) {
      k := j;
    } else {
      SingleHot(j);
      if j < 31 {
        NextBit(w, Single(j));
        k := BitFrom(w, j + 1);
      } else {
        LastSingle();
        TopBit(w, Single(j));
        k := j;
      }
    }
  }

  lemma SingleNext(j: nat)
    requires j < 31
    ensures Single(j + 1) == Twice(Single(j))
  {
  }

  function Twice(m: bv32): bv32 {
    m << 1
  }

  lemma NextBit(w: bv32, m: bv32)
    requires OneHot(m) && ClearBelow(w, m) && !Meets(w, m)
    ensures ClearBelow(w, Twice(m))
  {
  }

  lemma TopBit(w: bv32, m: bv32)
    requires m == 0x8000_0000 && ClearBelow(w, m) && !Meets(w, m)
    ensures w == 0
  {
  }

  lemma NothingBelow(w: bv32)
    ensures ClearBelow(w, Single(0))
  {
  }

  // ---------------------------------------------------------------- words as sets of bits

  predicate BitSet(data: bv32, bit: nat) {
    bit < 32 && Meets(data, Single(bit))
  }

  lemma BitSetIs(data: bv32, bit: nat)
    ensures BitSet(data, bit) <==> bit < 32 && Meets(data, Single(bit))
  {
    hide Meets, Single;
  }

  /** The test of a bit as the source writes it. */
  predicate Tests(data: bv32, bit: nat)
    requires bit < 32
  {
    data & ((1 as bv32) << bit) != 0
  }

  lemma BitTests(data: bv32, bit: nat)
    ensures BitSet(data, bit) <==> bit < 32 && Tests(data, bit)
  {
    hide Single;
    if bit < 32 { SingleShift(bit); }
  }

  lemma BitUnion(a: bv32, b: bv32, bit: nat)
    ensures BitSet(Union(a, b), bit) <==> BitSet(a, bit) || BitSet(b, bit)
  {
    hide Meets, Union, Single;
    if bit < 32 { UnionMeets(a, b, Single(bit)); }
  }

  lemma BitZero(bit: nat)
    ensures !BitSet(0, bit)
  {
    hide Meets, Single;
    if bit < 32 { ZeroMeets(0, Single(bit)); }
  }

  lemma BitIntersection(a: bv32, b: bv32, bit: nat)
    ensures BitSet(Intersection(a, b), bit) <==> BitSet(a, bit) && BitSet(b, bit)
  {
    hide Meets, Intersection, Single, OneHot;
    if bit < 32 {
      SingleHot(bit);
      HotIntersection(a, b, Single(bit));
    }
  }

  lemma BitClear(a: bv32, b: bv32, bit: nat)
    ensures BitSet(Clear(a, b), bit) <==> BitSet(a, bit) && !BitSet(b, bit)
  {
    hide Meets, Clear, Single, OneHot;
    if bit < 32 {
      SingleHot(bit);
      HotClear(a, b, Single(bit));
    }
  }

  /** A nonzero word has a bit set. */
  lemma SomeBit(w: bv32)
    ensures w != 0 <==> exists bit: nat :: BitSet(w, bit)
  {
    hide Meets, Single;
    if w != 0 {
      var bit := LowestBit(w);
      assert BitSet(w, bit);
    } else {
      forall bit ensures !BitSet(0, bit) { BitZero(bit); }
    }
  }

  lemma ClearNothing(a: bv32, b: bv32)
    requires Clear(a, b) == 0 && Clear(b, a) == 0
    ensures a == b
  {
    calc ==> {
      Clear(a, b) == 0 && Clear(b, a) == 0;
      a & !b == 0 && b & !a == 0;
      a == b;
    }
  }

  /** Words with the same bits are equal. */
  lemma SameBits(a: bv32, b: bv32)
    requires forall bit: nat :: BitSet(a, bit) <==> BitSet(b, bit)
    ensures a == b
  {
    hide *;
    forall bit: nat ensures !BitSet(Clear(a, b), bit) && !BitSet(Clear(b, a), bit) {
      BitClear(a, b, bit);
      BitClear(b, a, bit);
    }
    SomeBit(Clear(a, b));
    SomeBit(Clear(b, a));
    ClearNothing(a, b);
  }

  lemma MeetsIntersection(a: bv32, b: bv32)
    ensures Meets(a, b) <==> Intersection(a, b) != 0
  {
  }

  /** Words meet when they have a bit in common. */
  lemma SharedBit(a: bv32, b: bv32)
    ensures Meets(a, b) <==> exists bit: nat :: BitSet(a, bit) && BitSet(b, bit)
  {
    hide Meets, Intersection, BitSet;
    MeetsIntersection(a, b);
    SomeBit(Intersection(a, b));
    forall bit: nat ensures BitSet(Intersection(a, b), bit) <==> BitSet(a, bit) && BitSet(b, bit) {
      BitIntersection(a, b, bit);
    }
    if bit: nat :| BitSet(a, bit) && BitSet(b, bit) { assert BitSet(Intersection(a, b), bit); }
  }
}
