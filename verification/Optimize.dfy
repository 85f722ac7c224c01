/**
 Removal of redundant rules (src/optimize.c). Rules are trimmed in place by the rules that
 cover part of them and are unlinked once nothing is left; the theorem is that no access
 decision changes, under any assignment of the booleans.
 */
module Optimize {
  import opened Prelude
  import opened Avtab
  import opened Masks
  import opened TypeMaps
  import opened AccessDecision
  import opened CondExpr
  import opened PolicyDb

  // ---------------------------------------------------------------- covering types

  /** What the type map lists for `i`: the attributes (and itself) that are supersets of it. */
  ghost predicate IsSuperset(tm: TypeMaps, i: nat, k: nat)
    requires tm.InRange()
  {
    && i < tm.Nprim() && k < tm.Nprim()
    && match tm.flavor[i]
       case Gap => false
       case Plain => k in tm.typeAttr[i]
       case Attribute => tm.flavor[k] == Attribute && tm.attrType[i] <= tm.attrType[k]
  }

  ghost predicate Ascending(v: seq<nat>) {
    forall i, j :: 0 <= i < j < |v| ==> v[i] < v[j]
  }

  ghost predicate TypeMapOk(tm: TypeMaps, map_: seq<seq<nat>>)
    requires tm.InRange()
  {
    && |map_| == tm.Nprim()
    && forall i :: 0 <= i < |map_| ==> Ascending(map_[i]) && forall k :: k in map_[i] <==> IsSuperset(tm, i, k)
  }

  /** Whoever a rule on `i` reaches, a rule on a superset of `i` reaches too. */
  lemma SupersetCovers(tm: TypeMaps, i: nat, k: nat, s: nat)
    requires tm.Valid() && tm.RowsClosed() && IsSuperset(tm, i, k) && tm.flavor[k] != Gap && tm.Concrete(s) && i in tm.typeAttr[s]
    ensures k in tm.typeAttr[s]
  {
    if tm.flavor[i] == Attribute {
      assert s in tm.attrType[i];
    }
  }

  /** An attribute whose map row holds concrete types only. */
  ghost predicate HoldsConcrete(tm: TypeMaps, i: nat)
    requires tm.InRange()
  {
    i < |tm.flavor| && tm.flavor[i] == Attribute && forall s :: s in tm.attrType[i] ==> tm.Concrete(s)
  }

  /** Every concrete type with `i` in its row has `k` in its row. */
  ghost predicate CarriesToo(tm: TypeMaps, i: nat, k: nat)
    requires tm.InRange()
  {
    forall s: nat :: tm.Concrete(s) && i in tm.typeAttr[s] ==> k in tm.typeAttr[s]
  }

  method BuildTypeMap(tm: TypeMaps) returns (map_: seq<seq<nat>>)
    requires tm.InRange()
    ensures TypeMapOk(tm, map_)
    ensures |map_| == |tm.flavor|
    ensures forall i, k :: 0 <= i < |map_| && tm.flavor[i] == Plain ==> (k in map_[i] <==> k in tm.typeAttr[i])
    ensures forall i, k :: 0 <= i < |map_| && 0 <= k < |map_| && tm.flavor[i] == Attribute ==>
      (k in map_[i] <==> tm.flavor[k] == Attribute && forall s :: s in tm.attrType[i] ==> s in tm.attrType[k])
    ensures forall i, k :: 0 <= i < |map_| && tm.flavor[i] == Gap ==> k !in map_[i]
    ensures forall i, k :: 0 <= i < |map_| && k in map_[i] ==> k < |map_|
    ensures tm.Valid() ==> forall i, k :: 0 <= i < |map_| && 0 <= k < |map_| && HoldsConcrete(tm, i) && tm.flavor[k] == Attribute ==>
      (k in map_[i] <==> CarriesToo(tm, i, k))
  {
    map_ := [];
    for i := 0 to tm.Nprim()
      invariant |map_| == i
      invariant forall j :: 0 <= j < i ==> Ascending(map_[j]) && forall k :: k in map_[j] <==> IsSuperset(tm, j, k)
    {
      var vec: seq<nat> := [];
      if tm.flavor[i] != Gap {
        for k := 0 to tm.Nprim()
          invariant Ascending(vec) && forall j :: 0 <= j < |vec| ==> vec[j] < k
          invariant forall j: nat :: j in vec <==> j < k && IsSuperset(tm, i, j)
        {
          if tm.flavor[i] == Plain {
            if k in tm.typeAttr[i] { vec := vec + [k]; }
          } else {
            if tm.flavor[k] == Attribute && tm.attrType[i] <= tm.attrType[k] { vec := vec + [k]; }
          }
        }
      }
      map_ := map_ + [vec];
    }
  }

  method TypeVecContains(v: seq<nat>, type_: nat) returns (found: bool)
    requires Ascending(v)
    ensures found <==> type_ in v
  {
    var s, e := 0, |v|;
    while s != e
      invariant 0 <= s <= e <= |v|
      invariant forall i :: 0 <= i < |v| && v[i] == type_ ==> s <= i < e
      decreases e - s
    {
      var mid := (s + e) / 2;
      if v[mid] == type_ { return true; }
      if v[mid] < type_ { s := mid + 1; } else { e := mid; }
    }
    found := false;
  }

  // ---------------------------------------------------------------- trimming one datum

  /**
     `b` is the rule `a` after what `by` covers of it was taken out. When `done`, whatever
     `b` still says `cover` says as well.
   */
  ghost predicate Trimmed(a: Node, b: Node, cover: Node, done: bool) {
    && b.key == a.key
    && (b.datum.xperms.Some? <==> a.datum.xperms.Some?)
    && (forall q :: Answers(b, q) ==> Answers(a, q))
    && (forall q :: Answers(a, q) ==> Answers(b, q) || Answers(cover, q))
    && (done ==> forall q :: Answers(b, q) ==> Answers(cover, q))
  }

  /** `b` is `a` with no bit and no extended permission added. */
  ghost predicate Less(a: Node, b: Node) {
    && b.key == a.key
    && (forall k, m :: IsAv(k) && OfKind(a.key.specified, k) && Meets(Effect(k, b.datum.data), m) ==> Meets(Effect(k, a.datum.data), m))
    && (b.datum.xperms.Some? <==> a.datum.xperms.Some?)
    && (a.datum.xperms.Some? ==> XFewer(a.datum.xperms.value, b.datum.xperms.value))
  }

  /** `b` lists some of what `a` lists. */
  ghost predicate XFewer(a: Xperms, b: Xperms) {
    b.specified == a.specified && b.driver == a.driver && forall i: nat :: i < 256 && PermBit(b.perms, i) ==> PermBit(a.perms, i)
  }

  /** `a` says something, and nothing that `c` says. */
  ghost predicate LeftOver(k: Kind, a: Node, c: Node) {
    Effect(k, a.datum.data) != 0 && !Meets(Effect(k, a.datum.data), Effect(k, c.datum.data))
  }

  /** Among the extended permissions `a` lists there are some left, and none that `c` says too. */
  ghost predicate XLeft(a: Xperms, c: Xperms) {
    && (SameRange(a, c) ==>
         (exists k :: 0 <= k < 8 && a.perms[k] != 0) && forall i: nat :: i < 256 && PermBit(a.perms, i) ==> !PermBit(c.perms, i))
    && !(a.specified == IOCTLFUNCTION && c.specified == IOCTLDRIVER && PermBit(c.perms, a.driver))
  }

  /** `b` is `a`, or lists less over the same range and is not empty. */
  ghost predicate XLess(a: Xperms, b: Xperms) {
    && XFewer(a, b)
    && (b == a || exists k :: 0 <= k < 8 && b.perms[k] != 0)
  }

  method ProcessXperms(p1: seq<bv32>, p2: seq<bv32>) returns (empty: bool, p: seq<bv32>)
    requires |p1| == |p2| == 8
    ensures |p| == 8
    ensures forall i :: 0 <= i < 8 ==> p[i] == Clear(p1[i], p2[i])
    ensures empty <==> forall i :: 0 <= i < 8 ==> p[i] == 0
  {
    p, empty := p1, true;
    for i := 0 to 8
      invariant |p| == 8
      invariant forall k :: 0 <= k < 8 ==> p[k] == if k < i then Clear(p1[k], p2[k]) else p1[k]
      invariant empty <==> forall k :: 0 <= k < i ==> p[k] == 0
    {
      p := p[i := Clear(p[i], p2[i])];
      if p[i] != 0 { empty := false; }
    }
  }

  lemma ClearedBit(p1: seq<bv32>, p2: seq<bv32>, p: seq<bv32>, i: nat)
    requires |p1| == |p2| == |p| == 8 && i < 256
    requires forall k :: 0 <= k < 8 ==> p[k] == Clear(p1[k], p2[k])
    ensures PermBit(p, i) ==> PermBit(p1, i)
    ensures PermBit(p1, i) ==> PermBit(p, i) || PermBit(p2, i)
    ensures PermBit(p, i) ==> !PermBit(p2, i)
    ensures (forall k :: 0 <= k < 8 ==> p[k] == 0) ==> !PermBit(p, i)
  {
    hide Meets, Clear, Single;
    var w1, w2, bit := p1[i / 32], p2[i / 32], Single(i % 32);
    TrimGrant(w1, w2, bit);
    SingleHot(i % 32);
    HotClear(w1, w2, bit);
  }

  /** The two lists are over the same 256 permissions. */
  predicate SameRange(x1: Xperms, x2: Xperms) {
    && x1.specified == x2.specified
    && (x1.specified == IOCTLDRIVER
        || (x1.specified == IOCTLFUNCTION && x1.driver == x2.driver)
        || (x1.specified == NLMSG && x1.driver == x2.driver))
  }

  lemma ClearIs(a: bv32, b: bv32)
    ensures Clear(a, b) == a & !b
  {
  }

  /**
     The extended-permission arm of process_avtab_datum. Of lists over the same range the
     difference is left; a function list is done when its whole driver is listed; any other
     pair is left alone.
   */
  method ProcessXpermDatum(x1: Xperms, x2: Xperms) returns (done: bool, x: Xperms)
    ensures XFewer(x1, x)
    ensures SameRange(x1, x2) ==> forall i: nat :: i < 256 ==>
      (PermBit(x.perms, i) <==> PermBit(x1.perms, i) && !PermBit(x2.perms, i))
    ensures SameRange(x1, x2) ==> (done <==> forall k :: 0 <= k < 8 ==> x.perms[k] == 0)
    ensures !done ==> XLeft(x, x2) && XLess(x1, x)
    ensures !SameRange(x1, x2) ==>
      x == x1 && (done <==> x1.specified == IOCTLFUNCTION && x2.specified == IOCTLDRIVER && PermBit(x2.perms, x1.driver))
    ensures forall q: Query :: (q.Ioctl? || q.Nlmsg?) && XAnswers(x, q) ==> XAnswers(x1, q)
    ensures forall q: Query :: (q.Ioctl? || q.Nlmsg?) && XAnswers(x1, q) ==> XAnswers(x, q) || XAnswers(x2, q)
    ensures done ==> forall q: Query :: (q.Ioctl? || q.Nlmsg?) && XAnswers(x, q) ==> XAnswers(x2, q)
    ensures x.specified == x1.specified && x.driver == x1.driver
    ensures x1.specified == x2.specified && (x1.specified == 2 || (x1.specified in [1, 3] && x1.driver == x2.driver)) ==>
      && (forall k :: 0 <= k < 8 ==> x.perms[k] == x1.perms[k] & !x2.perms[k])
      && (done <==> forall k :: 0 <= k < 8 ==> x.perms[k] == 0)
    ensures x1.specified == 1 && x2.specified == 2 ==>
      x == x1 && forall w: nat, b: nat :: OneWord(x2.perms, w, b) ==> (done <==> x1.driver == 32 * w + b)
    ensures x1.specified != x2.specified && !(x1.specified == 1 && x2.specified == 2) ==> !done && x == x1
    ensures x1.specified == x2.specified && x1.specified in [1, 3] && x1.driver != x2.driver ==> !done && x == x1
  {
    hide PermBit, Clear, OneWord;
    forall w: nat, b: nat | OneWord(x2.perms, w, b) ensures PermBit(x2.perms, x1.driver) <==> x1.driver == 32 * w + b {
      OneWordLists(x2.perms, w, b, x1.driver);
    }
    forall k | 0 <= k < 8 ensures Clear(x1.perms[k], x2.perms[k]) == x1.perms[k] & !x2.perms[k] { ClearIs(x1.perms[k], x2.perms[k]); }
    x := x1;
    done := false;
    if x1.specified == IOCTLFUNCTION {
      if x2.specified == IOCTLFUNCTION {
        if x1.driver != x2.driver { return false, x1; }
        var empty, p := ProcessXperms(x1.perms, x2.perms);
        forall i: nat | i < 256 { ClearedBit(x1.perms, x2.perms, p, i); }
        return empty, x1.(perms := p);
      }
      if x2.specified == IOCTLDRIVER {
        return PermBit(x2.perms, x1.driver), x1;
      }
    } else if x1.specified == IOCTLDRIVER {
      if x2.specified == IOCTLFUNCTION { return false, x1; }
      if x2.specified == IOCTLDRIVER {
        var empty, p := ProcessXperms(x1.perms, x2.perms);
        forall i: nat | i < 256 { ClearedBit(x1.perms, x2.perms, p, i); }
        return empty, x1.(perms := p);
      }
    } else if x1.specified == NLMSG && x2.specified == NLMSG {
      if x1.driver != x2.driver { return false, x1; }
      var empty, p := ProcessXperms(x1.perms, x2.perms);
      forall i: nat | i < 256 { ClearedBit(x1.perms, x2.perms, p, i); }
      return empty, x1.(perms := p);
    }
  }

  lemma TrimmedBits(a: Node, b: Node, cover: Node, k: Kind, done: bool)
    requires OfKind(a.key.specified, k) && OfKind(cover.key.specified, k) && IsAv(k)
    requires b.key == a.key && b.datum.xperms == a.datum.xperms
    requires b.datum.data == if k.AuditDeny? then FillIn(a.datum.data, cover.datum.data) else Clear(a.datum.data, cover.datum.data)
    requires done ==> b.datum.data == if k.AuditDeny? then 0xFFFF_FFFF else 0
    ensures Trimmed(a, b, cover, done)
  {
    hide Meets, Clear, FillIn, Invert, OfKind;
    forall q: Query
      ensures Answers(b, q) ==> Answers(a, q)
      ensures Answers(a, q) ==> Answers(b, q) || Answers(cover, q)
      ensures done && Answers(b, q) ==> Answers(cover, q)
    {
      if OfKind(a.key.specified, q.kind) {
        KindUnique(a.key.specified, q.kind, k);
        if q.Bits? {
          TrimGrant(a.datum.data, cover.datum.data, q.mask);
          TrimDeny(a.datum.data, cover.datum.data, q.mask);
        }
      }
    }
  }

  lemma RemainingBits(a: Node, b: Node, cover: Node, k: Kind)
    requires OfKind(a.key.specified, k) && IsAv(k) && b.key == a.key && b.datum.xperms == a.datum.xperms
    requires b.datum.data == if k.AuditDeny? then FillIn(a.datum.data, cover.datum.data) else Clear(a.datum.data, cover.datum.data)
    ensures Less(a, b)
    ensures Effect(k, b.datum.data) == 0 || LeftOver(k, b, cover)
  {
    hide Meets, Clear, FillIn, Invert, OfKind;
    InvertFillIn(a.datum.data, cover.datum.data);
    ClearApart(Effect(k, a.datum.data), Effect(k, cover.datum.data));
    forall l, m | IsAv(l) && OfKind(a.key.specified, l) && Meets(Effect(l, b.datum.data), m)
      ensures Meets(Effect(l, a.datum.data), m)
    {
      KindUnique(a.key.specified, l, k);
      TrimGrant(a.datum.data, cover.datum.data, m);
      TrimDeny(a.datum.data, cover.datum.data, m);
    }
  }

  lemma TrimmedXperms(a: Node, b: Node, cover: Node, k: Kind, done: bool)
    requires OfKind(a.key.specified, k) && OfKind(cover.key.specified, k) && IsX(k)
    requires a.datum.xperms.Some? && b.datum.xperms.Some? && cover.datum.xperms.Some?
    requires b.key == a.key
    requires forall q: Query :: (q.Ioctl? || q.Nlmsg?) && XAnswers(b.datum.xperms.value, q) ==>
      XAnswers(a.datum.xperms.value, q)
    requires forall q: Query :: (q.Ioctl? || q.Nlmsg?) && XAnswers(a.datum.xperms.value, q) ==>
      XAnswers(b.datum.xperms.value, q) || XAnswers(cover.datum.xperms.value, q)
    requires done ==> forall q: Query :: (q.Ioctl? || q.Nlmsg?) && XAnswers(b.datum.xperms.value, q) ==>
      XAnswers(cover.datum.xperms.value, q)
    ensures Trimmed(a, b, cover, done)
  {
    hide OfKind, XAnswers;
    forall q: Query | OfKind(a.key.specified, q.kind) ensures q.kind == k {
      KindUnique(a.key.specified, q.kind, k);
    }
  }

  lemma NoBits(a: Node, b: Node, k: Kind)
    requires OfKind(a.key.specified, k) && IsX(k) && b.key == a.key
    requires b.datum.xperms.Some? && a.datum.xperms.Some? && XFewer(a.datum.xperms.value, b.datum.xperms.value)
    ensures Less(a, b)
  {
    forall l | IsAv(l) ensures !OfKind(a.key.specified, l) {
      if OfKind(a.key.specified, l) { KindUnique(a.key.specified, l, k); }
    }
  }

  /** `d1` is modified where it is; the caller's node keeps its key. */
  method ProcessAvtabDatum(a: Node, cover: Node, ghost k: Kind) returns (done: bool, b: Node)
    requires OfKind(a.key.specified, k) && OfKind(cover.key.specified, k) && (IsAv(k) || IsX(k))
    requires IsX(k) ==> a.datum.xperms.Some? && cover.datum.xperms.Some?
    ensures Trimmed(a, b, cover, done)
    ensures Less(a, b)
    ensures IsAv(k) ==> (done <==> Effect(k, b.datum.data) == 0)
    ensures IsAv(k) && !done ==> LeftOver(k, b, cover)
    ensures IsX(k) ==> b.datum.xperms.Some?
    ensures IsX(k) && !done ==> XLeft(b.datum.xperms.value, cover.datum.xperms.value) && XLess(a.datum.xperms.value, b.datum.xperms.value)
  {
    KindFacts(a.key.specified, k);
    InvertFull(if Has(a.key.specified, AUDITDENY) then FillIn(a.datum.data, cover.datum.data) else 0);
    hide OfKind, Has, Trimmed, Invert, Meets, Less, XLeft, XLess;
    if Has(a.key.specified, AUDITDENY) {
      b := a.(datum := a.datum.(data := FillIn(a.datum.data, cover.datum.data)));
      done := b.datum.data == 0xFFFF_FFFF;
      TrimmedBits(a, b, cover, k, done);
      RemainingBits(a, b, cover, k);
      return;
    }
    if Has(a.key.specified, AV) {
      b := a.(datum := a.datum.(data := Clear(a.datum.data, cover.datum.data)));
      done := b.datum.data == 0;
      TrimmedBits(a, b, cover, k, done);
      RemainingBits(a, b, cover, k);
      return;
    }
    if Has(a.key.specified, XPERMS) {
      var d, x := ProcessXpermDatum(a.datum.xperms.value, cover.datum.xperms.value);
      b := a.(datum := a.datum.(xperms := Some(x)));
      TrimmedXperms(a, b, cover, k, d);
      NoBits(a, b, k);
      return d, b;
    }
    assert false;
    done, b := false, a;
  }

  // ---------------------------------------------------------------- one rule against the table

  /** Some unconditional rule answers `a`; with `notCond` one of another source and target. */
  ghost predicate Covered(tm: TypeMaps, pool: seq<Node>, htable: seq<seq<nat>>, key: Key, notCond: bool, a: Access)
    requires tm.InRange()
  {
    exists p: nat :: Linked(htable, p) && p < |pool| && Speaks(tm, pool[p], a) &&
      (notCond ==> !SameTriple(pool[p].key, key))
  }

  /**
     `b` is `a` trimmed by rules for which `rest` stands. Over closed rows nothing is lost that
     `rest` does not say, and when redundant, `rest` says it all.
   */
  ghost predicate Reduced(tm: TypeMaps, a: Node, b: Node, rest: Access -> bool, redundant: bool)
    requires tm.InRange()
  {
    && b.key == a.key
    && (b.datum.xperms.Some? <==> a.datum.xperms.Some?)
    && (forall x :: Speaks(tm, b, x) ==> Speaks(tm, a, x))
    && (tm.RowsClosed() ==> forall x :: Speaks(tm, a, x) ==> Speaks(tm, b, x) || rest(x))
    && (tm.RowsClosed() && redundant ==> forall x :: Speaks(tm, b, x) ==> rest(x))
  }

  /** One trimming step, by a rule that reaches every pair the trimmed rule reaches. */
  lemma TrimmedReduces(tm: TypeMaps, a: Node, b: Node, c: Node, cover: Node, rest: Access -> bool, done: bool)
    requires tm.InRange() && Reduced(tm, a, b, rest, false) && Trimmed(b, c, cover, done)
    requires tm.RowsClosed() ==> forall x: Access :: Speaks(tm, a, x) ==> tm.Applies(cover.key, x.s, x.t, x.c)
    requires forall x :: Speaks(tm, cover, x) ==> rest(x)
    ensures Reduced(tm, a, c, rest, done)
  {
    hide Answers;
  }

  /** A rule on supersets of both types reaches whatever the narrower rule reaches. */
  lemma SupersetsApply(tm: TypeMaps, narrow: Key, wide: Key, s: nat, t: nat, c: nat)
    requires tm.Valid() && tm.RowsClosed() && tm.Concrete(s) && tm.Concrete(t)
    requires narrow.source > 0 && wide.source > 0 && IsSuperset(tm, narrow.source - 1, wide.source - 1)
    requires narrow.target > 0 && wide.target > 0 && IsSuperset(tm, narrow.target - 1, wide.target - 1)
    requires tm.flavor[wide.source - 1] != Gap && tm.flavor[wide.target - 1] != Gap
    requires narrow.tclass == wide.tclass
    requires tm.Applies(narrow, s, t, c)
    ensures tm.Applies(wide, s, t, c)
  {
    SupersetCovers(tm, narrow.source - 1, wide.source - 1, s);
    SupersetCovers(tm, narrow.target - 1, wide.target - 1, t);
  }

  // ---------------------------------------------------------------- what trimming leaves

  /** Rule `c` is of the kind of `a` and is looked up when `a` is trimmed. */
  ghost predicate AsWide(tm: TypeMaps, a: Key, c: Key)
    requires tm.InRange()
  {
    && a.source > 0 && c.source > 0 && IsSuperset(tm, a.source - 1, c.source - 1)
    && a.target > 0 && c.target > 0 && IsSuperset(tm, a.target - 1, c.target - 1)
    && c.tclass == a.tclass && Overlaps(a.specified, c.specified)
  }

  /** If `c` is as wide, the access-vector rule `a` says something, and nothing that `c` says. */
  ghost predicate Apart(tm: TypeMaps, a: Node, c: Node)
    requires tm.InRange()
  {
    AsWide(tm, a.key, c.key) ==> forall k :: IsAv(k) && OfKind(a.key.specified, k) ==> LeftOver(k, a, c)
  }

  /** The same for extended rules that were compared. */
  ghost predicate XApart(tm: TypeMaps, a: Node, c: Node)
    requires tm.InRange()
  {
    AsWide(tm, a.key, c.key) && a.datum.xperms.Some? && c.datum.xperms.Some? ==>
      forall k :: IsX(k) && OfKind(a.key.specified, k) ==> XLeft(a.datum.xperms.value, c.datum.xperms.value)
  }

  /** Rule `a` is apart from `c`; with `x` so are extended rules. */
  ghost predicate ApartBoth(tm: TypeMaps, a: Node, c: Node, x: bool)
    requires tm.InRange()
  {
    Apart(tm, a, c) && (x ==> XApart(tm, a, c))
  }

  /** Trimming `a` further to `b` keeps it apart from what it is apart from. */
  ghost predicate KeepsApart(tm: TypeMaps, a: Node, b: Node)
    requires tm.InRange()
  {
    forall c: Node :: (Apart(tm, a, c) ==> Apart(tm, b, c)) && (XApart(tm, a, c) ==> XApart(tm, b, c))
  }

  /**
     What a search leaves of `a`: apart, under unique keys, from rule `q`, and, for extended
     rules, which may share a key, if `q` is the first of its key.
   */
  ghost predicate Spared(tm: TypeMaps, a: Node, hash: Hash, pool: seq<Node>, htable: seq<seq<nat>>, q: nat)
    requires tm.InRange() && q < |pool|
  {
    && (UniqueKeys(pool, htable) ==> Apart(tm, a, pool[q]))
    && (FirstOfKey(hash, pool, htable, a.key.specified, q) ==> XApart(tm, a, pool[q]))
  }

  lemma SparedStays(tm: TypeMaps, a: Node, b: Node, hash: Hash, pool: seq<Node>, htable: seq<seq<nat>>, q: nat)
    requires tm.InRange() && q < |pool| && b.key == a.key && KeepsApart(tm, a, b) && Spared(tm, a, hash, pool, htable, q)
    ensures Spared(tm, b, hash, pool, htable, q)
  {
    hide Apart, XApart, UniqueKeys, FirstOfKey;
  }

  lemma TrimKeepsApart(tm: TypeMaps, a: Node, b: Node, k: Kind)
    requires tm.InRange() && Less(a, b) && OfKind(a.key.specified, k)
    requires IsAv(k) ==> Effect(k, b.datum.data) != 0
    requires a.datum.xperms.Some? <==> b.datum.xperms.Some?
    requires IsX(k) && a.datum.xperms.Some? ==> XLess(a.datum.xperms.value, b.datum.xperms.value)
    ensures KeepsApart(tm, a, b)
  {
    LessKey(a, b);
    hide OfKind, AsWide, Meets, Effect, XLeft, XLess, Less;
    forall c: Node | Apart(tm, a, c) ensures Apart(tm, b, c) {
      forall l | AsWide(tm, a.key, c.key) && IsAv(l) && OfKind(a.key.specified, l) ensures LeftOver(l, b, c) {
        KindUnique(a.key.specified, k, l);
        assert LeftOver(l, a, c);
        LessLeft(l, a, b, c);
      }
    }
    forall c: Node | XApart(tm, a, c) ensures XApart(tm, b, c) {
      if a.datum.xperms.Some? && c.datum.xperms.Some? && AsWide(tm, a.key, c.key) {
        forall l | IsX(l) && OfKind(a.key.specified, l) ensures XLeft(b.datum.xperms.value, c.datum.xperms.value) {
          KindUnique(a.key.specified, k, l);
          XLessLeft(a.datum.xperms.value, b.datum.xperms.value, c.datum.xperms.value);
        }
      }
    }
  }

  lemma LessLeft(k: Kind, a: Node, b: Node, c: Node)
    requires Less(a, b) && LeftOver(k, a, c) && Effect(k, b.datum.data) != 0 && IsAv(k) && OfKind(a.key.specified, k)
    ensures LeftOver(k, b, c)
  {
    hide Meets, Effect, OfKind;
  }

  lemma XLessLeft(a: Xperms, b: Xperms, c: Xperms)
    requires XLess(a, b) && XLeft(a, c)
    ensures XLeft(b, c)
  {
    hide PermBit;
  }

  /** Trimming the wider rule keeps the narrower one apart from it. */
  lemma ApartFromLess(tm: TypeMaps, a: Node, c: Node, d: Node)
    requires tm.InRange() && Apart(tm, a, c) && Less(c, d) && OneKind(c.key.specified)
    ensures Apart(tm, a, d)
  {
    hide OfKind, Meets, Effect, IsSuperset, Overlaps;
    var kind: Kind :| OfKind(c.key.specified, kind);
    forall k | AsWide(tm, a.key, d.key) && IsAv(k) && OfKind(a.key.specified, k) ensures LeftOver(k, a, d) {
      OverlapSameKind(a.key.specified, c.key.specified, k, kind);
      assert LeftOver(k, a, c);
      MeetsSymmetric(Effect(k, a.datum.data), Effect(k, c.datum.data));
      MeetsSymmetric(Effect(k, a.datum.data), Effect(k, d.datum.data));
    }
  }

  lemma XApartFromLess(tm: TypeMaps, a: Node, c: Node, d: Node)
    requires tm.InRange() && XApart(tm, a, c) && Less(c, d)
    ensures XApart(tm, a, d)
  {
    hide OfKind, Meets, Effect, IsSuperset, Overlaps, PermBit;
  }

  lemma BothFromLess(tm: TypeMaps, a: Node, c: Node, d: Node, x: bool)
    requires tm.InRange() && ApartBoth(tm, a, c, x) && Less(c, d) && OneKind(c.key.specified)
    ensures ApartBoth(tm, a, d, x)
  {
    hide Apart, XApart, Less, OneKind;
    ApartFromLess(tm, a, c, d);
    if x { XApartFromLess(tm, a, c, d); }
  }

  /** Rule `a` is apart from the rules on source `st` and target `tt`. */
  ghost predicate ApartAt(tm: TypeMaps, a: Node, hash: Hash, pool: seq<Node>, htable: seq<seq<nat>>, st: nat, tt: nat)
    requires tm.InRange()
  {
    forall q: nat :: Linked(htable, q) && q < |pool| && pool[q].key.source == st + 1 && pool[q].key.target == tt + 1 ==>
      Spared(tm, a, hash, pool, htable, q)
  }

  /** What the whole search leaves of `a`. */
  ghost predicate SparedByTable(tm: TypeMaps, a: Node, hash: Hash, pool: seq<Node>, htable: seq<seq<nat>>, notCond: bool)
    requires tm.InRange()
  {
    forall q: nat :: LookedUp(a, pool, htable, notCond, q) ==> Spared(tm, a, hash, pool, htable, q)
  }

  /** No two rules of the table answer the same search, extended ones included. */
  ghost predicate SingleKeys(pool: seq<Node>, htable: seq<seq<nat>>) {
    forall p: nat, q: nat ::
      Linked(htable, p) && Linked(htable, q) && p != q && p < |pool| && q < |pool| ==> !Matches(pool[p].key, pool[q].key)
  }

  lemma SameKindOverlaps(x: bv16, y: bv16, z: bv16)
    requires OneKind(x) && OneKind(y) && OneKind(z) && Overlaps(x, y) && Overlaps(x, z)
    ensures Overlaps(y, z)
  {
    hide Overlaps;
    var k: Kind :| OfKind(x, k);
    var l: Kind :| OfKind(y, l);
    var m: Kind :| OfKind(z, m);
    OverlapSameKind(x, y, k, l);
    OverlapSameKind(x, z, k, m);
    OverlapSameKind(y, z, l, m);
  }

  /** With single keys every rule as wide is the first of its key. */
  lemma SingleIsFirst(tm: TypeMaps, a: Node, hash: Hash, pool: seq<Node>, htable: seq<seq<nat>>, q: nat)
    requires tm.InRange() && WellChained(hash, pool, htable) && RulesOk(tm, pool) && SingleKeys(pool, htable)
    requires OneKind(a.key.specified) && Linked(htable, q) && q < |pool| && AsWide(tm, a.key, pool[q].key)
    ensures FirstOfKey(hash, pool, htable, a.key.specified, q)
  {
    LinkedSlot(hash, pool, htable, q);
    var slot := Slot(hash, |htable|, pool[q].key);
    var chain := htable[slot];
    assert ChainOk(hash, |htable|, pool, slot, chain);
    var pos :| 0 <= pos < |chain| && chain[pos] == q;
    hide IsSuperset, Sorted, Overlaps, OneKind;
    forall x | 0 <= x < pos ensures chain[x] < |pool| && !Matches(pool[q].key.(specified := a.key.specified), pool[chain[x]].key) {
      var p := chain[x];
      assert p in chain && Linked(htable, p);
      assert RuleOk(tm, pool[p]) && RuleOk(tm, pool[q]);
      if Overlaps(a.key.specified, pool[p].key.specified) {
        SameKindOverlaps(a.key.specified, pool[q].key.specified, pool[p].key.specified);
      }
    }
    assert FirstAt(pool, chain, a.key.specified, q, pos);
  }

  lemma SparedApart(tm: TypeMaps, a: Node, hash: Hash, pool: seq<Node>, htable: seq<seq<nat>>, notCond: bool)
    requires tm.InRange() && SparedByTable(tm, a, hash, pool, htable, notCond) && UniqueKeys(pool, htable)
    requires WellChained(hash, pool, htable) && RulesOk(tm, pool) && OneKind(a.key.specified)
    ensures ApartFromTable(tm, a, pool, htable, notCond, SingleKeys(pool, htable))
  {
    hide Apart, XApart, UniqueKeys, FirstOfKey, Linked, WellChained, RulesOk, OneKind, SingleKeys, AsWide;
    forall q: nat | LookedUp(a, pool, htable, notCond, q) ensures ApartBoth(tm, a, pool[q], SingleKeys(pool, htable)) {
      assert Spared(tm, a, hash, pool, htable, q);
      if AsWide(tm, a.key, pool[q].key) {
        if SingleKeys(pool, htable) { SingleIsFirst(tm, a, hash, pool, htable, q); }
      } else {
        NotWideApart(tm, a, pool[q]);
      }
    }
  }

  lemma NotWideApart(tm: TypeMaps, a: Node, c: Node)
    requires tm.InRange() && !AsWide(tm, a.key, c.key)
    ensures XApart(tm, a, c)
  {
  }

  /** Rule `q` of the table, with `notCond` of another triple than `a`. */
  ghost predicate LookedUp(a: Node, pool: seq<Node>, htable: seq<seq<nat>>, notCond: bool, q: nat) {
    Linked(htable, q) && q < |pool| && (notCond ==> !SameTriple(pool[q].key, a.key))
  }

  /** No rule looked up for `a` is as wide. */
  ghost predicate Alone(tm: TypeMaps, a: Node, pool: seq<Node>, htable: seq<seq<nat>>, notCond: bool)
    requires tm.InRange()
  {
    forall q: nat :: LookedUp(a, pool, htable, notCond, q) ==> !AsWide(tm, a.key, pool[q].key)
  }

  lemma FoundNotAlone(tm: TypeMaps, a: Node, pool: seq<Node>, htable: seq<seq<nat>>, st: nat, tt: nat, p: nat, notCond: bool)
    requires tm.InRange() && RuleOk(tm, a) && Hit(pool, htable, Key(st + 1, tt + 1, a.key.tclass, a.key.specified), p)
    requires IsSuperset(tm, a.key.source - 1, st) && IsSuperset(tm, a.key.target - 1, tt)
    requires notCond ==> st != a.key.source - 1 || tt != a.key.target - 1
    ensures !Alone(tm, a, pool, htable, notCond)
  {
    hide IsSuperset, Overlaps, OneKind, Linked;
    assert LookedUp(a, pool, htable, notCond, p);
  }

  /** Rule `a` is apart from every rule of the table; with `notCond` of another triple. */
  ghost predicate ApartFromTable(tm: TypeMaps, a: Node, pool: seq<Node>, htable: seq<seq<nat>>, notCond: bool, x: bool)
    requires tm.InRange()
  {
    forall q: nat :: LookedUp(a, pool, htable, notCond, q) ==> ApartBoth(tm, a, pool[q], x)
  }

  lemma SoleBits(x: bv16, y: bv16, z: bv16, k: Kind)
    requires OfKind(x, k) && IsAv(k) && Overlaps(x, y) && Overlaps(x, z) && OneKind(y) && OneKind(z)
    ensures Overlaps(y, z) && !Has(y | z, XPERMS)
  {
    hide Overlaps, Has;
    var l: Kind :| OfKind(y, l);
    var m: Kind :| OfKind(z, m);
    OverlapSameKind(x, y, k, l);
    OverlapSameKind(x, z, k, m);
    OverlapSameKind(y, z, l, m);
    KindFacts(y, l);
    KindFacts(z, m);
    HasUnion(y, z, XPERMS);
  }

  lemma HasUnion(y: bv16, z: bv16, mask: bv16)
    ensures Has(y | z, mask) <==> Has(y, mask) || Has(z, mask)
  {
    calc {
      Has(y | z, mask);
      (y | z) & mask != 0;
      y & mask != 0 || z & mask != 0;
      Has(y, mask) || Has(z, mask);
    }
  }

  /** With unique keys, the one rule that a search finds stands for all on its pair. */
  lemma FoundStandsForAll(tm: TypeMaps, a: Node, pool: seq<Node>, htable: seq<seq<nat>>, st: nat, tt: nat, p: nat, k: Kind)
    requires tm.InRange() && OfKind(a.key.specified, k) && UniqueKeys(pool, htable) && RulesOk(tm, pool)
    requires Hit(pool, htable, Key(st + 1, tt + 1, a.key.tclass, a.key.specified), p)
    requires IsAv(k) ==> LeftOver(k, a, pool[p])
    ensures forall q: nat :: Linked(htable, q) && q < |pool| && pool[q].key.source == st + 1 && pool[q].key.target == tt + 1 ==>
      Apart(tm, a, pool[q])
  {
    hide LeftOver, IsSuperset;
    assert RuleOk(tm, pool[p]);
    forall q: nat | Linked(htable, q) && q < |pool| && pool[q].key.source == st + 1 && pool[q].key.target == tt + 1
      ensures Apart(tm, a, pool[q])
    {
      assert RuleOk(tm, pool[q]);
      hide OfKind, Overlaps, Has, OneKind;
      forall l | AsWide(tm, a.key, pool[q].key) && IsAv(l) && OfKind(a.key.specified, l) ensures LeftOver(l, a, pool[q]) {
        KindUnique(a.key.specified, k, l);
        SoleBits(a.key.specified, pool[p].key.specified, pool[q].key.specified, k);
        assert Matches(pool[p].key, pool[q].key);
      }
    }
  }

  lemma NothingFound(tm: TypeMaps, a: Node, hash: Hash, pool: seq<Node>, htable: seq<seq<nat>>, key: Key, st: nat, tt: nat)
    requires tm.InRange() && key == Key(st + 1, tt + 1, a.key.tclass, a.key.specified)
    requires forall q: nat :: !Hit(pool, htable, key, q)
    ensures ApartAt(tm, a, hash, pool, htable, st, tt)
  {
    hide UniqueKeys, FirstOfKey;
    forall q: nat | Linked(htable, q) && q < |pool| && pool[q].key.source == st + 1 && pool[q].key.target == tt + 1
      ensures !AsWide(tm, a.key, pool[q].key)
    {
      assert !Hit(pool, htable, key, q);
    }
  }

  /** The extended rule a search finds is the one compared. */
  lemma FoundIsFirst(tm: TypeMaps, a: Node, hash: Hash, pool: seq<Node>, htable: seq<seq<nat>>, st: nat, tt: nat, p: nat, q: nat)
    requires tm.InRange() && p < |pool| && q < |pool| && FirstOfKey(hash, pool, htable, a.key.specified, p)
    requires Matches(Key(st + 1, tt + 1, a.key.tclass, a.key.specified), pool[p].key) && XApart(tm, a, pool[p])
    requires FirstOfKey(hash, pool, htable, a.key.specified, q) && pool[q].key.source == st + 1 && pool[q].key.target == tt + 1
    ensures XApart(tm, a, pool[q])
  {
    hide FirstOfKey, Overlaps, XLeft, OfKind, IsSuperset;
    if AsWide(tm, a.key, pool[q].key) { FirstUnique(hash, pool, htable, a.key.specified, p, q); }
  }

  lemma FoundSpares(tm: TypeMaps, a: Node, hash: Hash, pool: seq<Node>, htable: seq<seq<nat>>, st: nat, tt: nat, p: nat, k: Kind)
    requires tm.InRange() && OfKind(a.key.specified, k) && RulesOk(tm, pool)
    requires Hit(pool, htable, Key(st + 1, tt + 1, a.key.tclass, a.key.specified), p)
    requires FirstOfKey(hash, pool, htable, a.key.specified, p)
    requires (IsAv(k) ==> LeftOver(k, a, pool[p])) && XApart(tm, a, pool[p])
    ensures ApartAt(tm, a, hash, pool, htable, st, tt)
  {
    hide Apart, XApart, UniqueKeys, FirstOfKey, Linked, RulesOk, LeftOver, OfKind, Matches;
    if UniqueKeys(pool, htable) { FoundStandsForAll(tm, a, pool, htable, st, tt, p, k); }
    forall q: nat | Linked(htable, q) && q < |pool| && pool[q].key.source == st + 1 && pool[q].key.target == tt + 1
      ensures Spared(tm, a, hash, pool, htable, q)
    {
      if FirstOfKey(hash, pool, htable, a.key.specified, q) { FoundIsFirst(tm, a, hash, pool, htable, st, tt, p, q); }
    }
  }

  /** The pairs of supersets before row `i`, column `j` have been looked up. */
  ghost predicate ApartSoFar(tm: TypeMaps, a: Node, hash: Hash, pool: seq<Node>, htable: seq<seq<nat>>, notCond: bool,
                             rows: seq<nat>, cols: seq<nat>, i: nat, j: nat)
    requires tm.InRange()
  {
    forall q: nat, x, y ::
      LookedUp(a, pool, htable, notCond, q) && 0 <= x < |rows| && 0 <= y < |cols| && (x < i || (x == i && y < j))
      && pool[q].key.source == rows[x] + 1 && pool[q].key.target == cols[y] + 1
      ==> Spared(tm, a, hash, pool, htable, q)
  }

  lemma SoFarStep(tm: TypeMaps, a: Node, b: Node, hash: Hash, pool: seq<Node>, htable: seq<seq<nat>>, notCond: bool,
                  rows: seq<nat>, cols: seq<nat>, i: nat, j: nat)
    requires tm.InRange() && i < |rows| && j < |cols| && b.key == a.key
    requires ApartSoFar(tm, a, hash, pool, htable, notCond, rows, cols, i, j) && KeepsApart(tm, a, b)
    requires ApartAt(tm, b, hash, pool, htable, rows[i], cols[j])
    ensures ApartSoFar(tm, b, hash, pool, htable, notCond, rows, cols, i, j + 1)
  {
    hide Apart, Spared, KeepsApart, Linked;
    forall q: nat, x, y | LookedUp(b, pool, htable, notCond, q) && 0 <= x < |rows| && 0 <= y < |cols| && (x < i || (x == i && y < j + 1))
      && pool[q].key.source == rows[x] + 1 && pool[q].key.target == cols[y] + 1
      ensures Spared(tm, b, hash, pool, htable, q)
    {
      if x < i || y < j {
        assert LookedUp(a, pool, htable, notCond, q);
        SparedStays(tm, a, b, hash, pool, htable, q);
      }
    }
  }

  /** The rule's own pair is passed over. */
  lemma SoFarSkip(tm: TypeMaps, a: Node, hash: Hash, pool: seq<Node>, htable: seq<seq<nat>>, rows: seq<nat>, cols: seq<nat>, i: nat, j: nat)
    requires tm.InRange() && i < |rows| && j < |cols|
    requires ApartSoFar(tm, a, hash, pool, htable, true, rows, cols, i, j)
    requires rows[i] + 1 == a.key.source && cols[j] + 1 == a.key.target
    ensures ApartSoFar(tm, a, hash, pool, htable, true, rows, cols, i, j + 1)
  {
    hide IsSuperset, Overlaps, LeftOver, XLeft, OfKind, UniqueKeys, FirstOfKey;
  }

  lemma SoFarRow(tm: TypeMaps, a: Node, hash: Hash, pool: seq<Node>, htable: seq<seq<nat>>, notCond: bool, rows: seq<nat>, cols: seq<nat>, i: nat)
    requires tm.InRange() && ApartSoFar(tm, a, hash, pool, htable, notCond, rows, cols, i, |cols|)
    ensures ApartSoFar(tm, a, hash, pool, htable, notCond, rows, cols, i + 1, 0)
  {
    hide Spared;
  }

  lemma SoFarStart(tm: TypeMaps, a: Node, hash: Hash, pool: seq<Node>, htable: seq<seq<nat>>, notCond: bool, rows: seq<nat>, cols: seq<nat>)
    requires tm.InRange()
    ensures ApartSoFar(tm, a, hash, pool, htable, notCond, rows, cols, 0, 0)
  {
  }

  lemma SoFarDone(tm: TypeMaps, a: Node, hash: Hash, pool: seq<Node>, htable: seq<seq<nat>>, notCond: bool, map_: seq<seq<nat>>)
    requires tm.InRange() && TypeMapOk(tm, map_) && RuleOk(tm, a)
    requires ApartSoFar(tm, a, hash, pool, htable, notCond, map_[a.key.source - 1], map_[a.key.target - 1], |map_[a.key.source - 1]|, 0)
    ensures SparedByTable(tm, a, hash, pool, htable, notCond)
  {
    hide IsSuperset, OneKind, Overlaps, UniqueKeys, FirstOfKey, LeftOver, XLeft, OfKind;
    var rows, cols := map_[a.key.source - 1], map_[a.key.target - 1];
    forall q: nat | LookedUp(a, pool, htable, notCond, q) ensures Spared(tm, a, hash, pool, htable, q) {
      if AsWide(tm, a.key, pool[q].key) {
        assert pool[q].key.source - 1 in rows && pool[q].key.target - 1 in cols;
        var x :| 0 <= x < |rows| && rows[x] == pool[q].key.source - 1;
        var y :| 0 <= y < |cols| && cols[y] == pool[q].key.target - 1;
      }
    }
  }

  // ---------------------------------------------------------------- one rule against the table, continued

  ghost function Covers(tm: TypeMaps, pool: seq<Node>, htable: seq<seq<nat>>, key: Key, notCond: bool): Access -> bool
    requires tm.InRange()
  {
    a => Covered(tm, pool, htable, key, notCond, a)
  }

  /** Trims by one rule that is known to be wider. */
  method CoverBy(tm: TypeMaps, ghost entry: Node, trimmed: Node, cover: Node, ghost k: Kind, ghost rest: Access -> bool)
    returns (done: bool, next: Node)
    requires tm.Valid() && RuleOk(tm, entry) && RuleOk(tm, cover)
    requires OfKind(entry.key.specified, k) && (IsAv(k) || IsX(k))
    requires Overlaps(entry.key.specified, cover.key.specified) && entry.key.tclass == cover.key.tclass
    requires IsSuperset(tm, entry.key.source - 1, cover.key.source - 1)
    requires IsSuperset(tm, entry.key.target - 1, cover.key.target - 1)
    requires Reduced(tm, entry, trimmed, rest, false)
    requires forall x :: Speaks(tm, cover, x) ==> rest(x)
    ensures Reduced(tm, entry, next, rest, done)
    ensures Less(trimmed, next)
    ensures !done ==> KeepsApart(tm, trimmed, next) && (IsAv(k) ==> LeftOver(k, next, cover)) && XApart(tm, next, cover)
  {
    ghost var l: Kind :| OfKind(cover.key.specified, l);
    OverlapSameKind(entry.key.specified, cover.key.specified, k, l);
    KindFacts(entry.key.specified, k);
    KindFacts(cover.key.specified, k);
    hide OfKind, Has, Overlaps, IsXperms, Trimmed, Answers, IsSuperset, Less, LeftOver, KeepsApart;
    done, next := ProcessAvtabDatum(trimmed, cover, k);
    if !done {
      TrimKeepsApart(tm, trimmed, next, k);
      XLeftApart(tm, next, cover, k);
    }
    forall x: Access | tm.RowsClosed() && Speaks(tm, entry, x) ensures tm.Applies(cover.key, x.s, x.t, x.c) {
      SupersetsApply(tm, entry.key, cover.key, x.s, x.t, x.c);
    }
    TrimmedReduces(tm, entry, trimmed, next, cover, rest, done);
  }

  lemma XLeftApart(tm: TypeMaps, a: Node, c: Node, k: Kind)
    requires tm.InRange() && OfKind(a.key.specified, k) && (IsAv(k) || IsX(k))
    requires IsX(k) ==> a.datum.xperms.Some? && c.datum.xperms.Some? && XLeft(a.datum.xperms.value, c.datum.xperms.value)
    ensures XApart(tm, a, c)
  {
    hide OfKind, XLeft, AsWide;
    forall l | OfKind(a.key.specified, l) ensures l == k { KindUnique(a.key.specified, k, l); }
  }

  lemma RuleThere(tm: TypeMaps, a: Node)
    requires tm.Valid() && RuleOk(tm, a)
    ensures tm.InRange() && a.key.source > 0 && a.key.target > 0
  {
  }

  /** The rule a search finds may serve as a cover. */
  lemma FoundIsCover(tm: TypeMaps, a: Node, pool: seq<Node>, htable: seq<seq<nat>>, st: nat, tt: nat, p: nat, notCond: bool)
    requires tm.InRange() && RuleOk(tm, a) && RulesOk(tm, pool)
    requires Hit(pool, htable, Key(st + 1, tt + 1, a.key.tclass, a.key.specified), p)
    requires notCond ==> st != a.key.source - 1 || tt != a.key.target - 1
    ensures p < |pool| && RuleOk(tm, pool[p]) && Overlaps(a.key.specified, pool[p].key.specified)
    ensures pool[p].key.source == st + 1 && pool[p].key.target == tt + 1 && pool[p].key.tclass == a.key.tclass
    ensures forall x :: Speaks(tm, pool[p], x) ==> Covers(tm, pool, htable, a.key, notCond)(x)
  {
    hide Overlaps, OneKind, Linked, Speaks;
  }

  /** Looks one pair of supersets up and trims by the rule found there, if any. */
  method TryCover(tm: TypeMaps, entry: Node, trimmed: Node, tab: Avtab, st: nat, tt: nat, ghost k: Kind, notCond: bool)
    returns (done: bool, next: Node)
    requires tm.Valid() && RuleOk(tm, entry)
    requires tab.Valid() && RulesOk(tm, tab.pool)
    requires OfKind(entry.key.specified, k) && (IsAv(k) || IsX(k))
    requires IsSuperset(tm, entry.key.source - 1, st) && IsSuperset(tm, entry.key.target - 1, tt)
    requires notCond ==> st != entry.key.source - 1 || tt != entry.key.target - 1
    requires Reduced(tm, entry, trimmed, Covers(tm, tab.pool, tab.htable, entry.key, notCond), false)
    ensures Reduced(tm, entry, next, Covers(tm, tab.pool, tab.htable, entry.key, notCond), done)
    ensures Less(trimmed, next)
    ensures !done ==> KeepsApart(tm, trimmed, next)
    ensures !done ==> ApartAt(tm, next, tab.hash, tab.pool, tab.htable, st, tt)
    ensures Alone(tm, entry, tab.pool, tab.htable, notCond) ==> !done && next == trimmed
  {
    hide *;
    RuleThere(tm, entry);
    KeptKey(tm, entry, trimmed, Covers(tm, tab.pool, tab.htable, entry.key, notCond), false);
    LessSame(tm, trimmed);
    var key := Key(st + 1, tt + 1, entry.key.tclass, entry.key.specified);
    var d2 := tab.Search(key);
    if d2.None? {
      NothingFound(tm, trimmed, tab.hash, tab.pool, tab.htable, key, st, tt);
      return false, trimmed;
    }
    FoundNotAlone(tm, entry, tab.pool, tab.htable, st, tt, d2.value, notCond);
    FoundIsCover(tm, entry, tab.pool, tab.htable, st, tt, d2.value, notCond);
    done, next := CoverBy(tm, entry, trimmed, tab.pool[d2.value], k,
      Covers(tm, tab.pool, tab.htable, entry.key, notCond));
    KeptKey(tm, entry, next, Covers(tm, tab.pool, tab.htable, entry.key, notCond), done);
    if !done { FoundSpares(tm, next, tab.hash, tab.pool, tab.htable, st, tt, d2.value, k); }
  }

  lemma KeptKey(tm: TypeMaps, a: Node, b: Node, rest: Access -> bool, redundant: bool)
    requires tm.InRange() && Reduced(tm, a, b, rest, redundant)
    ensures b.key == a.key
    ensures RuleOk(tm, a) ==> RuleOk(tm, b)
  {
  }

  lemma LessSame(tm: TypeMaps, a: Node)
    requires tm.InRange()
    ensures Less(a, a) && KeepsApart(tm, a, a)
  {
  }

  lemma LessMore(a: Node, b: Node, c: Node)
    requires Less(a, b) && Less(b, c)
    ensures Less(a, c)
  {
    hide Meets, OfKind, Effect;
  }

  /** How far the search has got: what is left of `entry`, and what it is apart from. */
  ghost predicate TrimmedSoFar(tm: TypeMaps, entry: Node, trimmed: Node, hash: Hash, pool: seq<Node>, htable: seq<seq<nat>>,
                               notCond: bool, rows: seq<nat>, cols: seq<nat>, i: nat, j: nat)
    requires tm.InRange()
  {
    && Reduced(tm, entry, trimmed, Covers(tm, pool, htable, entry.key, notCond), false)
    && Less(entry, trimmed) && trimmed.key == entry.key
    && ApartSoFar(tm, trimmed, hash, pool, htable, notCond, rows, cols, i, j)
  }

  lemma SearchStart(tm: TypeMaps, entry: Node, hash: Hash, pool: seq<Node>, htable: seq<seq<nat>>, notCond: bool, rows: seq<nat>, cols: seq<nat>)
    returns (k: Kind)
    requires tm.InRange() && RuleOk(tm, entry)
    ensures OfKind(entry.key.specified, k) && (Has(entry.key.specified, AV | XPERMS) <==> IsAv(k) || IsX(k))
    ensures TrimmedSoFar(tm, entry, entry, hash, pool, htable, notCond, rows, cols, 0, 0)
    ensures Reduced(tm, entry, entry, Covers(tm, pool, htable, entry.key, notCond), false) && Less(entry, entry)
  {
    k :| OfKind(entry.key.specified, k);
    KindFacts(entry.key.specified, k);
    hide OfKind, Has, IsSuperset, Spared, Speaks;
    LessSame(tm, entry);
    SoFarStart(tm, entry, hash, pool, htable, notCond, rows, cols);
  }

  lemma SearchRow(tm: TypeMaps, entry: Node, trimmed: Node, hash: Hash, pool: seq<Node>, htable: seq<seq<nat>>,
                  notCond: bool, rows: seq<nat>, cols: seq<nat>, i: nat)
    requires tm.InRange() && TrimmedSoFar(tm, entry, trimmed, hash, pool, htable, notCond, rows, cols, i, |cols|)
    ensures TrimmedSoFar(tm, entry, trimmed, hash, pool, htable, notCond, rows, cols, i + 1, 0)
  {
    hide Reduced, Less, UniqueKeys, ApartSoFar;
    SoFarRow(tm, trimmed, hash, pool, htable, notCond, rows, cols, i);
  }

  lemma SearchDone(tm: TypeMaps, entry: Node, trimmed: Node, hash: Hash, pool: seq<Node>, htable: seq<seq<nat>>, notCond: bool, map_: seq<seq<nat>>)
    requires tm.InRange() && TypeMapOk(tm, map_) && RuleOk(tm, entry)
    requires TrimmedSoFar(tm, entry, trimmed, hash, pool, htable, notCond,
               map_[entry.key.source - 1], map_[entry.key.target - 1], |map_[entry.key.source - 1]|, 0)
    ensures Reduced(tm, entry, trimmed, Covers(tm, pool, htable, entry.key, notCond), false) && Less(entry, trimmed)
    ensures SparedByTable(tm, trimmed, hash, pool, htable, notCond)
  {
    KeptKey(tm, entry, trimmed, Covers(tm, pool, htable, entry.key, notCond), false);
    hide Reduced, Less, ApartSoFar, SparedByTable;
    SoFarDone(tm, trimmed, hash, pool, htable, notCond, map_);
  }

  lemma SearchStep(tm: TypeMaps, entry: Node, trimmed: Node, next: Node, hash: Hash, pool: seq<Node>, htable: seq<seq<nat>>,
                   notCond: bool, rows: seq<nat>, cols: seq<nat>, i: nat, j: nat)
    requires tm.InRange() && TrimmedSoFar(tm, entry, trimmed, hash, pool, htable, notCond, rows, cols, i, j)
    requires i < |rows| && j < |cols|
    requires Reduced(tm, entry, next, Covers(tm, pool, htable, entry.key, notCond), false)
    requires Less(trimmed, next) && KeepsApart(tm, trimmed, next)
    requires ApartAt(tm, next, hash, pool, htable, rows[i], cols[j])
    ensures TrimmedSoFar(tm, entry, next, hash, pool, htable, notCond, rows, cols, i, j + 1)
  {
    KeptKey(tm, entry, next, Covers(tm, pool, htable, entry.key, notCond), false);
    hide Reduced, Less, UniqueKeys, ApartSoFar, KeepsApart, ApartAt;
    LessMore(entry, trimmed, next);
    SoFarStep(tm, trimmed, next, hash, pool, htable, notCond, rows, cols, i, j);
  }

  lemma SearchSkip(tm: TypeMaps, entry: Node, trimmed: Node, hash: Hash, pool: seq<Node>, htable: seq<seq<nat>>,
                   rows: seq<nat>, cols: seq<nat>, i: nat, j: nat)
    requires tm.InRange() && TrimmedSoFar(tm, entry, trimmed, hash, pool, htable, true, rows, cols, i, j)
    requires i < |rows| && j < |cols| && rows[i] + 1 == entry.key.source && cols[j] + 1 == entry.key.target
    ensures TrimmedSoFar(tm, entry, trimmed, hash, pool, htable, true, rows, cols, i, j + 1)
  {
    hide Reduced, Less, UniqueKeys, ApartSoFar;
    SoFarSkip(tm, trimmed, hash, pool, htable, rows, cols, i, j);
  }

  lemma SearchFacts(tm: TypeMaps, entry: Node, trimmed: Node, hash: Hash, pool: seq<Node>, htable: seq<seq<nat>>,
                    notCond: bool, rows: seq<nat>, cols: seq<nat>, i: nat, j: nat)
    requires tm.InRange() && TrimmedSoFar(tm, entry, trimmed, hash, pool, htable, notCond, rows, cols, i, j)
    ensures Reduced(tm, entry, trimmed, Covers(tm, pool, htable, entry.key, notCond), false) && Less(entry, trimmed)
  {
  }

  lemma ListedSuperset(tm: TypeMaps, map_: seq<seq<nat>>, a: nat, i: nat)
    requires tm.InRange() && TypeMapOk(tm, map_) && a < |map_| && i < |map_[a]|
    ensures IsSuperset(tm, a, map_[a][i])
  {
    assert map_[a][i] in map_[a];
  }

  lemma RowsThere(tm: TypeMaps, map_: seq<seq<nat>>, n: Node)
    requires tm.Valid() && TypeMapOk(tm, map_) && RuleOk(tm, n)
    ensures tm.InRange() && 0 < n.key.source <= |map_| && 0 < n.key.target <= |map_|
  {
  }

  /** One turn of the outer loop: all the supersets of the target with one of the source. */
  method TrimByRow(tm: TypeMaps, entry: Node, was: Node, tab: Avtab, map_: seq<seq<nat>>, notCond: bool, i: nat, ghost k: Kind)
    returns (redundant: bool, trimmed: Node)
    requires tm.Valid() && TypeMapOk(tm, map_) && RuleOk(tm, entry)
    requires tab.Valid() && RulesOk(tm, tab.pool) && OfKind(entry.key.specified, k) && (IsAv(k) || IsX(k))
    requires i < |map_[entry.key.source - 1]|
    requires TrimmedSoFar(tm, entry, was, tab.hash, tab.pool, tab.htable, notCond, map_[entry.key.source - 1], map_[entry.key.target - 1], i, 0)
    ensures !redundant ==> TrimmedSoFar(tm, entry, trimmed, tab.hash, tab.pool, tab.htable, notCond,
                             map_[entry.key.source - 1], map_[entry.key.target - 1], i, |map_[entry.key.target - 1]|)
    ensures Reduced(tm, entry, trimmed, Covers(tm, tab.pool, tab.htable, entry.key, notCond), redundant) && Less(entry, trimmed)
    ensures Alone(tm, entry, tab.pool, tab.htable, notCond) ==> !redundant && trimmed == was
  {
    hide *;
    RowsThere(tm, map_, entry);
    trimmed := was;
    var sIdx, tIdx := entry.key.source - 1, entry.key.target - 1;
    var st := map_[sIdx][i];
    ListedSuperset(tm, map_, sIdx, i);
    for j := 0 to |map_[tIdx]|
      invariant TrimmedSoFar(tm, entry, trimmed, tab.hash, tab.pool, tab.htable, notCond, map_[sIdx], map_[tIdx], i, j)
      invariant Alone(tm, entry, tab.pool, tab.htable, notCond) ==> trimmed == was
    {
      var tt := map_[tIdx][j];
      ListedSuperset(tm, map_, tIdx, j);
      SearchFacts(tm, entry, trimmed, tab.hash, tab.pool, tab.htable, notCond, map_[sIdx], map_[tIdx], i, j);
      if notCond && sIdx == st && tIdx == tt {
        SearchSkip(tm, entry, trimmed, tab.hash, tab.pool, tab.htable, map_[sIdx], map_[tIdx], i, j);
        continue;
      }
      var done, next := TryCover(tm, entry, trimmed, tab, st, tt, k, notCond);
      LessMore(entry, trimmed, next);
      if done { return true, next; }
      SearchStep(tm, entry, trimmed, next, tab.hash, tab.pool, tab.htable, notCond, map_[sIdx], map_[tIdx], i, j);
      trimmed := next;
    }
    redundant := false;
    SearchFacts(tm, entry, trimmed, tab.hash, tab.pool, tab.htable, notCond, map_[sIdx], map_[tIdx], i, |map_[tIdx]|);
  }

  /**
     `entry` is trimmed as the search goes along; its final state is returned. It is redundant
     only if the covers say it all. If it is not, nothing it says is left in a cover: with
     unique keys, the search through supersets misses no rule.
   */
  method IsAvruleRedundant(tm: TypeMaps, entry: Node, tab: Avtab, map_: seq<seq<nat>>, notCond: bool)
    returns (redundant: bool, trimmed: Node)
    requires tm.Valid() && TypeMapOk(tm, map_) && RuleOk(tm, entry)
    requires tab.Valid() && RulesOk(tm, tab.pool)
    ensures Reduced(tm, entry, trimmed, Covers(tm, tab.pool, tab.htable, entry.key, notCond), redundant)
    ensures Less(entry, trimmed)
    ensures !redundant ==> SparedByTable(tm, trimmed, tab.hash, tab.pool, tab.htable, notCond)
    ensures !redundant && UniqueKeys(tab.pool, tab.htable) ==> ApartFromTable(tm, trimmed, tab.pool, tab.htable, notCond, SingleKeys(tab.pool, tab.htable))
    ensures Alone(tm, entry, tab.pool, tab.htable, notCond) ==> !redundant && trimmed == entry
    ensures !Has(entry.key.specified, AV | XPERMS) ==> !redundant && trimmed == entry
  {
    hide *;
    RowsThere(tm, map_, entry);
    var sIdx, tIdx := entry.key.source - 1, entry.key.target - 1;
    ghost var k := SearchStart(tm, entry, tab.hash, tab.pool, tab.htable, notCond, map_[sIdx], map_[tIdx]);
    trimmed := entry;
    if !Has(entry.key.specified, AV | XPERMS) {
      OtherKindApart(tm, entry, tab.hash, tab.pool, tab.htable, notCond, k);
      return false, entry;
    }
    for i := 0 to |map_[sIdx]|
      invariant TrimmedSoFar(tm, entry, trimmed, tab.hash, tab.pool, tab.htable, notCond, map_[sIdx], map_[tIdx], i, 0)
      invariant Alone(tm, entry, tab.pool, tab.htable, notCond) ==> trimmed == entry
    {
      var done, next := TrimByRow(tm, entry, trimmed, tab, map_, notCond, i, k);
      trimmed := next;
      if done { return true, trimmed; }
      SearchRow(tm, entry, trimmed, tab.hash, tab.pool, tab.htable, notCond, map_[sIdx], map_[tIdx], i);
    }
    redundant := false;
    SearchDone(tm, entry, trimmed, tab.hash, tab.pool, tab.htable, notCond, map_);
    if UniqueKeys(tab.pool, tab.htable) {
      LeftOneKind(tm, entry, trimmed, tab);
      SparedApart(tm, trimmed, tab.hash, tab.pool, tab.htable, notCond);
    }
  }

  lemma LeftOneKind(tm: TypeMaps, entry: Node, trimmed: Node, tab: Avtab)
    requires tm.Valid() && RuleOk(tm, entry) && tab.Valid() && Less(entry, trimmed)
    ensures tm.InRange() && OneKind(trimmed.key.specified) && WellChained(tab.hash, tab.pool, tab.htable)
  {
  }

  lemma OtherKindApart(tm: TypeMaps, a: Node, hash: Hash, pool: seq<Node>, htable: seq<seq<nat>>, notCond: bool, k: Kind)
    requires tm.InRange() && OfKind(a.key.specified, k) && !IsAv(k) && !IsX(k)
    ensures forall x :: ApartFromTable(tm, a, pool, htable, notCond, x)
    ensures SparedByTable(tm, a, hash, pool, htable, notCond)
  {
    forall l | OfKind(a.key.specified, l) ensures !IsAv(l) && !IsX(l) { KindUnique(a.key.specified, k, l); }
    hide UniqueKeys, FirstOfKey, OfKind, Linked;
  }

  // ---------------------------------------------------------------- the unconditional table

  ghost predicate SameTable(tm: TypeMaps, poolA: seq<Node>, htA: seq<seq<nat>>, poolB: seq<Node>, htB: seq<seq<nat>>)
    requires tm.InRange()
  {
    forall a :: TableDecides(tm, poolA, htA, a) <==> TableDecides(tm, poolB, htB, a)
  }

  /** Only datums changed, and no rule lost its extended permissions altogether. */
  ghost predicate SameKeys(a: seq<Node>, b: seq<Node>) {
    && |a| == |b|
    && forall p :: 0 <= p < |a| ==> a[p].key == b[p].key && (a[p].datum.xperms.Some? <==> b[p].datum.xperms.Some?)
  }

  lemma SameKeysOk(tm: TypeMaps, a: seq<Node>, b: seq<Node>)
    requires SameKeys(a, b) && RulesOk(tm, a)
    ensures RulesOk(tm, b)
  {
    forall p | 0 <= p < |b| ensures RuleOk(tm, b[p]) {
      assert RuleOk(tm, a[p]);
    }
  }

  lemma ReduceKeepsTable(tm: TypeMaps, pool: seq<Node>, htA: seq<seq<nat>>, htB: seq<seq<nat>>, p: nat, b: Node, redundant: bool)
    requires tm.InRange() && tm.RowsClosed() && Linked(htA, p) && p < |pool|
    requires Reduced(tm, pool[p], b, Covers(tm, pool, htA, pool[p].key, true), redundant)
    requires forall q: nat :: Linked(htB, q) <==> Linked(htA, q) && !(redundant && q == p)
    ensures SameTable(tm, pool, htA, pool[p := b], htB)
  {
    hide Speaks;
    var pool' := pool[p := b];
    forall a ensures TableDecides(tm, pool, htA, a) <==> TableDecides(tm, pool', htB, a) {
      if TableDecides(tm, pool, htA, a) {
        var q: nat :| Linked(htA, q) && q < |pool| && Speaks(tm, pool[q], a);
        if q == p && (redundant || !Speaks(tm, b, a)) {
          assert Covered(tm, pool, htA, pool[p].key, true, a);
          var r: nat :| Linked(htA, r) && r < |pool| && Speaks(tm, pool[r], a) && !SameTriple(pool[r].key, pool[p].key);
          assert pool'[r] == pool[r];
        } else {
          assert Speaks(tm, pool'[q], a);
        }
      }
      if TableDecides(tm, pool', htB, a) {
        var q: nat :| Linked(htB, q) && q < |pool| && Speaks(tm, pool'[q], a);
        assert Speaks(tm, pool[q], a);
      }
    }
  }

  /** Rule `p` survives trimming: it shares no bit with a rule as wide. */
  ghost predicate SettledAt(tm: TypeMaps, pool: seq<Node>, htable: seq<seq<nat>>, p: nat, x: bool)
    requires tm.InRange()
  {
    p < |pool| && ApartFromTable(tm, pool[p], pool, htable, true, x)
  }

  ghost predicate SettledUpTo(tm: TypeMaps, pool: seq<Node>, htable: seq<seq<nat>>, i: nat, j: nat, x: bool)
    requires tm.InRange()
  {
    forall a, b :: 0 <= a < |htable| && 0 <= b < |htable[a]| && (a < i || (a == i && b < j)) ==>
      SettledAt(tm, pool, htable, htable[a][b], x)
  }

  /** No access-vector rule of the table repeats what a rule as wide says; with `x` no extended rule does either. */
  ghost predicate Irredundant(tm: TypeMaps, pool: seq<Node>, htable: seq<seq<nat>>, x: bool)
    requires tm.InRange()
  {
    forall p: nat :: Linked(htable, p) ==> SettledAt(tm, pool, htable, p, x)
  }

  /** Whoever is reached through `i` is reached through `k`: row membership for a type, inclusion for an attribute. */
  ghost predicate ReachesAsFar(tm: TypeMaps, i: nat, k: nat)
    requires tm.InRange()
  {
    && i < |tm.flavor| && k < |tm.flavor|
    && if tm.flavor[i] == Plain then k in tm.typeAttr[i]
       else tm.flavor[i] == Attribute && tm.flavor[k] == Attribute && forall s :: s in tm.attrType[i] ==> s in tm.attrType[k]
  }

  /** Rules of one class, the second of another source or target that reaches as far. */
  ghost predicate Wider(tm: TypeMaps, a: Key, c: Key)
    requires tm.InRange()
  {
    && a.source > 0 && c.source > 0 && ReachesAsFar(tm, a.source - 1, c.source - 1)
    && a.target > 0 && c.target > 0 && ReachesAsFar(tm, a.target - 1, c.target - 1)
    && a.tclass == c.tclass
  }

  /** The first mask is not empty and has no bit of the second. */
  predicate GrantsApart(x: bv32, y: bv32) {
    x != 0 && x & y == 0
  }

  /** The same of masks that say the bits they do not set. */
  predicate DeniesApart(x: bv32, y: bv32) {
    x != 0xFFFF_FFFF && x | y == 0xFFFF_FFFF
  }

  /** Of two allow, auditallow or auditdeny rules the first says something, and nothing the second says. */
  predicate NothingShared(a: Node, c: Node) {
    Specifier(a.key.specified) == Specifier(c.key.specified) ==>
      && (Specifier(a.key.specified) in {1, 2} ==> GrantsApart(a.datum.data, c.datum.data))
      && (Specifier(a.key.specified) == 4 ==> DeniesApart(a.datum.data, c.datum.data))
  }

  /** The same of two extended rules of one kind: one range, or a function list and a driver list. */
  ghost predicate NoListShared(a: Node, c: Node) {
    Specifier(a.key.specified) == Specifier(c.key.specified) && Specifier(a.key.specified) in {0x100, 0x200, 0x400} &&
    a.datum.xperms.Some? && c.datum.xperms.Some? ==>
      ListsApart(a.datum.xperms.value, c.datum.xperms.value)
  }

  ghost predicate ListsApart(x: Xperms, y: Xperms) {
    && (x.specified == y.specified && (x.specified == 2 || (x.specified in [1, 3] && x.driver == y.driver)) ==>
         (exists k :: 0 <= k < 8 && x.perms[k] != 0) && forall k :: 0 <= k < 8 ==> x.perms[k] & y.perms[k] == 0)
    && (x.specified == 1 && y.specified == 2 ==> !PermBit(y.perms, x.driver))
  }

  /** No rule of the table repeats a bit of a wider one; with `x` no extended rule does either. */
  ghost predicate NoneRepeats(tm: TypeMaps, pool: seq<Node>, htable: seq<seq<nat>>, x: bool)
    requires tm.InRange()
  {
    forall p: nat, q: nat :: Linked(htable, p) && Linked(htable, q) && p < |pool| && q < |pool| ==>
      NoneRepeatsAt(tm, pool[p], pool[q], x)
  }

  ghost predicate NoneRepeatsAt(tm: TypeMaps, a: Node, c: Node, x: bool)
    requires tm.InRange()
  {
    Wider(tm, a.key, c.key) && (a.key.source != c.key.source || a.key.target != c.key.target) ==>
      NothingShared(a, c) && (x ==> NoListShared(a, c))
  }

  lemma FarSuperset(tm: TypeMaps, i: nat, k: nat)
    requires tm.InRange()
    ensures ReachesAsFar(tm, i, k) <==> IsSuperset(tm, i, k)
  {
  }

  lemma WiderAsWide(tm: TypeMaps, a: Key, c: Key)
    requires tm.InRange()
    ensures AsWide(tm, a, c) <==> Wider(tm, a, c) && Overlaps(a.specified, c.specified)
  {
    hide IsSuperset, ReachesAsFar, Overlaps;
    if a.source > 0 && c.source > 0 { FarSuperset(tm, a.source - 1, c.source - 1); }
    if a.target > 0 && c.target > 0 { FarSuperset(tm, a.target - 1, c.target - 1); }
  }

  lemma LeftOverIs(k: Kind, a: Node, c: Node)
    ensures LeftOver(k, a, c) <==> Effect(k, a.datum.data) != 0 && !Meets(Effect(k, a.datum.data), Effect(k, c.datum.data))
    ensures k != AuditDeny ==> Effect(k, a.datum.data) == a.datum.data && Effect(k, c.datum.data) == c.datum.data
    ensures Effect(AuditDeny, a.datum.data) == Invert(a.datum.data) && Effect(AuditDeny, c.datum.data) == Invert(c.datum.data)
  {
    hide Meets, Invert;
  }

  lemma GrantWords(x: bv32, y: bv32)
    ensures GrantsApart(x, y) <==> x != 0 && !Meets(x, y)
  {
  }

  lemma InvertUnion(x: bv32, y: bv32)
    ensures Invert(Union(x, y)) == Intersection(Invert(x), Invert(y))
  {
    calc {
      Invert(Union(x, y));
      !(x | y);
      !x & !y;
      Intersection(Invert(x), Invert(y));
    }
  }

  lemma DeniesIs(x: bv32, y: bv32)
    ensures DeniesApart(x, y) <==> x != 0xFFFF_FFFF && Union(x, y) == 0xFFFF_FFFF
  {
  }

  lemma DenyWords(x: bv32, y: bv32)
    ensures DeniesApart(x, y) <==> Invert(x) != 0 && !Meets(Invert(x), Invert(y))
  {
    hide *;
    DeniesIs(x, y);
    InvertFull(x);
    InvertFull(Union(x, y));
    InvertUnion(x, y);
    MeetsIntersection(Invert(x), Invert(y));
  }

  lemma XLeftWords(a: Xperms, c: Xperms)
    requires XLeft(a, c)
    ensures ListsApart(a, c)
  {
    hide PermBit;
    if SameRange(a, c) {
      forall k: nat | k < 8 ensures a.perms[k] & c.perms[k] == 0 { DisjointWord(a, c, k); }
    }
  }

  lemma DisjointWord(a: Xperms, c: Xperms, k: nat)
    requires k < 8 && forall i: nat :: i < 256 && PermBit(a.perms, i) ==> !PermBit(c.perms, i)
    ensures a.perms[k] & c.perms[k] == 0
  {
    hide Single, PermBit;
    if Meets(a.perms[k], c.perms[k]) {
      SharedBit(a.perms[k], c.perms[k]);
      var bit: nat :| BitSet(a.perms[k], bit) && BitSet(c.perms[k], bit);
      var i := 32 * k + bit;
      assert i / 32 == k && i % 32 == bit;
      PermBitIs(a.perms, i);
      PermBitIs(c.perms, i);
    }
  }

  lemma KindShared(a: Node, c: Node)
    requires Specifier(a.key.specified) in {1, 2} ==> LeftOver(if Specifier(a.key.specified) == 1 then Allow else AuditAllow, a, c)
    requires Specifier(a.key.specified) == 4 ==> LeftOver(AuditDeny, a, c)
    ensures NothingShared(a, c)
  {
    hide LeftOver, Meets, Effect, Invert, Specifier, GrantsApart, DeniesApart;
    LeftOverIs(Allow, a, c);
    LeftOverIs(AuditAllow, a, c);
    LeftOverIs(AuditDeny, a, c);
    GrantWords(a.datum.data, c.datum.data);
    DenyWords(a.datum.data, c.datum.data);
  }

  lemma SameSpecifier(x: bv16, y: bv16, k: Kind)
    requires Specifier(x) == Specifier(y) && OfKind(x, k)
    ensures Overlaps(x, y)
  {
  }

  /** Rules that are apart share nothing. */
  lemma ApartSharesNothing(tm: TypeMaps, a: Node, c: Node, x: bool)
    requires tm.InRange() && Wider(tm, a.key, c.key) && ApartBoth(tm, a, c, x)
    ensures NothingShared(a, c) && (x ==> NoListShared(a, c))
  {
    WiderAsWide(tm, a.key, c.key);
    SpecifierKinds(a.key.specified);
    hide Wider, AsWide, LeftOver, XLeft, OfKind, Overlaps, Specifier, GrantsApart, DeniesApart, ListsApart;
    if Specifier(a.key.specified) == Specifier(c.key.specified) {
      forall k | OfKind(a.key.specified, k) ensures AsWide(tm, a.key, c.key) { SameSpecifier(a.key.specified, c.key.specified, k); }
      KindShared(a, c);
      if x && a.datum.xperms.Some? && c.datum.xperms.Some? && XLeft(a.datum.xperms.value, c.datum.xperms.value) {
        XLeftWords(a.datum.xperms.value, c.datum.xperms.value);
      }
    }
  }

  /** What is left after the pass, said of the words of the rules. */
  lemma {:induction false} IrredundantRepeatsNothing(tm: TypeMaps, pool: seq<Node>, htable: seq<seq<nat>>, x: bool)
    requires tm.InRange() && Irredundant(tm, pool, htable, x)
    ensures NoneRepeats(tm, pool, htable, x)
  {
    hide ApartBoth, Wider, NothingShared, NoListShared, Linked;
    forall p: nat, q: nat | Linked(htable, p) && Linked(htable, q) && p < |pool| && q < |pool|
      ensures NoneRepeatsAt(tm, pool[p], pool[q], x)
    {
      var a, c := pool[p], pool[q];
      if Wider(tm, a.key, c.key) && (a.key.source != c.key.source || a.key.target != c.key.target) {
        assert SettledAt(tm, pool, htable, p, x);
        assert LookedUp(a, pool, htable, true, q);
        ApartSharesNothing(tm, a, c, x);
      }
    }
  }

  lemma SettledStays(tm: TypeMaps, pool: seq<Node>, htA: seq<seq<nat>>, htB: seq<seq<nat>>, p: nat, b: Node, y: nat, x: bool)
    requires tm.InRange() && RulesOk(tm, pool) && p < |pool| && Less(pool[p], b) && y != p
    requires SettledAt(tm, pool, htA, y, x) && forall q: nat :: Linked(htB, q) ==> Linked(htA, q)
    ensures SettledAt(tm, pool[p := b], htB, y, x)
  {
    hide Less, ApartBoth, Linked, OneKind;
    var pool' := pool[p := b];
    forall q: nat | LookedUp(pool'[y], pool', htB, true, q) ensures ApartBoth(tm, pool'[y], pool'[q], x) {
      LessKey(pool[p], b);
      assert LookedUp(pool[y], pool, htA, true, q);
      if q == p {
        assert RuleOk(tm, pool[p]);
        BothFromLess(tm, pool[y], pool[p], b, x);
      }
    }
  }

  lemma LessKey(a: Node, b: Node)
    requires Less(a, b)
    ensures b.key == a.key
  {
  }

  lemma SettledItself(tm: TypeMaps, pool: seq<Node>, htA: seq<seq<nat>>, htB: seq<seq<nat>>, p: nat, b: Node, x: bool)
    requires tm.InRange() && p < |pool| && b.key == pool[p].key
    requires ApartFromTable(tm, b, pool, htA, true, x) && forall q: nat :: Linked(htB, q) ==> Linked(htA, q)
    ensures SettledAt(tm, pool[p := b], htB, p, x)
  {
    hide ApartBoth, Linked;
    var pool' := pool[p := b];
    forall q: nat | LookedUp(b, pool', htB, true, q) ensures ApartBoth(tm, b, pool'[q], x) {
      assert q != p;
      assert LookedUp(b, pool, htA, true, q);
    }
  }

  /** In a table a pointer stands at one place only. */
  lemma PlaceUnique(hash: Hash, pool: seq<Node>, htable: seq<seq<nat>>, i: nat, j: nat, a: nat, b: nat)
    requires WellChained(hash, pool, htable)
    requires i < |htable| && j < |htable[i]| && a < |htable| && b < |htable[a]| && htable[a][b] == htable[i][j]
    ensures a == i && b == j
  {
    hide Sorted;
    SlotUnique(hash, pool, htable, htable[i][j], i, a);
    assert ChainOk(hash, |htable|, pool, i, htable[i]);
  }

  lemma SettledStep(tm: TypeMaps, hash: Hash, pool: seq<Node>, htA: seq<seq<nat>>, htB: seq<seq<nat>>,
                    i: nat, j: nat, b: Node, redundant: bool, single: bool)
    requires tm.InRange() && RulesOk(tm, pool) && WellChained(hash, pool, htA)
    requires i < |htA| && j < |htA[i]| && htA[i][j] < |pool| && Less(pool[htA[i][j]], b)
    requires SettledUpTo(tm, pool, htA, i, j, single)
    requires htB == if redundant then htA[i := RemoveAt(htA[i], j)] else htA
    requires forall q: nat :: Linked(htB, q) ==> Linked(htA, q)
    requires !redundant ==> ApartFromTable(tm, b, pool, htA, true, single)
    ensures SettledUpTo(tm, pool[htA[i][j] := b], htB, i, if redundant then j else j + 1, single)
  {
    hide Less, Linked, WellChained, RulesOk, SettledAt, ApartFromTable;
    var p, n := htA[i][j], if redundant then j else j + 1;
    LessKey(pool[p], b);
    forall x, y | 0 <= x < |htB| && 0 <= y < |htB[x]| && (x < i || (x == i && y < n))
      ensures SettledAt(tm, pool[p := b], htB, htB[x][y], single)
    {
      assert htB[x][y] == htA[x][y];
      if x == i && y == j {
        SettledItself(tm, pool, htA, htB, p, b, single);
      } else {
        if htA[x][y] == p { PlaceUnique(hash, pool, htA, i, j, x, y); }
        SettledStays(tm, pool, htA, htB, p, b, htA[x][y], single);
      }
    }
  }

  lemma SettledRow(tm: TypeMaps, pool: seq<Node>, htable: seq<seq<nat>>, i: nat, single: bool)
    requires tm.InRange() && i < |htable| && SettledUpTo(tm, pool, htable, i, |htable[i]|, single)
    ensures SettledUpTo(tm, pool, htable, i + 1, 0, single)
  {
    hide SettledAt;
  }

  lemma SettledAll(tm: TypeMaps, pool: seq<Node>, htable: seq<seq<nat>>, single: bool)
    requires tm.InRange() && SettledUpTo(tm, pool, htable, |htable|, 0, single)
    ensures Irredundant(tm, pool, htable, single)
  {
    hide SettledAt;
    forall p: nat | Linked(htable, p) ensures SettledAt(tm, pool, htable, p, single) {
      var a :| 0 <= a < |htable| && p in htable[a];
      var b :| 0 <= b < |htable[a]| && htable[a][b] == p;
    }
  }

  // ---------------------------------------------------------------- the first rule

  /** All bits of access-vector rule `p` are said by one other rule as wide. */
  ghost predicate SaidByAnother(tm: TypeMaps, pool: seq<Node>, htable: seq<seq<nat>>, p: nat)
    requires tm.InRange()
  {
    p < |pool| && exists q: nat, k: Kind :: LookedUp(pool[p], pool, htable, true, q) && SaidBy(tm, pool[p], pool[q], k)
  }

  ghost predicate SaidBy(tm: TypeMaps, a: Node, c: Node, k: Kind)
    requires tm.InRange()
  {
    && AsWide(tm, a.key, c.key) && IsAv(k) && OfKind(a.key.specified, k)
    && forall m :: Meets(Effect(k, a.datum.data), m) ==> Meets(Effect(k, c.datum.data), m)
  }

  lemma CoveredIsRedundant(tm: TypeMaps, pool: seq<Node>, htable: seq<seq<nat>>, p: nat, b: Node)
    requires tm.InRange() && SaidByAnother(tm, pool, htable, p) && Less(pool[p], b)
    ensures forall x :: !ApartFromTable(tm, b, pool, htable, true, x)
  {
    LessKey(pool[p], b);
    hide Meets, Effect, OfKind, AsWide, Linked;
    var q: nat, k: Kind :| LookedUp(pool[p], pool, htable, true, q) && SaidBy(tm, pool[p], pool[q], k);
    assert LookedUp(b, pool, htable, true, q);
    var left := LeftOver(k, b, pool[q]);
    var e := Effect(k, b.datum.data);
    NonzeroMeetsItself(e);
    MeetsSymmetric(e, Effect(k, pool[q].datum.data));
  }

  /** The first rule of the first slot is judged against the untouched table. */
  ghost predicate FirstGoes(tm: TypeMaps, pool: seq<Node>, before: seq<seq<nat>>, now: seq<seq<nat>>)
    requires tm.InRange()
  {
    UniqueKeys(pool, before) && |before| > 0 && before[0] != [] && SaidByAnother(tm, pool, before, before[0][0]) ==>
      !Linked(now, before[0][0])
  }

  lemma StaysGone(tm: TypeMaps, pool: seq<Node>, before: seq<seq<nat>>, poolA: seq<Node>, htA: seq<seq<nat>>, poolB: seq<Node>, htB: seq<seq<nat>>)
    requires tm.InRange() && FirstGoes(tm, pool, before, htA) && TableKept(tm, poolA, htA, poolB, htB)
    ensures FirstGoes(tm, pool, before, htB)
  {
    hide Linked, SaidByAnother, UniqueKeys, SameTable, OthersKept;
  }

  lemma FirstGone(tm: TypeMaps, pool: seq<Node>, before: seq<seq<nat>>, now: seq<seq<nat>>, removed: bool)
    requires tm.InRange() && |before| > 0 && |before[0]| > 0
    requires UniqueKeys(pool, before) && SaidByAnother(tm, pool, before, before[0][0]) ==> removed
    requires removed ==> !Linked(now, before[0][0])
    ensures FirstGoes(tm, pool, before, now)
  {
    hide Linked, SaidByAnother, UniqueKeys;
  }

  lemma NoFirst(tm: TypeMaps, pool: seq<Node>, before: seq<seq<nat>>, now: seq<seq<nat>>)
    requires tm.InRange()
    ensures |before| == 0 || before[0] == [] ==> FirstGoes(tm, pool, before, now)
  {
  }

  /** Type rules are left alone. */
  ghost predicate OthersKept(poolA: seq<Node>, htA: seq<seq<nat>>, poolB: seq<Node>, htB: seq<seq<nat>>) {
    forall p: nat :: Linked(htA, p) && p < |poolA| && !Has(poolA[p].key.specified, AV | XPERMS) ==>
      Linked(htB, p) && p < |poolB| && poolB[p] == poolA[p]
  }

  /** A rule that no other rule is as wide as is left alone. */
  ghost predicate AloneKept(tm: TypeMaps, poolA: seq<Node>, htA: seq<seq<nat>>, poolB: seq<Node>, htB: seq<seq<nat>>)
    requires tm.InRange()
  {
    forall p: nat :: Linked(htA, p) && p < |poolA| && Alone(tm, poolA[p], poolA, htA, true) ==>
      Linked(htB, p) && p < |poolB| && poolB[p] == poolA[p]
  }

  /** What optimising a table keeps; the decisions, if the rows of the type map are closed. */
  ghost predicate TableKept(tm: TypeMaps, poolA: seq<Node>, htA: seq<seq<nat>>, poolB: seq<Node>, htB: seq<seq<nat>>)
    requires tm.InRange()
  {
    && SameKeys(poolA, poolB)
    && (forall p: nat :: Linked(htB, p) ==> Linked(htA, p))
    && (tm.RowsClosed() ==> SameTable(tm, poolA, htA, poolB, htB))
    && OthersKept(poolA, htA, poolB, htB)
    && AloneKept(tm, poolA, htA, poolB, htB)
  }

  lemma KeptSame(tm: TypeMaps, pool: seq<Node>, htable: seq<seq<nat>>)
    requires tm.InRange() && forall p: nat :: Linked(htable, p) ==> p < |pool|
    ensures TableKept(tm, pool, htable, pool, htable)
  {
  }

  lemma KeptMore(tm: TypeMaps, poolA: seq<Node>, htA: seq<seq<nat>>, poolB: seq<Node>, htB: seq<seq<nat>>,
                 poolC: seq<Node>, htC: seq<seq<nat>>)
    requires tm.InRange() && TableKept(tm, poolA, htA, poolB, htB) && TableKept(tm, poolB, htB, poolC, htC)
    ensures TableKept(tm, poolA, htA, poolC, htC)
  {
    hide Linked, TableDecides, Has, AloneKept;
    AloneMore(tm, poolA, htA, poolB, htB, poolC, htC);
  }

  lemma AloneMore(tm: TypeMaps, poolA: seq<Node>, htA: seq<seq<nat>>, poolB: seq<Node>, htB: seq<seq<nat>>,
                  poolC: seq<Node>, htC: seq<seq<nat>>)
    requires tm.InRange() && SameKeys(poolA, poolB) && (forall p: nat :: Linked(htB, p) ==> Linked(htA, p))
    requires AloneKept(tm, poolA, htA, poolB, htB) && AloneKept(tm, poolB, htB, poolC, htC)
    ensures AloneKept(tm, poolA, htA, poolC, htC)
  {
    hide Linked, AsWide;
    forall p: nat | Linked(htA, p) && p < |poolA| && Alone(tm, poolA[p], poolA, htA, true)
      ensures Alone(tm, poolB[p], poolB, htB, true)
    {
      forall q: nat | LookedUp(poolB[p], poolB, htB, true, q) ensures !AsWide(tm, poolB[p].key, poolB[q].key) {
        assert LookedUp(poolA[p], poolA, htA, true, q);
      }
    }
  }

  lemma KeptUnique(tm: TypeMaps, poolA: seq<Node>, htA: seq<seq<nat>>, poolB: seq<Node>, htB: seq<seq<nat>>)
    requires tm.InRange() && TableKept(tm, poolA, htA, poolB, htB) && UniqueKeys(poolA, htA)
    ensures UniqueKeys(poolB, htB)
  {
    hide Linked, Matches, Has;
  }

  lemma KeptSingle(tm: TypeMaps, poolA: seq<Node>, htA: seq<seq<nat>>, poolB: seq<Node>, htB: seq<seq<nat>>)
    requires tm.InRange() && TableKept(tm, poolA, htA, poolB, htB) && SingleKeys(poolA, htA)
    ensures SingleKeys(poolB, htB)
  {
    hide Linked, Matches, Has;
  }

  /** What the pass ensures of the table it is given and the one it leaves. */
  ghost predicate PassOutcome(tm: TypeMaps, poolA: seq<Node>, htA: seq<seq<nat>>, poolB: seq<Node>, htB: seq<seq<nat>>)
    requires tm.InRange()
  {
    && TableKept(tm, poolA, htA, poolB, htB) && FirstGoes(tm, poolA, htA, htB)
    && (UniqueKeys(poolA, htA) ==> Irredundant(tm, poolB, htB, SingleKeys(poolA, htA)))
  }

  /**
     The pass over the unconditional table. No decision changes, type rules stay as they are,
     and, with unique keys, no surviving rule repeats what another one as wide says.
   */
  method OptimizeAvtab(tm: TypeMaps, tab: Avtab, map_: seq<seq<nat>>)
    requires tm.Valid() && TypeMapOk(tm, map_)
    requires tab.Valid() && RulesOk(tm, tab.pool)
    modifies tab
    ensures tab.Valid() && RulesOk(tm, tab.pool)
    ensures PassOutcome(tm, old(tab.pool), old(tab.htable), tab.pool, tab.htable)
    ensures UniqueKeys(old(tab.pool), old(tab.htable)) ==>
      NoneRepeats(tm, tab.pool, tab.htable, SingleKeys(old(tab.pool), old(tab.htable)))
  {
    hide *;
    OptimizeStart(tm, tab);
    ghost var single := SingleKeys(tab.pool, tab.htable);
    for i := 0 to |tab.htable|
      invariant |tab.htable| == |old(tab.htable)|
      invariant tab.Valid() && RulesOk(tm, tab.pool) && (single ==> SingleKeys(tab.pool, tab.htable))
      invariant TableKept(tm, old(tab.pool), old(tab.htable), tab.pool, tab.htable)
      invariant UniqueKeys(old(tab.pool), old(tab.htable)) ==>
        UniqueKeys(tab.pool, tab.htable) && SettledUpTo(tm, tab.pool, tab.htable, i, 0, single)
      invariant if i == 0 then tab.pool == old(tab.pool) && tab.htable == old(tab.htable)
                else FirstGoes(tm, old(tab.pool), old(tab.htable), tab.htable)
    {
      var j := 0;
      while j < |tab.htable[i]|
        invariant |tab.htable| == |old(tab.htable)| && j <= |tab.htable[i]|
        invariant tab.Valid() && RulesOk(tm, tab.pool) && (single ==> SingleKeys(tab.pool, tab.htable))
        invariant TableKept(tm, old(tab.pool), old(tab.htable), tab.pool, tab.htable)
        invariant UniqueKeys(old(tab.pool), old(tab.htable)) ==>
          UniqueKeys(tab.pool, tab.htable) && SettledUpTo(tm, tab.pool, tab.htable, i, j, single)
        invariant FirstGoes(tm, old(tab.pool), old(tab.htable), tab.htable) ||
          (i == 0 && j == 0 && tab.pool == old(tab.pool) && tab.htable == old(tab.htable))
        decreases |tab.htable[i]| - j
      {
        ghost var pool, htable := tab.pool, tab.htable;
        var removed := OptimizeRule(tm, tab, map_, i, j, single);
        if FirstGoes(tm, old(tab.pool), old(tab.htable), htable) {
          StaysGone(tm, old(tab.pool), old(tab.htable), pool, htable, tab.pool, tab.htable);
        } else {
          FirstGone(tm, pool, htable, tab.htable, removed);
        }
        KeptMore(tm, old(tab.pool), old(tab.htable), pool, htable, tab.pool, tab.htable);
        if single { KeptSingle(tm, pool, htable, tab.pool, tab.htable); }
        if UniqueKeys(pool, htable) { KeptUnique(tm, pool, htable, tab.pool, tab.htable); }
        if !removed { j := j + 1; }
      }
      if UniqueKeys(old(tab.pool), old(tab.htable)) { SettledRow(tm, tab.pool, tab.htable, i, single); }
      NoFirst(tm, old(tab.pool), old(tab.htable), tab.htable);
    }
    NoFirst(tm, old(tab.pool), old(tab.htable), tab.htable);
    if UniqueKeys(old(tab.pool), old(tab.htable)) {
      SettledAll(tm, tab.pool, tab.htable, single);
      IrredundantRepeatsNothing(tm, tab.pool, tab.htable, single);
    }
    OutcomeIs(tm, old(tab.pool), old(tab.htable), tab.pool, tab.htable);
  }

  lemma OutcomeIs(tm: TypeMaps, poolA: seq<Node>, htA: seq<seq<nat>>, poolB: seq<Node>, htB: seq<seq<nat>>)
    requires tm.InRange()
    ensures PassOutcome(tm, poolA, htA, poolB, htB) <==>
      && TableKept(tm, poolA, htA, poolB, htB) && FirstGoes(tm, poolA, htA, htB)
      && (UniqueKeys(poolA, htA) ==> Irredundant(tm, poolB, htB, SingleKeys(poolA, htA)))
  {
  }

  lemma OptimizeStart(tm: TypeMaps, tab: Avtab)
    requires tm.Valid() && tab.Valid()
    ensures tm.InRange() && TableKept(tm, tab.pool, tab.htable, tab.pool, tab.htable)
    ensures forall single :: SettledUpTo(tm, tab.pool, tab.htable, 0, 0, single)
  {
    forall p: nat | Linked(tab.htable, p) ensures p < |tab.pool| {
      LinkedSlot(tab.hash, tab.pool, tab.htable, p);
    }
    hide RulesOk, Linked;
    KeptSame(tm, tab.pool, tab.htable);
  }

  /** One turn of the loop: trims the rule under the cursor and unlinks it when redundant. */
  method OptimizeRule(tm: TypeMaps, tab: Avtab, map_: seq<seq<nat>>, i: nat, j: nat, ghost single: bool) returns (removed: bool)
    requires tm.Valid() && TypeMapOk(tm, map_)
    requires tab.Valid() && RulesOk(tm, tab.pool)
    requires i < |tab.htable| && j < |tab.htable[i]| && (single ==> SingleKeys(tab.pool, tab.htable))
    modifies tab
    ensures tab.Valid() && RulesOk(tm, tab.pool)
    ensures TableKept(tm, old(tab.pool), old(tab.htable), tab.pool, tab.htable)
    ensures |tab.htable| == |old(tab.htable)|
    ensures |tab.htable[i]| == |old(tab.htable[i])| - (if removed then 1 else 0)
    ensures UniqueKeys(old(tab.pool), old(tab.htable)) && SettledUpTo(tm, old(tab.pool), old(tab.htable), i, j, single) ==>
      SettledUpTo(tm, tab.pool, tab.htable, i, if removed then j else j + 1, single)
    ensures UniqueKeys(old(tab.pool), old(tab.htable)) && SaidByAnother(tm, old(tab.pool), old(tab.htable), old(tab.htable)[i][j]) ==> removed
    ensures removed ==> !Linked(tab.htable, old(tab.htable)[i][j])
  {
    hide *;
    ghost var pool, htable := tab.pool, tab.htable;
    var p := tab.htable[i][j];
    UnderCursor(tm, tab, i, j);
    var redundant, trimmed := IsAvruleRedundant(tm, tab.pool[p], tab, map_, true);
    LessKey(pool[p], trimmed);
    tab.SetDatum(p, trimmed.datum);
    assert tab.pool == pool[p := trimmed];
    if redundant {
      tab.Unlink(i, j);
    }
    TrimKept(tm, pool, htable, tab.htable, p, trimmed, redundant);
    if UniqueKeys(pool, htable) && SettledUpTo(tm, pool, htable, i, j, single) {
      if !redundant { ApartFewer(tm, trimmed, pool, htable, SingleKeys(pool, htable), single); }
      SettledStep(tm, tab.hash, pool, htable, tab.htable, i, j, trimmed, redundant, single);
    }
    removed := redundant;
    RemovedOne(htable[i], j);
    if !redundant && UniqueKeys(pool, htable) && SaidByAnother(tm, pool, htable, p) {
      CoveredIsRedundant(tm, pool, htable, p, trimmed);
    }
  }

  lemma ApartFewer(tm: TypeMaps, a: Node, pool: seq<Node>, htable: seq<seq<nat>>, x: bool, y: bool)
    requires tm.InRange() && ApartFromTable(tm, a, pool, htable, true, x) && (y ==> x)
    ensures ApartFromTable(tm, a, pool, htable, true, y)
  {
    hide Apart, XApart, LookedUp;
  }

  lemma RemovedOne(list: seq<nat>, j: nat)
    requires j < |list|
    ensures |RemoveAt(list, j)| == |list| - 1
  {
  }

  lemma UnderCursor(tm: TypeMaps, tab: Avtab, i: nat, j: nat)
    requires tm.Valid() && tab.Valid() && RulesOk(tm, tab.pool) && i < |tab.htable| && j < |tab.htable[i]|
    ensures Linked(tab.htable, tab.htable[i][j]) && tab.htable[i][j] < |tab.pool|
    ensures tm.InRange() && RuleOk(tm, tab.pool[tab.htable[i][j]]) && WellChained(tab.hash, tab.pool, tab.htable)
  {
    hide RuleOk;
    assert tab.htable[i][j] in tab.htable[i];
    LinkedSlot(tab.hash, tab.pool, tab.htable, tab.htable[i][j]);
  }

  lemma TrimKept(tm: TypeMaps, pool: seq<Node>, htA: seq<seq<nat>>, htB: seq<seq<nat>>, p: nat, b: Node, redundant: bool)
    requires tm.InRange() && RulesOk(tm, pool) && Linked(htA, p) && p < |pool|
    requires Reduced(tm, pool[p], b, Covers(tm, pool, htA, pool[p].key, true), redundant)
    requires !Has(pool[p].key.specified, AV | XPERMS) ==> !redundant && b == pool[p]
    requires Alone(tm, pool[p], pool, htA, true) ==> !redundant && b == pool[p]
    requires forall q: nat :: Linked(htB, q) <==> Linked(htA, q) && !(redundant && q == p)
    ensures TableKept(tm, pool, htA, pool[p := b], htB) && RulesOk(tm, pool[p := b])
  {
    KeptKey(tm, pool[p], b, Covers(tm, pool, htA, pool[p].key, true), redundant);
    if tm.RowsClosed() { ReduceKeepsTable(tm, pool, htA, htB, p, b, redundant); }
    assert b.datum.xperms.Some? <==> pool[p].datum.xperms.Some?;
    hide Reduced, TableDecides, Linked, Has, OneKind;
    SameKeysOk(tm, pool, pool[p := b]);
  }

  // ---------------------------------------------------------------- rows that are not closed

  /** An allow rule with one permission. */
  function AllowRule(source: nat, target: nat): Node {
    Node(Key(source, target, 1, ALLOWED), Datum(1, None))
  }

  lemma AllowFits(tm: TypeMaps, source: nat, target: nat)
    requires 0 < source <= tm.Nprim() && tm.flavor[source - 1] != Gap && 0 < target <= tm.Nprim() && tm.flavor[target - 1] != Gap
    ensures RuleOk(tm, AllowRule(source, target)) && NewNode(AllowRule(source, target).key, AllowRule(source, target).datum) == AllowRule(source, target)
  {
    assert OfKind(ALLOWED, Allow) && !Has(ALLOWED, XPERMS) && !IsXperms(ALLOWED);
  }

  /** Row `s` holds the plain type `i` but not `k`, which row `i` holds. */
  ghost predicate OpenAt(tm: TypeMaps, s: nat, i: nat, k: nat)
    requires tm.InRange()
  {
    && tm.Concrete(s) && tm.Concrete(i) && i in tm.typeAttr[s]
    && k < tm.Nprim() && k in tm.typeAttr[i] && tm.flavor[k] != Gap && k !in tm.typeAttr[s]
  }

  lemma OpenSomewhere(tm: TypeMaps)
    requires tm.Valid()
    ensures tm.RowsClosed() <==> forall s: nat, i: nat, k: nat :: !OpenAt(tm, s, i, k)
  {
    if !tm.RowsClosed() {
      var s: nat, i: nat, k: nat :| tm.Concrete(s) && tm.Concrete(i) && i in tm.typeAttr[s] && k in tm.typeAttr[i] && tm.flavor[k] != Gap && k !in tm.typeAttr[s];
      assert OpenAt(tm, s, i, k);
    }
  }

  /** The same permission on type `s`, for the plain type `i` and for `k`. */
  ghost predicate NarrowAndWide(pool: seq<Node>, htable: seq<seq<nat>>, s: nat, i: nat, k: nat) {
    pool == [AllowRule(i + 1, s + 1), AllowRule(k + 1, s + 1)] && forall p: nat :: Linked(htable, p) <==> p < 2
  }

  /**
     The narrow rule is judged while the wide one says all it says: it comes first, or the wide
     rule cannot go, since `k` is an attribute or a type whose row does not hold `i`.
   */
  ghost predicate NarrowJudged(tm: TypeMaps, htable: seq<seq<nat>>, i: nat, k: nat)
    requires tm.InRange()
  {
    (|htable| > 0 && htable[0] != [] && htable[0][0] == 0) || !IsSuperset(tm, k, i)
  }

  /** The access of `s` to itself. */
  function ToItself(s: nat): Access {
    Access(s, s, 1, Bits(Allow, 1))
  }

  lemma NarrowIsSaid(tm: TypeMaps, pool: seq<Node>, htable: seq<seq<nat>>, s: nat, i: nat, k: nat)
    requires tm.Valid() && OpenAt(tm, s, i, k) && NarrowAndWide(pool, htable, s, i, k)
    ensures UniqueKeys(pool, htable) && SaidByAnother(tm, pool, htable, 0)
  {
    assert OfKind(ALLOWED, Allow) && Overlaps(ALLOWED, ALLOWED);
    hide Meets, Has, OfKind, Overlaps, Linked;
    assert SaidBy(tm, pool[0], pool[1], Allow);
    assert LookedUp(pool[0], pool, htable, true, 1);
  }

  lemma WideAlone(tm: TypeMaps, pool: seq<Node>, htable: seq<seq<nat>>, s: nat, i: nat, k: nat)
    requires tm.Valid() && NarrowAndWide(pool, htable, s, i, k) && !IsSuperset(tm, k, i)
    ensures Linked(htable, 1) && Alone(tm, pool[1], pool, htable, true)
  {
    hide Linked, IsSuperset, Overlaps;
  }

  /** Beside an untouched wide rule the narrow one grants nothing any more. */
  lemma NarrowEmptied(tm: TypeMaps, narrow: Node, wide: Node, s: nat, i: nat, k: nat)
    requires tm.Valid() && OpenAt(tm, s, i, k) && Apart(tm, narrow, wide)
    requires narrow.key == AllowRule(i + 1, s + 1).key && wide == AllowRule(k + 1, s + 1)
    ensures !Speaks(tm, narrow, ToItself(s))
  {
    assert OfKind(ALLOWED, Allow) && Overlaps(ALLOWED, ALLOWED);
    hide Meets, OfKind, Overlaps;
    assert AsWide(tm, narrow.key, wide.key);
    assert LeftOver(Allow, narrow, wide);
  }

  lemma WideSilent(tm: TypeMaps, wide: Node, s: nat, i: nat, k: nat)
    requires tm.Valid() && OpenAt(tm, s, i, k) && wide.key == AllowRule(k + 1, s + 1).key
    ensures !Speaks(tm, wide, ToItself(s))
  {
    hide Answers;
  }

  lemma NarrowSpeaks(tm: TypeMaps, s: nat, i: nat, k: nat)
    requires tm.Valid() && OpenAt(tm, s, i, k)
    ensures Speaks(tm, AllowRule(i + 1, s + 1), ToItself(s))
  {
    assert OfKind(ALLOWED, Allow) && Meets(1, 1);
    hide OfKind, Meets;
  }

  /** What is left of the two rules after the pass. */
  lemma PassLeaves(tm: TypeMaps, pool: seq<Node>, htable: seq<seq<nat>>, poolB: seq<Node>, htB: seq<seq<nat>>, s: nat, i: nat, k: nat)
    requires tm.Valid() && OpenAt(tm, s, i, k) && NarrowAndWide(pool, htable, s, i, k) && NarrowJudged(tm, htable, i, k)
    requires PassOutcome(tm, pool, htable, poolB, htB)
    ensures |poolB| == 2 && poolB[0].key == pool[0].key && poolB[1].key == pool[1].key && forall p: nat :: Linked(htB, p) ==> p < 2
    ensures Linked(htB, 0) ==> poolB[1] == pool[1] && Apart(tm, poolB[0], poolB[1])
  {
    NarrowIsSaid(tm, pool, htable, s, i, k);
    hide SaidByAnother, UniqueKeys, SameTable, OthersKept, Linked, IsSuperset, Alone, Apart;
    if Linked(htB, 0) {
      WideAlone(tm, pool, htable, s, i, k);
      assert LookedUp(poolB[0], poolB, htB, true, 1);
      assert SettledAt(tm, poolB, htB, 0, SingleKeys(pool, htable));
    }
  }

  /**
     Where the rows are open, every outcome of the pass over these two rules takes a decision
     away: `s` loses what the rule on `i` gave it. So closed rows are what the pass needs.
   */
  lemma OpenRowsLose(tm: TypeMaps, pool: seq<Node>, htable: seq<seq<nat>>, poolB: seq<Node>, htB: seq<seq<nat>>, s: nat, i: nat, k: nat)
    requires tm.Valid() && OpenAt(tm, s, i, k) && NarrowAndWide(pool, htable, s, i, k) && NarrowJudged(tm, htable, i, k)
    requires PassOutcome(tm, pool, htable, poolB, htB)
    ensures TableDecides(tm, pool, htable, ToItself(s)) && !TableDecides(tm, poolB, htB, ToItself(s))
  {
    PassLeaves(tm, pool, htable, poolB, htB, s, i, k);
    hide PassOutcome, Linked, IsSuperset, Speaks, Apart, OpenAt, ToItself, NarrowJudged;
    NarrowSpeaks(tm, s, i, k);
    assert Linked(htable, 0);
    WideSilent(tm, poolB[1], s, i, k);
    if Linked(htB, 0) { NarrowEmptied(tm, poolB[0], poolB[1], s, i, k); }
  }

  /** A hash that puts the rules on type `i` in the first slot and all others in the second. */
  function NarrowHash(i: nat): Hash {
    (source: nat, target: nat, tclass: nat) => if source == i + 1 then 0 else 1
  }

  /** A table of the two rules under any hash. */
  method NarrowTable(tm: TypeMaps, hash: Hash, s: nat, i: nat, k: nat) returns (tab: Avtab)
    requires tm.Valid() && OpenAt(tm, s, i, k)
    ensures fresh(tab) && tab.Valid() && tab.hash == hash && RulesOk(tm, tab.pool) && NarrowAndWide(tab.pool, tab.htable, s, i, k)
    ensures hash == NarrowHash(i) ==> NarrowJudged(tm, tab.htable, i, k)
  {
    hide *;
    OpenFits(tm, s, i, k);
    var narrow, wide := AllowRule(i + 1, s + 1), AllowRule(k + 1, s + 1);
    tab := new Avtab(hash);
    tab.Alloc(2);
    FourSlots(|tab.htable|);
    ghost var empty := tab.htable;
    var p := tab.InsertNonunique(narrow.key, narrow.datum);
    ghost var one := tab.htable;
    LinksOneLinked(empty, one, Slot(tab.hash, |one|, narrow.key), 0);
    var q := tab.InsertNonunique(wide.key, wide.datum);
    LinksOneLinked(one, tab.htable, Slot(tab.hash, |tab.htable|, wide.key), 1);
    NarrowSlots(tm, tab, empty, one, s, i, k);
    if hash == NarrowHash(i) { NarrowHashes(tm, s, i, k); }
  }

  lemma NarrowHashes(tm: TypeMaps, s: nat, i: nat, k: nat)
    requires tm.Valid() && OpenAt(tm, s, i, k)
    ensures Slot(NarrowHash(i), 4, AllowRule(i + 1, s + 1).key) == 0 && Slot(NarrowHash(i), 4, AllowRule(k + 1, s + 1).key) == 1
  {
  }

  lemma OpenFits(tm: TypeMaps, s: nat, i: nat, k: nat)
    requires tm.Valid() && OpenAt(tm, s, i, k)
    ensures tm.InRange() && RuleOk(tm, AllowRule(i + 1, s + 1)) && RuleOk(tm, AllowRule(k + 1, s + 1))
  {
    hide RuleOk;
    AllowFits(tm, i + 1, s + 1);
    AllowFits(tm, k + 1, s + 1);
  }

  lemma FourSlots(nslot: nat)
    requires SlotsFor(2, nslot)
    ensures nslot == 4
  {
  }

  lemma NarrowSlots(tm: TypeMaps, tab: Avtab, empty: seq<seq<nat>>, one: seq<seq<nat>>, s: nat, i: nat, k: nat)
    requires tm.InRange() && |empty| == 4 && forall x :: 0 <= x < |empty| ==> empty[x] == []
    requires RuleOk(tm, AllowRule(i + 1, s + 1)) && RuleOk(tm, AllowRule(k + 1, s + 1))
    requires var n, w := AllowRule(i + 1, s + 1), AllowRule(k + 1, s + 1);
      && |one| == 4 && |tab.htable| == 4
      && LinksOne(empty, one, Slot(tab.hash, 4, n.key), 0) && LinksOne(one, tab.htable, Slot(tab.hash, 4, w.key), 1)
      && tab.pool == [NewNode(n.key, n.datum), NewNode(w.key, w.datum)]
    ensures RulesOk(tm, tab.pool) && NarrowAndWide(tab.pool, tab.htable, s, i, k)
    ensures Slot(tab.hash, 4, AllowRule(i + 1, s + 1).key) == 0 && Slot(tab.hash, 4, AllowRule(k + 1, s + 1).key) == 1 ==>
      NarrowJudged(tm, tab.htable, i, k)
  {
    assert !Has(ALLOWED, XPERMS);
    hide Has, Linked, RuleOk, Slot, IsSuperset;
    var n, w := Slot(tab.hash, 4, AllowRule(i + 1, s + 1).key), Slot(tab.hash, 4, AllowRule(k + 1, s + 1).key);
    LinksOneLinked(empty, one, n, 0);
    LinksOneLinked(one, tab.htable, w, 1);
    EmptySlots(empty);
    if n == 0 && w == 1 { assert one[0] == [0]; }
  }

  /** Runs the pass over the two rules: what it leaves is an outcome, and a decision is gone. */
  method OptimizeOpenRows(tm: TypeMaps, tab: Avtab, s: nat, i: nat, k: nat)
    requires tm.Valid() && OpenAt(tm, s, i, k) && tab.Valid() && RulesOk(tm, tab.pool)
    requires NarrowAndWide(tab.pool, tab.htable, s, i, k) && NarrowJudged(tm, tab.htable, i, k)
    modifies tab
    ensures tab.Valid() && RulesOk(tm, tab.pool) && PassOutcome(tm, old(tab.pool), old(tab.htable), tab.pool, tab.htable)
    ensures old(TableDecides(tm, tab.pool, tab.htable, ToItself(s))) && !TableDecides(tm, tab.pool, tab.htable, ToItself(s))
  {
    hide *;
    ghost var pool, htable := tab.pool, tab.htable;
    OpenFits(tm, s, i, k);
    var map_ := BuildTypeMap(tm);
    OptimizeAvtab(tm, tab, map_);
    OpenRowsLose(tm, pool, htable, tab.pool, tab.htable, s, i, k);
  }

  /** Rows as they may be loaded: type 1 is said to be in type 2, which is in attribute 3. */
  const OPEN_ROWS: TypeMaps := TypeMaps([Plain, Plain, Attribute], [{0, 1}, {1, 2}, {2}], [{0}, {0, 1}, {1}])

  lemma OpenRowsLoad()
    ensures OPEN_ROWS.Valid() && !OPEN_ROWS.RowsClosed()
    ensures OPEN_ROWS.Concrete(0) && OPEN_ROWS.Concrete(1) && 1 in OPEN_ROWS.typeAttr[0]
    ensures 2 in OPEN_ROWS.typeAttr[1] && OPEN_ROWS.flavor[2] == Attribute && 2 !in OPEN_ROWS.typeAttr[0]
  {
    var tm := OPEN_ROWS;
    assert tm.Concrete(0) && tm.Concrete(1) && 1 in tm.typeAttr[0] && 2 in tm.typeAttr[1] && tm.flavor[2] != Gap;
  }
}
