/**
 Expanding a rule table from attributes to concrete types (src/expand.c): every rule is
 entered for each pair of types it covers, merging into what is already there.
 */
module Expand {
  import opened Prelude
  import opened Masks
  import opened Avtab
  import opened TypeMaps
  import opened AccessDecision
  import opened PolicyDb

  /** A node of the expanded table says this much about its own source, target and class. */
  ghost predicate NodeSays(n: Node, a: Access) {
    a.s + 1 == n.key.source && a.t + 1 == n.key.target && a.c == n.key.tclass && Answers(n, a.q)
  }

  ghost predicate PoolSays(pool: seq<Node>, htable: seq<seq<nat>>, a: Access) {
    exists p: nat :: Linked(htable, p) && p < |pool| && NodeSays(pool[p], a)
  }

  ghost function TabSays(pool: seq<Node>, htable: seq<seq<nat>>): iset<Access> {
    iset a: Access | PoolSays(pool, htable, a)
  }

  ghost function KeySays(n: Node): iset<Access> {
    iset a: Access | NodeSays(n, a)
  }

  /** One specifier, and words of its own for an extended rule. */
  ghost predicate NodeOk(n: Node) {
    OneKind(n.key.specified) && (IsXperms(n.key.specified) ==> n.datum.xperms.Some?)
  }

  ghost predicate NodesOk(pool: seq<Node>) {
    forall p :: 0 <= p < |pool| ==> NodeOk(pool[p])
  }

  predicate SameLayout(a: Datum, b: Datum) {
    && a.xperms.Some? && b.xperms.Some?
    && a.xperms.value.specified == b.xperms.value.specified && a.xperms.value.driver == b.xperms.value.driver
  }

  /** Rules that merge: same triple and kind, and for extended rules the same word layout. */
  predicate SameSlot(a: Node, b: Node) {
    && Matches(a.key, b.key)
    && (IsXperms(a.key.specified) ==> SameLayout(a.datum, b.datum))
  }

  ghost predicate OnePerSlot(pool: seq<Node>, htable: seq<seq<nat>>) {
    forall p: nat, q: nat :: (Linked(htable, p) && Linked(htable, q) && p < |pool| && q < |pool| && SameSlot(pool[p], pool[q])) ==> p == q
  }

  ghost predicate AllFlags(pool: seq<Node>, on: bool) {
    forall p :: 0 <= p < |pool| ==> IsEnabled(pool[p].key.specified) == on
  }

  /**
     The table says exactly `facts`; when all enabled flags seen agree, it has one node for
     each slot.
   */
  ghost predicate Good(tab: Avtab, facts: iset<Access>, flags: Option<bool>)
    reads tab
  {
    && tab.Valid() && |tab.htable| > 0 && NodesOk(tab.pool)
    && TabSays(tab.pool, tab.htable) == facts
    && (flags.Some? ==> AllFlags(tab.pool, flags.value) && OnePerSlot(tab.pool, tab.htable))
  }

  // ---------------------------------------------------------------- merging two rules

  function UnionWords(a: seq<bv32>, b: seq<bv32>): (r: seq<bv32>)
    requires |a| == |b|
    ensures |r| == |a| && forall i :: 0 <= i < |a| ==> r[i] == Union(a[i], b[i])
  {
    seq(|a|, i requires 0 <= i < |a| => Union(a[i], b[i]))
  }

  /** What the existing node's datum becomes; type rules do not merge. */
  function Merged(kind: Kind, have: Datum, d: Datum): Option<Datum>
    requires IsX(kind) ==> have.xperms.Some? && d.xperms.Some?
  {
    match kind
    case Allow => Some(have.(data := Union(have.data, d.data)))
    case AuditAllow => Some(have.(data := Union(have.data, d.data)))
    case AuditDeny => Some(have.(data := Intersection(have.data, d.data)))
    case XAllow | XAuditAllow | XDontaudit =>
      Some(have.(xperms := Some(have.xperms.value.(perms := UnionWords(have.xperms.value.perms, d.xperms.value.perms)))))
    case _ => None
  }

  lemma UnionBit(a: seq<bv32>, b: seq<bv32>, i: nat)
    requires |a| == |b| == 8 && i < 256
    ensures PermBit(UnionWords(a, b), i) <==> PermBit(a, i) || PermBit(b, i)
  {
    hide Meets, Union, Single, UnionWords;
    UnionMeets(a[i / 32], b[i / 32], Single(i % 32));
  }

  lemma MergedXperms(x: Xperms, y: Xperms, q: Query)
    requires q.Ioctl? || q.Nlmsg?
    requires x.specified == y.specified && x.driver == y.driver
    ensures XAnswers(x.(perms := UnionWords(x.perms, y.perms)), q) <==> XAnswers(x, q) || XAnswers(y, q)
  {
    hide PermBit, UnionWords;
    if q.driver < 256 && q.function_ < 256 {
      UnionBit(x.perms, y.perms, q.driver);
      UnionBit(x.perms, y.perms, q.function_);
    }
  }

  lemma MergedBits(kind: Kind, a: bv32, b: bv32, mask: bv32)
    requires IsAv(kind)
    ensures Meets(Effect(kind, if kind.AuditDeny? then Intersection(a, b) else Union(a, b)), mask) <==>
      Meets(Effect(kind, a), mask) || Meets(Effect(kind, b), mask)
  {
    hide Meets, Union, Intersection, Invert;
    if kind.AuditDeny? { IntersectionMeets(a, b, mask); } else { UnionMeets(a, b, mask); }
  }

  /** The merged rule answers what either answered. */
  lemma MergedAnswers(kind: Kind, key: Key, have: Datum, key': Key, d: Datum, q: Query)
    requires OfKind(key.specified, kind) && OfKind(key'.specified, kind)
    requires IsX(kind) ==> SameLayout(have, d)
    requires Merged(kind, have, d).Some?
    ensures Answers(Node(key, Merged(kind, have, d).value), q) <==> Answers(Node(key, have), q) || Answers(Node(key', d), q)
  {
    if OfKind(key.specified, q.kind) { KindUnique(key.specified, kind, q.kind); }
    if OfKind(key'.specified, q.kind) { KindUnique(key'.specified, kind, q.kind); }
    hide OfKind, Effect, XAnswers, Union, Intersection, UnionWords, Meets;
    if kind == q.kind {
      match q
      case Bits(_, mask) => if IsAv(kind) { MergedBits(kind, have.data, d.data, mask); }
      case Names(_, _) =>
      case SomeXperm(_) =>
      case _ => if IsX(kind) { MergedXperms(have.xperms.value, d.xperms.value, q); }
    }
  }

  // ---------------------------------------------------------------- expand_avtab_insert

  /** The node a rule would merge into, flags aside: the first of its kind, and layout. */
  method FindMergeable(tab: Avtab, key: Key, d: Datum) returns (r: Option<nat>)
    requires tab.Valid() && |tab.htable| > 0 && NodesOk(tab.pool)
    requires IsXperms(key.specified) ==> d.xperms.Some? && forall p :: 0 <= p < |tab.pool| && Matches(key, tab.pool[p].key) ==> tab.pool[p].datum.xperms.Some?
    ensures r.Some? ==> r.value < |tab.pool| && Hit(tab.pool, tab.htable, key, r.value) && SameSlot(Node(key, d), tab.pool[r.value])
    ensures r.None? ==> forall q: nat :: Hit(tab.pool, tab.htable, key, q) ==> !SameSlot(Node(key, d), tab.pool[q])
  {
    hide Matches, NodesOk, IsXperms, Slot;
    var i, pos := tab.SearchNode(key);
    forall q: nat | Hit(tab.pool, tab.htable, key, q) ensures q in tab.htable[i] && Matches(key, tab.pool[q].key) {
      HitPlace(tab, key, q);
    }
    if IsXperms(key.specified) {
      while pos < |tab.htable[i]|
        invariant pos <= |tab.htable[i]|
        invariant pos < |tab.htable[i]| ==> tab.htable[i][pos] < |tab.pool| && Matches(key, tab.pool[tab.htable[i][pos]].key)
        invariant forall k :: 0 <= k < pos ==> tab.htable[i][k] < |tab.pool| && !SameSlot(Node(key, d), tab.pool[tab.htable[i][k]])
      {
        var node := tab.pool[tab.htable[i][pos]];
        if node.datum.xperms.value.specified == d.xperms.value.specified && node.datum.xperms.value.driver == d.xperms.value.driver {
          MatchLinked(tab, key, i, pos);
          return Some(tab.htable[i][pos]);
        }
        SameSearch(key, node.key);
        pos := tab.SearchNodeNext(i, pos, key.specified);
      }
      r := None;
    } else if pos < |tab.htable[i]| {
      MatchLinked(tab, key, i, pos);
      r := Some(tab.htable[i][pos]);
    } else {
      r := None;
    }
  }

  lemma MatchLinked(tab: Avtab, key: Key, i: nat, pos: nat)
    requires i < |tab.htable| && pos < |tab.htable[i]| && tab.htable[i][pos] < |tab.pool|
    requires Matches(key, tab.pool[tab.htable[i][pos]].key)
    ensures Hit(tab.pool, tab.htable, key, tab.htable[i][pos])
  {
  }

  /** A type rule of this kind already speaks for the key. */
  ghost predicate Taken(facts: iset<Access>, key: Key) {
    exists k: Kind, v: bv32 :: IsType(k) && OfKind(key.specified, k) && key.source > 0 && key.target > 0 &&
      Access(key.source - 1, key.target - 1, key.tclass, Names(k, v)) in facts
  }

  ghost predicate Insertable(key: Key, d: Datum, flags: Option<bool>) {
    && NodeOk(Node(key, d)) && key.source > 0 && key.target > 0
    && (flags.Some? ==> IsEnabled(key.specified) == flags.value)
  }

  lemma GoodParts(tab: Avtab, facts: iset<Access>, flags: Option<bool>, key: Key, d: Datum)
    requires Good(tab, facts, flags) && Insertable(key, d, flags)
    ensures tab.Valid() && |tab.htable| > 0 && NodesOk(tab.pool)
    ensures facts == TabSays(tab.pool, tab.htable) && key.source > 0 && key.target > 0
    ensures flags.Some? ==> AllFlags(tab.pool, flags.value) && OnePerSlot(tab.pool, tab.htable)
    ensures NodeOk(Node(key, d)) && (IsXperms(key.specified) ==> d.xperms.Some?)
    ensures IsXperms(key.specified) ==> forall p :: 0 <= p < |tab.pool| && Matches(key, tab.pool[p].key) ==> tab.pool[p].datum.xperms.Some?
  {
    forall p | 0 <= p < |tab.pool| && Matches(key, tab.pool[p].key) && IsXperms(key.specified) ensures tab.pool[p].datum.xperms.Some? {
      assert NodeOk(tab.pool[p]);
      var k := SharedKind(Node(key, d), tab.pool[p]);
    }
  }

  /** Overlapping rules with one specifier each are of the same kind. */
  lemma SharedKind(a: Node, b: Node) returns (k: Kind)
    requires OneKind(a.key.specified) && OneKind(b.key.specified) && Matches(a.key, b.key)
    ensures OfKind(a.key.specified, k) && OfKind(b.key.specified, k)
    ensures IsXperms(a.key.specified) == IsXperms(b.key.specified) == IsX(k)
  {
    k :| OfKind(a.key.specified, k);
    var l :| OfKind(b.key.specified, l);
    OverlapSameKind(a.key.specified, b.key.specified, k, l);
    KindFacts(a.key.specified, k);
    KindFacts(b.key.specified, k);
  }

  lemma NewNodeIs(key: Key, d: Datum)
    requires NodeOk(Node(key, d))
    ensures NewNode(key, d) == Node(key, d)
  {
    var k :| OfKind(key.specified, k);
    KindFacts(key.specified, k);
  }

  lemma SlotSymmetric(a: Node, b: Node)
    requires OneKind(a.key.specified) && OneKind(b.key.specified) && SameSlot(a, b)
    ensures SameSlot(b, a)
  {
    var k := SharedKind(a, b);
    OverlapsSymmetric(a.key.specified, b.key.specified);
  }

  /** A speaker for a type query at the key is a match for it. */
  lemma SpeakerMatches(key: Key, n: Node, k: Kind, v: bv32)
    requires IsType(k) && OfKind(key.specified, k) && key.source > 0 && key.target > 0
    requires NodeSays(n, Access(key.source - 1, key.target - 1, key.tclass, Names(k, v)))
    ensures Matches(key, n.key) && !IsXperms(key.specified)
  {
    OverlapSameKind(key.specified, n.key.specified, k, k);
    KindFacts(key.specified, k);
  }

  /** Where nothing can be merged into, and flags agree, no type rule is taken. */
  lemma NothingTaken(pool: seq<Node>, htable: seq<seq<nat>>, key: Key, d: Datum)
    requires key.source > 0 && key.target > 0
    requires forall q: nat :: Hit(pool, htable, key, q) ==> !SameSlot(Node(key, d), pool[q])
    ensures !Taken(TabSays(pool, htable), key)
  {
    hide IsXperms, IsType, OfKind;
    forall k: Kind, v: bv32 | IsType(k) && OfKind(key.specified, k)
      ensures Access(key.source - 1, key.target - 1, key.tclass, Names(k, v)) !in TabSays(pool, htable)
    {
      var a := Access(key.source - 1, key.target - 1, key.tclass, Names(k, v));
      if PoolSays(pool, htable, a) {
        var p: nat :| Linked(htable, p) && p < |pool| && NodeSays(pool[p], a);
        SpeakerMatches(key, pool[p], k, v);
        HitSlot(pool, htable, key, d, p);
      }
    }
  }

  lemma HitSlot(pool: seq<Node>, htable: seq<seq<nat>>, key: Key, d: Datum, p: nat)
    requires Linked(htable, p) && p < |pool| && Matches(key, pool[p].key) && !IsXperms(key.specified)
    ensures Hit(pool, htable, key, p) && SameSlot(Node(key, d), pool[p])
  {
  }

  lemma FreshInsert(pool: seq<Node>, htable: seq<seq<nat>>, key: Key, d: Datum, flags: Option<bool>, node: Option<nat>)
    requires Insertable(key, d, flags)
    requires flags.Some? ==> AllFlags(pool, flags.value)
    requires node.Some? ==> node.value < |pool| && IsEnabled(key.specified) != IsEnabled(pool[node.value].key.specified)
    requires node.None? ==> forall q: nat :: Hit(pool, htable, key, q) ==> !SameSlot(Node(key, d), pool[q])
    ensures flags.Some? ==> forall q: nat :: Hit(pool, htable, key, q) ==> !SameSlot(Node(key, d), pool[q])
    ensures flags.Some? ==> !Taken(TabSays(pool, htable), key)
  {
    hide IsEnabled, Hit, SameSlot, Taken, TabSays;
    if flags.Some? { NothingTaken(pool, htable, key, d); }
  }

  lemma FreshSays(pool: seq<Node>, a: seq<seq<nat>>, b: seq<seq<nat>>, i: nat, n: Node)
    requires LinksOne(a, b, i, |pool|) && !Linked(a, |pool|)
    ensures TabSays(pool + [n], b) == TabSays(pool, a) + KeySays(n)
  {
    LinksOneLinked(a, b, i, |pool|);
    hide Linked, LinksOne, NodeSays;
    var pool' := pool + [n];
    forall x: Access ensures PoolSays(pool', b, x) <==> PoolSays(pool, a, x) || NodeSays(n, x) {
      if PoolSays(pool', b, x) {
        var p: nat :| Linked(b, p) && p < |pool'| && NodeSays(pool'[p], x);
        if p < |pool| { assert pool'[p] == pool[p]; }
      }
      if PoolSays(pool, a, x) {
        var p: nat :| Linked(a, p) && p < |pool| && NodeSays(pool[p], x);
        assert pool'[p] == pool[p];
      }
      if NodeSays(n, x) { assert pool'[|pool|] == n && Linked(b, |pool|); }
    }
  }

  lemma FreshUnique(pool: seq<Node>, a: seq<seq<nat>>, b: seq<seq<nat>>, i: nat, n: Node)
    requires LinksOne(a, b, i, |pool|) && NodesOk(pool) && NodeOk(n) && OnePerSlot(pool, a)
    requires forall q: nat :: Hit(pool, a, n.key, q) ==> !SameSlot(n, pool[q])
    ensures OnePerSlot(pool + [n], b)
  {
    LinksOneLinked(a, b, i, |pool|);
    var pool' := pool + [n];
    forall p: nat, q: nat | Linked(b, p) && Linked(b, q) && p < |pool'| && q < |pool'| && SameSlot(pool'[p], pool'[q]) ensures p == q {
      if p < |pool| && q == |pool| {
        assert NodeOk(pool[p]);
        SlotSymmetric(pool[p], n);
        SlotHit(pool, a, n, p);
      } else if p == |pool| && q < |pool| {
        SlotHit(pool, a, n, q);
      }
    }
  }

  lemma SlotHit(pool: seq<Node>, htable: seq<seq<nat>>, n: Node, p: nat)
    requires Linked(htable, p) && p < |pool| && SameSlot(n, pool[p])
    ensures Hit(pool, htable, n.key, p)
  {
  }

  lemma FreshGood(pool: seq<Node>, htable: seq<seq<nat>>, tab: Avtab, key: Key, d: Datum, flags: Option<bool>, i: nat)
    requires tab.Valid() && NodesOk(pool) && Insertable(key, d, flags) && !Linked(htable, |pool|)
    requires tab.pool == pool + [NewNode(key, d)] && LinksOne(htable, tab.htable, i, |pool|)
    requires flags.Some? ==> AllFlags(pool, flags.value) && OnePerSlot(pool, htable)
    requires flags.Some? ==> forall q: nat :: Hit(pool, htable, key, q) ==> !SameSlot(Node(key, d), pool[q])
    ensures Good(tab, TabSays(pool, htable) + KeySays(Node(key, d)), flags)
  {
    NewNodeIs(key, d);
    FreshSays(pool, htable, tab.htable, i, Node(key, d));
    if flags.Some? { FreshUnique(pool, htable, tab.htable, i, Node(key, d)); }
    hide NodeOk, IsEnabled, OnePerSlot, TabSays, Avtab.Valid;
  }

  lemma KindOfSlot(have: Node, key: Key, d: Datum) returns (kind: Kind)
    requires NodeOk(have) && NodeOk(Node(key, d)) && SameSlot(Node(key, d), have)
    ensures OfKind(key.specified, kind) && OfKind(have.key.specified, kind) && SameTriple(key, have.key)
    ensures IsX(kind) ==> SameLayout(have.datum, d)
  {
    kind := SharedKind(Node(key, d), have);
    KindFacts(key.specified, kind);
  }

  /** The switch on the rule's specifier. */
  method MergeInto(specified: bv16, have: Datum, d: Datum, ghost kind: Kind) returns (r: Option<Datum>)
    requires OfKind(specified, kind) && (IsX(kind) ==> have.xperms.Some? && d.xperms.Some?)
    ensures r == Merged(kind, have, d)
  {
    var which := specified & !ENABLED;
    if which == ALLOWED || which == AUDITALLOW {
      r := Some(have.(data := Union(have.data, d.data)));
    } else if which == AUDITDENY {
      r := Some(have.(data := Intersection(have.data, d.data)));
    } else if which == XPERMS_ALLOWED || which == XPERMS_AUDITALLOW || which == XPERMS_DONTAUDIT {
      var words := MergeWords(have.xperms.value.perms, d.xperms.value.perms);
      r := Some(have.(xperms := Some(have.xperms.value.(perms := words))));
    } else {
      r := None;
    }
  }

  method MergeWords(a: seq<bv32>, b: seq<bv32>) returns (r: seq<bv32>)
    requires |a| == |b|
    ensures r == UnionWords(a, b)
  {
    hide Union;
    r := a;
    for i := 0 to |a|
      invariant |r| == |a|
      invariant forall k :: 0 <= k < |a| ==> r[k] == if k < i then Union(a[k], b[k]) else a[k]
    {
      r := r[i := Union(r[i], b[i])];
    }
  }

  lemma TypeTaken(pool: seq<Node>, htable: seq<seq<nat>>, key: Key, kind: Kind, p: nat, d: Datum)
    requires Hit(pool, htable, key, p) && p < |pool| && key.source > 0 && key.target > 0
    requires OfKind(key.specified, kind) && OfKind(pool[p].key.specified, kind)
    requires IsX(kind) ==> pool[p].datum.xperms.Some? && d.xperms.Some?
    requires Merged(kind, pool[p].datum, d).None?
    ensures Taken(TabSays(pool, htable), key)
  {
    var a := Access(key.source - 1, key.target - 1, key.tclass, Names(kind, pool[p].datum.data));
    assert NodeSays(pool[p], a);
    assert PoolSays(pool, htable, a);
    assert a in TabSays(pool, htable);
  }

  lemma NotTaken(facts: iset<Access>, key: Key, kind: Kind)
    requires OfKind(key.specified, kind) && !IsType(kind)
    ensures !Taken(facts, key)
  {
    forall k: Kind | OfKind(key.specified, k) ensures k == kind { KindUnique(key.specified, k, kind); }
    hide OfKind, IsType;
  }

  lemma MergedSays(pool: seq<Node>, pool': seq<Node>, htable: seq<seq<nat>>, n: Node, p: nat, kind: Kind)
    requires Linked(htable, p) && p < |pool| && SameTriple(n.key, pool[p].key)
    requires OfKind(n.key.specified, kind) && OfKind(pool[p].key.specified, kind)
    requires IsX(kind) ==> SameLayout(pool[p].datum, n.datum)
    requires Merged(kind, pool[p].datum, n.datum).Some?
    requires pool' == pool[p := Node(pool[p].key, Merged(kind, pool[p].datum, n.datum).value)]
    ensures TabSays(pool', htable) == TabSays(pool, htable) + KeySays(n)
  {
    forall x: Access ensures NodeSays(pool'[p], x) <==> NodeSays(pool[p], x) || NodeSays(n, x) {
      MergedAnswers(kind, pool[p].key, pool[p].datum, n.key, n.datum, x.q);
      hide Answers, Merged;
    }
    hide Linked, NodeSays, Merged, OfKind;
    forall x: Access ensures PoolSays(pool', htable, x) <==> PoolSays(pool, htable, x) || NodeSays(n, x) {
      if PoolSays(pool', htable, x) {
        var q: nat :| Linked(htable, q) && q < |pool'| && NodeSays(pool'[q], x);
        if q != p { assert pool'[q] == pool[q]; }
      }
      if PoolSays(pool, htable, x) {
        var q: nat :| Linked(htable, q) && q < |pool| && NodeSays(pool[q], x);
        if q != p { assert pool'[q] == pool[q]; }
      }
    }
  }

  lemma MergedShape(kind: Kind, have: Datum, d: Datum)
    requires IsX(kind) ==> SameLayout(have, d)
    ensures Merged(kind, have, d).Some? <==> !IsType(kind)
    ensures Merged(kind, have, d).Some? ==>
      var m := Merged(kind, have, d).value;
      m.xperms.Some? == have.xperms.Some? && (have.xperms.Some? ==>
        m.xperms.value.specified == have.xperms.value.specified && m.xperms.value.driver == have.xperms.value.driver)
  {
  }

  lemma MergedGood(pool: seq<Node>, tab: Avtab, n: Node, flags: Option<bool>, p: nat, kind: Kind)
    requires tab.Valid() && |tab.htable| > 0 && NodesOk(pool) && Insertable(n.key, n.datum, flags)
    requires flags.Some? ==> AllFlags(pool, flags.value) && OnePerSlot(pool, tab.htable)
    requires Linked(tab.htable, p) && p < |pool| && SameTriple(n.key, pool[p].key)
    requires OfKind(n.key.specified, kind) && OfKind(pool[p].key.specified, kind)
    requires IsX(kind) ==> SameLayout(pool[p].datum, n.datum)
    requires Merged(kind, pool[p].datum, n.datum).Some?
    requires tab.pool == pool[p := Node(pool[p].key, Merged(kind, pool[p].datum, n.datum).value)]
    ensures Good(tab, TabSays(pool, tab.htable) + KeySays(n), flags)
  {
    MergedSays(pool, tab.pool, tab.htable, n, p, kind);
    MergedShape(kind, pool[p].datum, n.datum);
    hide Merged, OfKind, TabSays, IsEnabled, Avtab.Valid, KeySays, IsXperms, OneKind, Matches, Linked, IsX;
  }

  method ExpandAvtabInsert(tab: Avtab, key: Key, d: Datum, ghost facts: iset<Access>, ghost flags: Option<bool>) returns (ok: bool)
    requires Good(tab, facts, flags) && Insertable(key, d, flags)
    modifies tab
    ensures ok ==> Good(tab, facts + KeySays(Node(key, d)), flags)
    ensures !ok ==> Taken(facts, key)
    ensures flags.Some? && Taken(facts, key) ==> !ok
  {
    hide *;
    ghost var pool, htable := tab.pool, tab.htable;
    GoodParts(tab, facts, flags, key, d);
    var node := FindMergeable(tab, key, d);
    if node.None? || IsEnabled(key.specified) != IsEnabled(tab.pool[node.value].key.specified) {
      FreshInsert(pool, htable, key, d, flags, node);
      UnlinkedBeyondPool(tab);
      var p := tab.InsertNonunique(key, d);
      if p.None? { return false; }
      FreshGood(pool, htable, tab, key, d, flags, Slot(tab.hash, |tab.htable|, key));
      return true;
    }
    ghost var kind := KindOfHit(pool, htable, key, d, node.value);
    var merged := MergeInto(key.specified, tab.pool[node.value].datum, d, kind);
    if merged.None? {
      TypeTaken(pool, htable, key, kind, node.value, d);
      return false;
    }
    tab.SetDatum(node.value, merged.value);
    MergedNotTaken(facts, key, kind, pool[node.value].datum, d);
    MergedGood(pool, tab, Node(key, d), flags, node.value, kind);
    ok := true;
  }

  lemma KindOfHit(pool: seq<Node>, htable: seq<seq<nat>>, key: Key, d: Datum, p: nat) returns (kind: Kind)
    requires NodesOk(pool) && NodeOk(Node(key, d)) && p < |pool| && Hit(pool, htable, key, p) && SameSlot(Node(key, d), pool[p])
    ensures OfKind(key.specified, kind) && OfKind(pool[p].key.specified, kind) && SameTriple(key, pool[p].key)
    ensures IsX(kind) ==> SameLayout(pool[p].datum, d) && pool[p].datum.xperms.Some? && d.xperms.Some?
    ensures Linked(htable, p)
  {
    kind := KindOfSlot(pool[p], key, d);
    hide OfKind, IsX, Matches;
  }

  lemma MergedNotTaken(facts: iset<Access>, key: Key, kind: Kind, have: Datum, d: Datum)
    requires OfKind(key.specified, kind) && (IsX(kind) ==> SameLayout(have, d)) && Merged(kind, have, d).Some?
    ensures !Taken(facts, key)
  {
    hide OfKind;
    MergedShape(kind, have, d);
    NotTaken(facts, key, kind);
  }

  // ---------------------------------------------------------------- expand_avtab_node

  /** The types a key's source or target stands for: itself, or an attribute's members. */
  function Covers(tm: TypeMaps, value: nat): set<nat>
    requires tm.InRange() && 0 < value <= tm.Nprim()
  {
    if tm.flavor[value - 1] == Plain then {value - 1} else tm.attrType[value - 1]
  }

  function At(n: Node, s: nat, t: nat): Key {
    Key(s + 1, t + 1, n.key.tclass, n.key.specified)
  }

  /** What a rule says of the pairs of two sets. */
  ghost function PairsSay(n: Node, src: set<nat>, tgt: set<nat>): iset<Access> {
    iset a: Access | a.s in src && a.t in tgt && a.c == n.key.tclass && Answers(n, a.q)
  }

  ghost predicate Clash(facts: iset<Access>, n: Node, src: set<nat>, tgt: set<nat>) {
    exists s: nat, t: nat :: s in src && t in tgt && Taken(facts, At(n, s, t))
  }

  ghost predicate Entry(n: Node, flags: Option<bool>) {
    NodeOk(n) && (flags.Some? ==> IsEnabled(n.key.specified) == flags.value)
  }

  lemma EntryInserts(n: Node, s: nat, t: nat, flags: Option<bool>)
    requires Entry(n, flags)
    ensures Insertable(At(n, s, t), n.datum, flags)
    ensures KeySays(Node(At(n, s, t), n.datum)) == PairsSay(n, {s}, {t})
  {
    hide OneKind, IsXperms, IsEnabled;
    forall a: Access ensures Answers(Node(At(n, s, t), n.datum), a.q) <==> Answers(n, a.q) { }
    hide Answers;
  }

  /** Facts about other pairs do not take a key. */
  lemma TakenElsewhere(facts: iset<Access>, n: Node, m: Node, src: set<nat>, tgt: set<nat>, s: nat, t: nat)
    requires s !in src || t !in tgt
    ensures Taken(facts + PairsSay(n, src, tgt), At(m, s, t)) <==> Taken(facts, At(m, s, t))
  {
    hide Answers, OfKind, IsType;
  }

  lemma GrowTargets(facts: iset<Access>, n: Node, src: set<nat>, tgt: set<nat>, t: nat)
    ensures facts + PairsSay(n, src, tgt) + PairsSay(n, src, {t}) == facts + PairsSay(n, src, tgt + {t})
  {
    hide Answers;
  }

  lemma GrowSources(facts: iset<Access>, n: Node, src: set<nat>, tgt: set<nat>, s: nat)
    ensures facts + PairsSay(n, src, tgt) + PairsSay(n, {s}, tgt) == facts + PairsSay(n, src + {s}, tgt)
  {
    hide Answers;
  }

  lemma NoPairs(facts: iset<Access>, n: Node, src: set<nat>, tgt: set<nat>)
    requires src == {} || tgt == {}
    ensures facts + PairsSay(n, src, tgt) == facts
    ensures !Clash(facts, n, src, tgt)
  {
  }

  /** The members of a set below `k`. */
  function UpTo(s: set<nat>, k: nat): set<nat> {
    set x | x in s && x < k
  }

  lemma UpToStep(s: set<nat>, k: nat)
    ensures UpTo(s, 0) == {}
    ensures UpTo(s, k + 1) == if k in s then UpTo(s, k) + {k} else UpTo(s, k)
    ensures k !in UpTo(s, k)
    ensures (forall x :: x in s ==> x < k) ==> UpTo(s, k) == s
  {
  }

  /** Enters one rule for one source and every target of a set, in ascending order. */
  method ExpandTargets(tab: Avtab, n: Node, s: nat, tgt: set<nat>, nprim: nat, ghost facts: iset<Access>, ghost flags: Option<bool>)
    returns (ok: bool)
    requires Good(tab, facts, flags) && Entry(n, flags) && forall t :: t in tgt ==> t < nprim
    modifies tab
    ensures ok ==> Good(tab, facts + PairsSay(n, {s}, tgt), flags)
    ensures !ok ==> Clash(facts, n, {s}, tgt)
    ensures flags.Some? && Clash(facts, n, {s}, tgt) ==> !ok
  {
    hide *;
    UpToStep(tgt, 0);
    NoPairs(facts, n, {s}, UpTo(tgt, 0));
    for t := 0 to nprim
      invariant Good(tab, facts + PairsSay(n, {s}, UpTo(tgt, t)), flags)
      invariant flags.Some? ==> !Clash(facts, n, {s}, UpTo(tgt, t))
    {
      UpToStep(tgt, t);
      if t in tgt {
        ghost var now := facts + PairsSay(n, {s}, UpTo(tgt, t));
        EntryInserts(n, s, t, flags);
        TakenElsewhere(facts, n, n, {s}, UpTo(tgt, t), s, t);
        GrowTargets(facts, n, {s}, UpTo(tgt, t), t);
        ClashStep(facts, n, {s}, UpTo(tgt, t), s, t);
        ok := ExpandAvtabInsert(tab, At(n, s, t), n.datum, now, flags);
        if !ok { ClashWitness(facts, n, {s}, tgt, s, t); return; }
      }
    }
    UpToStep(tgt, nprim);
    ok := true;
  }

  lemma ClashStep(facts: iset<Access>, n: Node, src: set<nat>, tgt: set<nat>, s: nat, t: nat)
    requires src == {s}
    ensures Clash(facts, n, src, tgt + {t}) <==> Clash(facts, n, src, tgt) || Taken(facts, At(n, s, t))
  {
    hide Taken;
    if Taken(facts, At(n, s, t)) { assert t in tgt + {t}; }
    if Clash(facts, n, src, tgt) {
      var a: nat, b: nat :| a in src && b in tgt && Taken(facts, At(n, a, b));
      assert b in tgt + {t};
    }
  }

  lemma ClashWitness(facts: iset<Access>, n: Node, src: set<nat>, tgt: set<nat>, s: nat, t: nat)
    requires s in src && t in tgt && Taken(facts, At(n, s, t))
    ensures Clash(facts, n, src, tgt)
  {
  }

  lemma ClashSources(facts: iset<Access>, n: Node, src: set<nat>, tgt: set<nat>, s: nat)
    ensures Clash(facts, n, src + {s}, tgt) <==> Clash(facts, n, src, tgt) || Clash(facts, n, {s}, tgt)
  {
    hide Taken;
    if Clash(facts, n, src, tgt) {
      var a: nat, b: nat :| a in src && b in tgt && Taken(facts, At(n, a, b));
      assert a in src + {s};
    }
    if Clash(facts, n, {s}, tgt) {
      var a: nat, b: nat :| a in {s} && b in tgt && Taken(facts, At(n, a, b));
      assert a in src + {s};
    }
  }

  lemma ClashElsewhere(facts: iset<Access>, n: Node, src: set<nat>, tgt: set<nat>, s: nat)
    requires s !in src
    ensures Clash(facts + PairsSay(n, src, tgt), n, {s}, tgt) <==> Clash(facts, n, {s}, tgt)
  {
    hide Taken, PairsSay;
    forall t: nat ensures Taken(facts + PairsSay(n, src, tgt), At(n, s, t)) <==> Taken(facts, At(n, s, t)) {
      TakenElsewhere(facts, n, n, src, tgt, s, t);
    }
  }

  lemma ClashSubset(facts: iset<Access>, n: Node, src: set<nat>, tgt: set<nat>, s: nat)
    requires Clash(facts, n, {s}, tgt) && s in src
    ensures Clash(facts, n, src, tgt)
  {
  }

  /** Enters one rule for every source of a set and every target of another. */
  method ExpandPairs(tab: Avtab, n: Node, src: set<nat>, tgt: set<nat>, nprim: nat, ghost facts: iset<Access>, ghost flags: Option<bool>)
    returns (ok: bool)
    requires Good(tab, facts, flags) && Entry(n, flags)
    requires (forall s :: s in src ==> s < nprim) && forall t :: t in tgt ==> t < nprim
    modifies tab
    ensures ok ==> Good(tab, facts + PairsSay(n, src, tgt), flags)
    ensures !ok ==> Clash(facts, n, src, tgt)
    ensures flags.Some? && Clash(facts, n, src, tgt) ==> !ok
  {
    hide *;
    UpToStep(src, 0);
    NoPairs(facts, n, UpTo(src, 0), tgt);
    for s := 0 to nprim
      invariant Good(tab, facts + PairsSay(n, UpTo(src, s), tgt), flags)
      invariant flags.Some? ==> !Clash(facts, n, UpTo(src, s), tgt)
    {
      UpToStep(src, s);
      if s in src {
        ghost var now := facts + PairsSay(n, UpTo(src, s), tgt);
        GrowSources(facts, n, UpTo(src, s), tgt, s);
        ClashElsewhere(facts, n, UpTo(src, s), tgt, s);
        ClashSources(facts, n, UpTo(src, s), tgt, s);
        ok := ExpandTargets(tab, n, s, tgt, nprim, now, flags);
        if !ok { ClashSubset(facts, n, src, tgt, s); return; }
      }
    }
    UpToStep(src, nprim);
    ok := true;
  }

  lemma CoversInRange(tm: TypeMaps, n: Node)
    requires KeyInRange(tm, n)
    ensures tm.InRange() && 0 < n.key.source <= |tm.flavor| && 0 < n.key.target <= |tm.flavor|
    ensures forall s :: s in Covers(tm, n.key.source) ==> s < |tm.flavor|
    ensures forall t :: t in Covers(tm, n.key.target) ==> t < |tm.flavor|
    ensures tm.flavor[n.key.source - 1] == Plain ==> Covers(tm, n.key.source) == {n.key.source - 1}
    ensures tm.flavor[n.key.target - 1] == Plain ==> Covers(tm, n.key.target) == {n.key.target - 1}
    ensures tm.flavor[n.key.source - 1] != Plain ==> Covers(tm, n.key.source) == tm.attrType[n.key.source - 1]
    ensures tm.flavor[n.key.target - 1] != Plain ==> Covers(tm, n.key.target) == tm.attrType[n.key.target - 1]
    ensures At(n, n.key.source - 1, n.key.target - 1) == n.key
  {
  }

  lemma ClashOne(facts: iset<Access>, n: Node, s: nat, t: nat)
    ensures Clash(facts, n, {s}, {t}) <==> Taken(facts, At(n, s, t))
  {
    hide Taken;
    if Taken(facts, At(n, s, t)) { ClashWitness(facts, n, {s}, {t}, s, t); }
  }

  /** Expands one rule, by which of its source and target are attributes. */
  method ExpandAvtabNode(tm: TypeMaps, tab: Avtab, n: Node, ghost facts: iset<Access>, ghost flags: Option<bool>) returns (ok: bool)
    requires Good(tab, facts, flags) && Entry(n, flags) && KeyInRange(tm, n)
    modifies tab
    ensures ok ==> Good(tab, facts + PairsSay(n, Covers(tm, n.key.source), Covers(tm, n.key.target)), flags)
    ensures !ok ==> Clash(facts, n, Covers(tm, n.key.source), Covers(tm, n.key.target))
    ensures flags.Some? && Clash(facts, n, Covers(tm, n.key.source), Covers(tm, n.key.target)) ==> !ok
  {
    hide *;
    CoversInRange(tm, n);
    var s, t := n.key.source - 1, n.key.target - 1;
    if tm.flavor[s] == Plain && tm.flavor[t] == Plain {
      EntryInserts(n, s, t, flags);
      ClashOne(facts, n, s, t);
      ok := ExpandAvtabInsert(tab, n.key, n.datum, facts, flags);
    } else if tm.flavor[s] == Plain {
      ok := ExpandTargets(tab, n, s, tm.attrType[t], |tm.flavor|, facts, flags);
    } else if tm.flavor[t] == Plain {
      ok := ExpandPairs(tab, n, tm.attrType[s], {t}, |tm.flavor|, facts, flags);
    } else {
      ok := ExpandPairs(tab, n, tm.attrType[s], tm.attrType[t], |tm.flavor|, facts, flags);
    }
  }

  // ---------------------------------------------------------------- expand_avtab

  /** What a rule says of every concrete pair it covers. */
  ghost function EntrySays(tm: TypeMaps, n: Node): iset<Access>
    requires KeyInRange(tm, n)
  {
    PairsSay(n, Covers(tm, n.key.source), Covers(tm, n.key.target))
  }

  /** The same for rules met in some order. */
  ghost function ListSays(tm: TypeMaps, pool: seq<Node>, list: seq<nat>): iset<Access>
    requires AllInRange(tm, pool) && InPool(pool, list)
  {
    if list == [] then iset{}
    else ListSays(tm, pool, list[..|list| - 1]) + EntrySays(tm, pool[list[|list| - 1]])
  }

  /** Two type rules of one kind for a common pair. */
  ghost predicate Conflict(tm: TypeMaps, m: Node, n: Node)
    requires KeyInRange(tm, m) && KeyInRange(tm, n)
  {
    && m.key.tclass == n.key.tclass
    && (exists k: Kind :: IsType(k) && OfKind(m.key.specified, k) && OfKind(n.key.specified, k))
    && Covers(tm, m.key.source) * Covers(tm, n.key.source) != {}
    && Covers(tm, m.key.target) * Covers(tm, n.key.target) != {}
  }

  ghost predicate Conflicts(tm: TypeMaps, pool: seq<Node>, list: seq<nat>)
    requires AllInRange(tm, pool) && InPool(pool, list)
  {
    exists a, b :: 0 <= a < b < |list| && Conflict(tm, pool[list[a]], pool[list[b]])
  }

  lemma EntryTakes(tm: TypeMaps, m: Node, n: Node, s: nat, t: nat)
    requires KeyInRange(tm, m) && KeyInRange(tm, n)
    ensures Taken(EntrySays(tm, m), At(n, s, t)) <==>
      && m.key.tclass == n.key.tclass && s in Covers(tm, m.key.source) && t in Covers(tm, m.key.target)
      && exists k: Kind :: IsType(k) && OfKind(m.key.specified, k) && OfKind(n.key.specified, k)
  {
    hide IsType, OfKind;
    forall k: Kind, v: bv32 | IsType(k) && OfKind(n.key.specified, k)
      ensures Access(s, t, n.key.tclass, Names(k, v)) in EntrySays(tm, m) <==>
        && m.key.tclass == n.key.tclass && s in Covers(tm, m.key.source) && t in Covers(tm, m.key.target)
        && OfKind(m.key.specified, k) && m.datum.data == v
    {
    }
    if k: Kind :| IsType(k) && OfKind(m.key.specified, k) && OfKind(n.key.specified, k) {
      var v := m.datum.data;
      assert Access(s, t, n.key.tclass, Names(k, v)) in EntrySays(tm, m) <==>
        m.key.tclass == n.key.tclass && s in Covers(tm, m.key.source) && t in Covers(tm, m.key.target);
    }
  }

  lemma EntryClash(tm: TypeMaps, m: Node, n: Node)
    requires KeyInRange(tm, m) && KeyInRange(tm, n)
    ensures Clash(EntrySays(tm, m), n, Covers(tm, n.key.source), Covers(tm, n.key.target)) <==> Conflict(tm, m, n)
  {
    forall s: nat, t: nat
      ensures Taken(EntrySays(tm, m), At(n, s, t)) <==>
        && m.key.tclass == n.key.tclass && s in Covers(tm, m.key.source) && t in Covers(tm, m.key.target)
        && exists k: Kind :: IsType(k) && OfKind(m.key.specified, k) && OfKind(n.key.specified, k)
    {
      EntryTakes(tm, m, n, s, t);
    }
    hide Taken, EntrySays, Covers, IsType, OfKind;
    if Conflict(tm, m, n) {
      var s :| s in Covers(tm, m.key.source) * Covers(tm, n.key.source);
      var t :| t in Covers(tm, m.key.target) * Covers(tm, n.key.target);
      assert Taken(EntrySays(tm, m), At(n, s, t));
    }
    if Clash(EntrySays(tm, m), n, Covers(tm, n.key.source), Covers(tm, n.key.target)) {
      var s: nat, t: nat :| s in Covers(tm, n.key.source) && t in Covers(tm, n.key.target) && Taken(EntrySays(tm, m), At(n, s, t));
      assert s in Covers(tm, m.key.source) * Covers(tm, n.key.source);
      assert t in Covers(tm, m.key.target) * Covers(tm, n.key.target);
    }
  }

  lemma ClashUnion(a: iset<Access>, b: iset<Access>, n: Node, src: set<nat>, tgt: set<nat>)
    ensures Clash(a + b, n, src, tgt) <==> Clash(a, n, src, tgt) || Clash(b, n, src, tgt)
  {
    forall key: Key ensures Taken(a + b, key) <==> Taken(a, key) || Taken(b, key) { hide IsType, OfKind; }
    hide Taken;
  }

  lemma {:induction false} ListClash(tm: TypeMaps, pool: seq<Node>, list: seq<nat>, n: Node)
    requires AllInRange(tm, pool) && InPool(pool, list) && KeyInRange(tm, n)
    ensures Clash(ListSays(tm, pool, list), n, Covers(tm, n.key.source), Covers(tm, n.key.target)) <==>
      exists a :: 0 <= a < |list| && Conflict(tm, pool[list[a]], n)
    decreases |list|
  {
    hide Clash, EntrySays, Covers, Conflict;
    if list == [] {
      NothingClashes(n, Covers(tm, n.key.source), Covers(tm, n.key.target));
    } else {
      var k := |list| - 1;
      ListClash(tm, pool, list[..k], n);
      EntryClash(tm, pool[list[k]], n);
      ClashUnion(ListSays(tm, pool, list[..k]), EntrySays(tm, pool[list[k]]), n, Covers(tm, n.key.source), Covers(tm, n.key.target));
      assert list == list[..k] + [list[k]];
    }
  }

  lemma NothingClashes(n: Node, src: set<nat>, tgt: set<nat>)
    ensures !Clash(iset{}, n, src, tgt)
  {
  }

  lemma ListStep(tm: TypeMaps, pool: seq<Node>, list: seq<nat>, p: nat)
    requires AllInRange(tm, pool) && InPool(pool, list) && p < |pool|
    ensures InPool(pool, list + [p]) && KeyInRange(tm, pool[p])
    ensures ListSays(tm, pool, list + [p]) == ListSays(tm, pool, list) + EntrySays(tm, pool[p])
    ensures Conflicts(tm, pool, list + [p]) <==> Conflicts(tm, pool, list) || exists a :: 0 <= a < |list| && Conflict(tm, pool[list[a]], pool[p])
  {
    assert (list + [p])[..|list|] == list;
    hide EntrySays, Conflict, KeyInRange;
    if Conflicts(tm, pool, list + [p]) {
      var a, b :| 0 <= a < b < |list + [p]| && Conflict(tm, pool[(list + [p])[a]], pool[(list + [p])[b]]);
      if b < |list| { assert Conflict(tm, pool[list[a]], pool[list[b]]); }
    }
    if a, b :| 0 <= a < b < |list| && Conflict(tm, pool[list[a]], pool[list[b]]) {
      assert Conflict(tm, pool[(list + [p])[a]], pool[(list + [p])[b]]);
    }
    if a :| 0 <= a < |list| && Conflict(tm, pool[list[a]], pool[p]) {
      assert Conflict(tm, pool[(list + [p])[a]], pool[(list + [p])[|list|]]);
    }
  }

  /** The table after the rules `seen`, without a conflict noticed. */
  ghost predicate Expanded(tm: TypeMaps, pool: seq<Node>, seen: seq<nat>, tab: Avtab, flags: Option<bool>)
    requires AllInRange(tm, pool)
    reads tab
  {
    && InPool(pool, seen) && Good(tab, ListSays(tm, pool, seen), flags)
    && (flags.Some? ==> !Conflicts(tm, pool, seen))
  }

  /** One rule more, or a conflict with one seen. */
  method ExpandNext(tm: TypeMaps, pool: seq<Node>, p: nat, tab: Avtab, ghost seen: seq<nat>, ghost flags: Option<bool>) returns (ok: bool)
    requires AllInRange(tm, pool) && p < |pool| && Entry(pool[p], flags) && Expanded(tm, pool, seen, tab, flags)
    modifies tab
    ensures InPool(pool, seen + [p])
    ensures ok ==> Expanded(tm, pool, seen + [p], tab, flags)
    ensures !ok ==> Conflicts(tm, pool, seen + [p])
  {
    hide *;
    ExpandedParts(tm, pool, seen, tab, flags);
    ListStep(tm, pool, seen, p);
    ListClash(tm, pool, seen, pool[p]);
    EntrySaysDef(tm, pool[p]);
    ok := ExpandAvtabNode(tm, tab, pool[p], ListSays(tm, pool, seen), flags);
    if ok { ExpandedFrom(tm, pool, seen + [p], tab, flags); }
  }

  lemma EntrySaysDef(tm: TypeMaps, n: Node)
    requires KeyInRange(tm, n)
    ensures EntrySays(tm, n) == PairsSay(n, Covers(tm, n.key.source), Covers(tm, n.key.target))
  {
  }

  lemma ExpandedParts(tm: TypeMaps, pool: seq<Node>, seen: seq<nat>, tab: Avtab, flags: Option<bool>)
    requires AllInRange(tm, pool) && Expanded(tm, pool, seen, tab, flags)
    ensures InPool(pool, seen) && Good(tab, ListSays(tm, pool, seen), flags)
    ensures flags.Some? ==> !Conflicts(tm, pool, seen)
  {
  }

  lemma ExpandedFrom(tm: TypeMaps, pool: seq<Node>, seen: seq<nat>, tab: Avtab, flags: Option<bool>)
    requires AllInRange(tm, pool) && InPool(pool, seen) && Good(tab, ListSays(tm, pool, seen), flags)
    requires flags.Some? ==> !Conflicts(tm, pool, seen)
    ensures Expanded(tm, pool, seen, tab, flags)
  {
  }

  /** All nodes of a table in walking order. */
  ghost function Flat(htable: seq<seq<nat>>): seq<nat> {
    if htable == [] then [] else Flat(htable[..|htable| - 1]) + htable[|htable| - 1]
  }

  lemma FlatStep(htable: seq<seq<nat>>, i: nat)
    requires i < |htable|
    ensures Flat(htable[..i + 1]) == Flat(htable[..i]) + htable[i]
  {
    assert htable[..i + 1][..i] == htable[..i];
  }

  lemma {:induction false} FlatMembers(htable: seq<seq<nat>>)
    ensures forall p: nat :: p in Flat(htable) <==> Linked(htable, p)
    decreases |htable|
  {
    if htable != [] {
      var k := |htable| - 1;
      FlatMembers(htable[..k]);
      forall p: nat ensures Linked(htable, p) <==> Linked(htable[..k], p) || p in htable[k] {
        if Linked(htable, p) {
          var i :| 0 <= i < |htable| && p in htable[i];
          assert i < k ==> p in htable[..k][i];
        }
        if Linked(htable[..k], p) {
          var i :| 0 <= i < |htable[..k]| && p in htable[..k][i];
          assert p in htable[i];
        }
      }
    }
  }

  lemma SlotsAgree(tab: Avtab, p: nat, i: nat, k: nat)
    requires tab.Valid() && i < |tab.htable| && k < |tab.htable| && p in tab.htable[i] && p in tab.htable[k]
    ensures i == k
  {
    SlotUnique(tab.hash, tab.pool, tab.htable, p, i, k);
  }

  lemma NotEarlier(tab: Avtab, i: nat, p: nat)
    requires tab.Valid() && i < |tab.htable| && p in tab.htable[i]
    ensures forall k :: 0 <= k < i ==> p !in tab.htable[k]
  {
    hide *;
    forall k | 0 <= k < i ensures p !in tab.htable[k] {
      if p in tab.htable[k] { SlotsAgree(tab, p, i, k); }
    }
  }

  lemma ChainDistinct(tab: Avtab, i: nat)
    requires tab.Valid() && i < |tab.htable|
    ensures NoDuplicates(tab.htable[i])
  {
    assert ChainOk(tab.hash, |tab.htable|, tab.pool, i, tab.htable[i]);
  }

  lemma AppendDistinct(a: seq<nat>, b: seq<nat>)
    requires NoDuplicates(a) && NoDuplicates(b) && forall j :: 0 <= j < |b| ==> b[j] !in a
    ensures NoDuplicates(a + b)
  {
  }

  lemma {:induction false} FlatDistinct(tab: Avtab, i: nat)
    requires tab.Valid() && i <= |tab.htable|
    ensures NoDuplicates(Flat(tab.htable[..i]))
    decreases i
  {
    if i > 0 {
      FlatDistinct(tab, i - 1);
      FlatStep(tab.htable, i - 1);
      FlatMembers(tab.htable[..i - 1]);
      ChainDistinct(tab, i - 1);
      var chain := tab.htable[i - 1];
      forall j | 0 <= j < |chain| ensures chain[j] !in Flat(tab.htable[..i - 1]) { NotEarlier(tab, i - 1, chain[j]); }
      AppendDistinct(Flat(tab.htable[..i - 1]), chain);
    }
  }

  /** What a table says of every concrete pair its rules cover. */
  ghost function TableSays(tm: TypeMaps, tab: Avtab): iset<Access>
    requires AllInRange(tm, tab.pool) && ChainsInPool(tab)
    reads tab
  {
    iset a: Access | SomeEntrySays(tm, tab.pool, tab.htable, a)
  }

  ghost predicate SomeEntrySays(tm: TypeMaps, pool: seq<Node>, htable: seq<seq<nat>>, a: Access)
    requires AllInRange(tm, pool)
  {
    exists p: nat :: Linked(htable, p) && p < |pool| && a in EntrySays(tm, pool[p])
  }

  lemma {:induction false} ListSaysMember(tm: TypeMaps, pool: seq<Node>, list: seq<nat>, a: Access)
    requires AllInRange(tm, pool) && InPool(pool, list)
    ensures a in ListSays(tm, pool, list) <==> exists p: nat :: p in list && p < |pool| && a in EntrySays(tm, pool[p])
    decreases |list|
  {
    hide EntrySays;
    if list != [] {
      ListSaysMember(tm, pool, list[..|list| - 1], a);
      assert list == list[..|list| - 1] + [list[|list| - 1]];
    }
  }

  /** Two different linked rules conflict. */
  ghost predicate TypeConflict(tm: TypeMaps, pool: seq<Node>, htable: seq<seq<nat>>)
    requires AllInRange(tm, pool)
  {
    exists p: nat, q: nat ::
      Linked(htable, p) && Linked(htable, q) && p != q && p < |pool| && q < |pool| && Conflict(tm, pool[p], pool[q])
  }

  lemma ConflictSymmetric(tm: TypeMaps, m: Node, n: Node)
    requires KeyInRange(tm, m) && KeyInRange(tm, n) && Conflict(tm, m, n)
    ensures Conflict(tm, n, m)
  {
    hide IsType, OfKind, Covers;
    var k: Kind :| IsType(k) && OfKind(m.key.specified, k) && OfKind(n.key.specified, k);
    var s :| s in Covers(tm, m.key.source) * Covers(tm, n.key.source);
    var t :| t in Covers(tm, m.key.target) * Covers(tm, n.key.target);
    assert s in Covers(tm, n.key.source) * Covers(tm, m.key.source);
    assert t in Covers(tm, n.key.target) * Covers(tm, m.key.target);
  }

  /** The walk meets every linked rule once. */
  lemma WalkMeets(tm: TypeMaps, tab: Avtab)
    requires tab.Valid() && AllInRange(tm, tab.pool) && ChainsInPool(tab)
    ensures InPool(tab.pool, Flat(tab.htable))
    ensures ListSays(tm, tab.pool, Flat(tab.htable)) == TableSays(tm, tab)
    ensures Conflicts(tm, tab.pool, Flat(tab.htable)) <==> TypeConflict(tm, tab.pool, tab.htable)
  {
    hide *;
    assert tab.htable[..|tab.htable|] == tab.htable;
    FlatMembers(tab.htable);
    FlatDistinct(tab, |tab.htable|);
    FlatInPool(tab);
    SaysWalked(tm, tab);
    ConflictWalked(tm, tab.pool, tab.htable, Flat(tab.htable));
  }

  lemma FlatInPool(tab: Avtab)
    requires tab.Valid()
    ensures InPool(tab.pool, Flat(tab.htable))
  {
    FlatMembers(tab.htable);
    var list := Flat(tab.htable);
    hide Flat, Linked;
    forall j | 0 <= j < |list| ensures list[j] < |tab.pool| {
      assert list[j] in list;
      LinkedSlot(tab.hash, tab.pool, tab.htable, list[j]);
    }
  }

  lemma SaysWalked(tm: TypeMaps, tab: Avtab)
    requires tab.Valid() && AllInRange(tm, tab.pool) && ChainsInPool(tab) && InPool(tab.pool, Flat(tab.htable))
    ensures ListSays(tm, tab.pool, Flat(tab.htable)) == TableSays(tm, tab)
  {
    FlatMembers(tab.htable);
    hide ListSays, Linked, EntrySays, Flat, Avtab.Valid, AllInRange;
    forall a: Access ensures a in ListSays(tm, tab.pool, Flat(tab.htable)) <==> a in TableSays(tm, tab) {
      ListSaysMember(tm, tab.pool, Flat(tab.htable), a);
    }
  }

  lemma ConflictWalked(tm: TypeMaps, pool: seq<Node>, htable: seq<seq<nat>>, list: seq<nat>)
    requires AllInRange(tm, pool) && InPool(pool, list) && NoDuplicates(list)
    requires forall p: nat :: p in list <==> Linked(htable, p)
    ensures Conflicts(tm, pool, list) <==> TypeConflict(tm, pool, htable)
  {
    hide Linked, Conflict, KeyInRange;
    if p: nat, q: nat :| Linked(htable, p) && Linked(htable, q) && p != q && p < |pool| && q < |pool| && Conflict(tm, pool[p], pool[q]) {
      assert KeyInRange(tm, pool[p]) && KeyInRange(tm, pool[q]);
      ConflictSymmetric(tm, pool[p], pool[q]);
      var a :| 0 <= a < |list| && list[a] == p;
      var b :| 0 <= b < |list| && list[b] == q;
      if a < b { assert Conflict(tm, pool[list[a]], pool[list[b]]); } else { assert Conflict(tm, pool[list[b]], pool[list[a]]); }
    }
    if a, b :| 0 <= a < b < |list| && Conflict(tm, pool[list[a]], pool[list[b]]) {
      assert list[a] in list && list[b] in list && list[a] != list[b];
    }
  }

  ghost predicate Entries(pool: seq<Node>, flags: Option<bool>) {
    forall p :: 0 <= p < |pool| ==> Entry(pool[p], flags)
  }

  method ExpandChain(tm: TypeMaps, a: Avtab, i: nat, expa: Avtab, ghost seen: seq<nat>, ghost flags: Option<bool>) returns (ok: bool)
    requires a != expa && AllInRange(tm, a.pool) && i < |a.htable| && InPool(a.pool, a.htable[i])
    requires Entries(a.pool, flags) && Expanded(tm, a.pool, seen, expa, flags)
    modifies expa
    ensures ok ==> Expanded(tm, a.pool, seen + a.htable[i], expa, flags)
    ensures !ok ==> exists k :: 0 < k <= |a.htable[i]| && InPool(a.pool, seen + a.htable[i][..k]) && Conflicts(tm, a.pool, seen + a.htable[i][..k])
  {
    hide AllInRange, Expanded, Conflicts, Entry;
    ghost var chain, pool := a.htable[i], a.pool;
    assert seen + chain[..0] == seen;
    for j := 0 to |a.htable[i]|
      invariant Expanded(tm, pool, seen + chain[..j], expa, flags)
    {
      assert seen + chain[..j + 1] == (seen + chain[..j]) + [chain[j]];
      ok := ExpandNext(tm, a.pool, a.htable[i][j], expa, seen + chain[..j], flags);
      if !ok { return; }
    }
    assert chain[..|chain|] == chain;
    ok := true;
  }

  /** A conflict among the first rules of a walk is one of the whole walk. */
  lemma ConflictStays(tm: TypeMaps, pool: seq<Node>, part: seq<nat>, list: seq<nat>)
    requires AllInRange(tm, pool) && InPool(pool, part) && InPool(pool, list) && part <= list
    requires Conflicts(tm, pool, part)
    ensures Conflicts(tm, pool, list)
  {
    hide Conflict;
    var a, b :| 0 <= a < b < |part| && Conflict(tm, pool[part[a]], pool[part[b]]);
    assert Conflict(tm, pool[list[a]], pool[list[b]]);
  }

  lemma {:induction false} FlatPrefix(htable: seq<seq<nat>>, i: nat, k: nat)
    requires i < |htable| && k <= |htable[i]|
    ensures Flat(htable[..i]) + htable[i][..k] <= Flat(htable)
    decreases |htable| - i
  {
    FlatStep(htable, i);
    assert htable[i] == htable[i][..k] + htable[i][k..];
    assert Flat(htable[..i]) + htable[i][..k] <= Flat(htable[..i + 1]);
    if i + 1 < |htable| {
      FlatPrefix(htable, i + 1, 0);
      assert Flat(htable[..i + 1]) + htable[i + 1][..0] == Flat(htable[..i + 1]);
    } else {
      assert htable[..i + 1] == htable;
    }
  }

  lemma StartGood(tm: TypeMaps, pool: seq<Node>, expa: Avtab, flags: Option<bool>)
    requires AllInRange(tm, pool) && expa.Valid() && expa.pool == [] && |expa.htable| > 0
    ensures Expanded(tm, pool, [], expa, flags)
  {
    assert TabSays(expa.pool, expa.htable) == iset{};
  }

  /**
     Expanding a table. On success the new table says of every concrete pair exactly what the
     old one did. It fails only on two type rules of one kind for one pair; when the enabled
     flags agree it fails exactly then, and otherwise leaves one node for each slot.
   */
  method ExpandAvtab(tm: TypeMaps, a: Avtab, expa: Avtab, ghost flags: Option<bool>) returns (ok: bool)
    requires a != expa && a.Valid() && AllInRange(tm, a.pool) && Entries(a.pool, flags)
    modifies expa
    ensures ChainsInPool(a)
    ensures ok ==> Good(expa, TableSays(tm, a), flags)
    ensures !ok ==> TypeConflict(tm, a.pool, a.htable)
    ensures flags.Some? ==> (ok <==> !TypeConflict(tm, a.pool, a.htable))
  {
    hide *;
    expa.Alloc(0x20_0000);
    SomeSlots(0x20_0000, |expa.htable|);
    ValidChains(a);
    WalkMeets(tm, a);
    StartGood(tm, a.pool, expa, flags);
    FlatNone();
    ok := WalkTable(tm, a, expa, flags);
    if ok { ExpandedParts(tm, a.pool, Flat(a.htable), expa, flags); }
  }

  lemma FlatNone()
    ensures Flat([]) == []
  {
  }

  method WalkTable(tm: TypeMaps, a: Avtab, expa: Avtab, ghost flags: Option<bool>) returns (ok: bool)
    requires a != expa && AllInRange(tm, a.pool) && ChainsInPool(a) && InPool(a.pool, Flat(a.htable))
    requires Entries(a.pool, flags) && Expanded(tm, a.pool, [], expa, flags)
    modifies expa
    ensures ok ==> Expanded(tm, a.pool, Flat(a.htable), expa, flags)
    ensures !ok ==> Conflicts(tm, a.pool, Flat(a.htable))
  {
    hide AllInRange, Expanded, Conflicts, Entries, Flat;
    ghost var htable, pool := a.htable, a.pool;
    FlatNone();
    for i := 0 to |a.htable|
      invariant Expanded(tm, pool, Flat(htable[..i]), expa, flags)
    {
      FlatStep(htable, i);
      ok := ExpandChain(tm, a, i, expa, Flat(htable[..i]), flags);
      if !ok {
        ghost var k :| 0 < k <= |htable[i]| && InPool(pool, Flat(htable[..i]) + htable[i][..k]) &&
          Conflicts(tm, pool, Flat(htable[..i]) + htable[i][..k]);
        FlatPrefix(htable, i, k);
        ConflictStays(tm, pool, Flat(htable[..i]) + htable[i][..k], Flat(htable));
        return;
      }
    }
    assert htable[..|htable|] == htable;
    ok := true;
  }

  // ---------------------------------------------------------------- what the expanded table means

  /**
     A type in a row brings along the attributes it is expanded from. Rows that hold attributes
     only, over attributes that hold types only, satisfy this.
   */
  ghost predicate AttributesClosed(tm: TypeMaps)
    requires tm.InRange()
  {
    forall s: nat, u: nat, m: nat ::
      tm.Concrete(s) && u in tm.typeAttr[s] && m < tm.Nprim() && tm.flavor[m] == Attribute && u in tm.attrType[m] ==> m in tm.typeAttr[s]
  }

  lemma PlainRowsClosed(tm: TypeMaps)
    requires tm.Valid() && RowsHoldAttributes(tm.flavor, tm.typeAttr)
    requires forall k, i :: 0 <= k < |tm.flavor| && i in tm.attrType[k] ==> tm.Concrete(i)
    ensures AttributesClosed(tm)
  {
    forall s: nat, u: nat, m: nat |
      tm.Concrete(s) && u in tm.typeAttr[s] && m < tm.Nprim() && tm.flavor[m] == Attribute && u in tm.attrType[m]
      ensures m in tm.typeAttr[s]
    {
      assert tm.Concrete(u);
      assert u == s;
    }
  }

  /** A rule on `value` is expanded to some type that the row of `s` holds. */
  ghost predicate Seen(tm: TypeMaps, value: nat, s: nat)
    requires tm.InRange() && 0 < value <= tm.Nprim() && tm.Concrete(s)
  {
    exists u :: u in Covers(tm, value) && u in tm.typeAttr[s]
  }

  /** For concrete types the access decision looks a rule up exactly where expansion puts it. */
  lemma CoversApplies(tm: TypeMaps, value: nat, s: nat)
    requires tm.Valid() && AttributesClosed(tm) && 0 < value <= tm.Nprim() && tm.Concrete(s) && tm.flavor[value - 1] != Gap
    ensures Seen(tm, value, s) <==> value - 1 in tm.typeAttr[s]
  {
    if value - 1 in tm.typeAttr[s] {
      var u := if tm.flavor[value - 1] == Attribute then s else value - 1;
      assert u in Covers(tm, value);
    }
  }

  /** Some pair that the rule is expanded to is looked up for `x`. */
  ghost predicate EntrySpeaks(tm: TypeMaps, n: Node, x: Access)
    requires KeyInRange(tm, n)
  {
    && tm.Concrete(x.s) && tm.Concrete(x.t) && Seen(tm, n.key.source, x.s) && Seen(tm, n.key.target, x.t)
    && n.key.tclass == x.c && Answers(n, x.q)
  }

  lemma SpeaksEntry(tm: TypeMaps, n: Node, x: Access)
    requires tm.Valid() && AttributesClosed(tm) && RuleOk(tm, n) && KeyInRange(tm, n)
    ensures Speaks(tm, n, x) <==> EntrySpeaks(tm, n, x)
  {
    if tm.Concrete(x.s) && tm.Concrete(x.t) {
      CoversApplies(tm, n.key.source, x.s);
      CoversApplies(tm, n.key.target, x.t);
    }
    hide Answers, Covers, OneKind, Seen;
  }

  /** The expanded table decides what the rules, expanded pair by pair, say about pairs looked up. */
  lemma ExpandedSpeaks(tm: TypeMaps, a: Avtab, expa: Avtab, flags: Option<bool>, x: Access)
    requires AllInRange(tm, a.pool) && ChainsInPool(a) && Good(expa, TableSays(tm, a), flags) && tm.InRange()
    ensures TableDecides(tm, expa.pool, expa.htable, x) <==>
      exists p: nat :: Linked(a.htable, p) && p < |a.pool| && EntrySpeaks(tm, a.pool[p], x)
  {
    hide Answers, Linked, NodesOk, Avtab.Valid, Covers;
    if tm.Concrete(x.s) && tm.Concrete(x.t) {
      if TableDecides(tm, expa.pool, expa.htable, x) {
        var q: nat :| Linked(expa.htable, q) && q < |expa.pool| && Speaks(tm, expa.pool[q], x);
        var n := expa.pool[q];
        var y := Access(n.key.source - 1, n.key.target - 1, n.key.tclass, x.q);
        assert NodeSays(n, y) && PoolSays(expa.pool, expa.htable, y);
        assert y in TabSays(expa.pool, expa.htable);
        var p: nat :| Linked(a.htable, p) && p < |a.pool| && y in EntrySays(tm, a.pool[p]);
        assert EntrySpeaks(tm, a.pool[p], x);
      }
      if p: nat :| Linked(a.htable, p) && p < |a.pool| && EntrySpeaks(tm, a.pool[p], x) {
        var n := a.pool[p];
        var u :| u in Covers(tm, n.key.source) && u in tm.typeAttr[x.s];
        var v :| v in Covers(tm, n.key.target) && v in tm.typeAttr[x.t];
        var y := Access(u, v, x.c, x.q);
        assert y in EntrySays(tm, n);
        assert y in TableSays(tm, a);
        assert PoolSays(expa.pool, expa.htable, y);
        var q: nat :| Linked(expa.htable, q) && q < |expa.pool| && NodeSays(expa.pool[q], y);
        assert Speaks(tm, expa.pool[q], x);
      }
    }
  }

  /** The expanded table gives the decision of the original one. */
  lemma ExpandedDecides(tm: TypeMaps, a: Avtab, expa: Avtab, flags: Option<bool>, x: Access)
    requires tm.Valid() && AttributesClosed(tm) && AllInRange(tm, a.pool) && ChainsInPool(a) && RulesOk(tm, a.pool)
    requires Good(expa, TableSays(tm, a), flags)
    ensures TableDecides(tm, expa.pool, expa.htable, x) <==> TableDecides(tm, a.pool, a.htable, x)
  {
    ExpandedSpeaks(tm, a, expa, flags, x);
    hide EntrySpeaks, Speaks, Good, Linked, TableSays, AttributesClosed, RuleOk, KeyInRange;
    forall p: nat | p < |a.pool| ensures Speaks(tm, a.pool[p], x) <==> EntrySpeaks(tm, a.pool[p], x) {
      SpeaksEntry(tm, a.pool[p], x);
    }
  }

  /** One allow rule from an attribute to a type. */
  ghost predicate SingleRule(tab: Avtab, m: nat, t: nat)
    reads tab
  {
    && tab.Valid() && tab.pool == [Node(Key(m + 1, t + 1, 1, ALLOWED), Datum(1, None))]
    && forall p: nat :: Linked(tab.htable, p) <==> p == 0
  }

  method SingleTable(hash: Hash, m: nat, t: nat) returns (tab: Avtab)
    ensures fresh(tab) && SingleRule(tab, m, t)
  {
    hide *;
    var key, datum := Key(m + 1, t + 1, 1, ALLOWED), Datum(1, None);
    tab := new Avtab(hash);
    tab.Alloc(1);
    SomeSlots(1, |tab.htable|);
    ghost var empty := tab.htable;
    EmptySlots(empty);
    var p := tab.InsertNonunique(key, datum);
    LinksOneLinked(empty, tab.htable, Slot(tab.hash, |tab.htable|, key), 0);
    AllowNode(key, datum);
    SingleIs(tab, m, t);
  }

  lemma AllowNode(key: Key, datum: Datum)
    requires key.specified == ALLOWED && datum == Datum(1, None)
    ensures NewNode(key, datum) == Node(key, datum) && OfKind(ALLOWED, Allow) && Meets(1, 1) && !IsEnabled(ALLOWED)
    ensures NodeOk(Node(key, datum))
  {
    assert !Has(ALLOWED, XPERMS) && !IsXperms(ALLOWED) && !Has(ALLOWED, ENABLED);
    assert OfKind(ALLOWED, Allow);
  }

  lemma SingleIs(tab: Avtab, m: nat, t: nat)
    requires tab.Valid() && tab.pool == [Node(Key(m + 1, t + 1, 1, ALLOWED), Datum(1, None))]
    requires forall p: nat :: Linked(tab.htable, p) <==> p == 0
    ensures SingleRule(tab, m, t)
  {
  }

  /**
     Exactly when: if a row holds a type without an attribute it is expanded from, a rule on
     that attribute grants more once it is expanded.
   */
  method OpenRowsGain(tm: TypeMaps, hash: Hash, s: nat, u: nat, m: nat) returns (a: Avtab, expa: Avtab, x: Access)
    requires tm.Valid() && tm.Concrete(s) && u in tm.typeAttr[s] && m < tm.Nprim() && tm.flavor[m] == Attribute
    requires u in tm.attrType[m] && m !in tm.typeAttr[s]
    ensures AllInRange(tm, a.pool) && ChainsInPool(a) && RulesOk(tm, a.pool)
    ensures Good(expa, TableSays(tm, a), Some(false))
    ensures TableDecides(tm, expa.pool, expa.htable, x) && !TableDecides(tm, a.pool, a.htable, x)
  {
    hide *;
    a := SingleTable(hash, m, s);
    x := Access(s, s, 1, Bits(Allow, 1));
    SingleFacts(tm, a, s, u, m, x);
    expa := new Avtab(hash);
    var ok := ExpandAvtab(tm, a, expa, Some(false));
    ExpandedSpeaks(tm, a, expa, Some(false), x);
    assert EntrySpeaks(tm, a.pool[0], x);
  }

  lemma SingleFacts(tm: TypeMaps, a: Avtab, s: nat, u: nat, m: nat, x: Access)
    requires tm.Valid() && tm.Concrete(s) && u in tm.typeAttr[s] && m < tm.Nprim() && tm.flavor[m] == Attribute
    requires u in tm.attrType[m] && m !in tm.typeAttr[s] && SingleRule(a, m, s) && x == Access(s, s, 1, Bits(Allow, 1))
    ensures tm.InRange() && a.Valid() && AllInRange(tm, a.pool) && RulesOk(tm, a.pool) && Entries(a.pool, Some(false))
    ensures |a.pool| == 1 && Linked(a.htable, 0) && KeyInRange(tm, a.pool[0]) && EntrySpeaks(tm, a.pool[0], x)
    ensures !TypeConflict(tm, a.pool, a.htable) && !TableDecides(tm, a.pool, a.htable, x)
  {
    AllowNode(a.pool[0].key, a.pool[0].datum);
    hide OfKind, Meets, Has, Linked, IsXperms, Avtab.Valid, IsEnabled;
    assert u in Covers(tm, m + 1) && s in Covers(tm, s + 1);
    assert Seen(tm, m + 1, s) && Seen(tm, s + 1, s);
    assert !Speaks(tm, a.pool[0], x);
  }

  /** With one node for each slot, a node's mask is the union of what the rules grant. */
  lemma MaskIsUnion(tm: TypeMaps, a: Avtab, expa: Avtab, on: bool, p: nat, k: Kind, mask: bv32)
    requires AllInRange(tm, a.pool) && ChainsInPool(a) && Good(expa, TableSays(tm, a), Some(on))
    requires Linked(expa.htable, p) && p < |expa.pool| && IsAv(k) && OfKind(expa.pool[p].key.specified, k)
    requires expa.pool[p].key.source > 0 && expa.pool[p].key.target > 0
    ensures Meets(Effect(k, expa.pool[p].datum.data), mask) <==>
      Access(expa.pool[p].key.source - 1, expa.pool[p].key.target - 1, expa.pool[p].key.tclass, Bits(k, mask)) in TableSays(tm, a)
  {
    var n := expa.pool[p];
    var x := Access(n.key.source - 1, n.key.target - 1, n.key.tclass, Bits(k, mask));
    assert Meets(Effect(k, n.datum.data), mask) <==> NodeSays(n, x);
    assert x in TabSays(expa.pool, expa.htable) <==> PoolSays(expa.pool, expa.htable, x);
    hide Meets, Effect, IsAv, NodesOk, Avtab.Valid, TableSays, TabSays;
    if PoolSays(expa.pool, expa.htable, x) {
      var q: nat :| Linked(expa.htable, q) && q < |expa.pool| && NodeSays(expa.pool[q], x);
      SameKindSlot(n, expa.pool[q], k);
      assert q == p;
    }
  }

  lemma SameKindSlot(m: Node, n: Node, k: Kind)
    requires SameTriple(m.key, n.key) && IsAv(k) && OfKind(m.key.specified, k) && OfKind(n.key.specified, k)
    ensures SameSlot(m, n)
  {
    OverlapSameKind(m.key.specified, n.key.specified, k, k);
    KindFacts(m.key.specified, k);
  }
}
