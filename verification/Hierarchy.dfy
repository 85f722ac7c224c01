/**
 The type-bounds check (src/hierarchy.c): a child type may do to a target no more than its
 parent may do to the target's bound. Parent rules are expanded into temporary tables, one
 pair per conditional plus a global one, and every child rule is looked up in them.
 */
module Hierarchy {
  import opened Prelude
  import opened Masks
  import opened Avtab
  import opened TypeMaps
  import opened AccessDecision
  import opened CondExpr
  import opened PolicyDb

  const BOUNDS_AVTAB_SIZE: nat := 1024

  /** One permission bit on one target type (numbered from 0) and class. */
  datatype Perm = Perm(target: nat, tclass: nat, bit: nat)

  /** The permissions a rule gives source type `s`. */
  ghost function RulePerms(tm: TypeMaps, n: Node, s: nat): iset<Perm>
    requires KeyInRange(tm, n)
  {
    iset x: Perm |
      && s in tm.attrType[n.key.source - 1] && x.target in tm.attrType[n.key.target - 1]
      && x.tclass == n.key.tclass && BitSet(n.datum.data, x.bit)
  }

  /** The permissions of a list of rules: all of them, or its allow rules only. */
  ghost function ListPerms(tm: TypeMaps, pool: seq<Node>, list: seq<nat>, s: nat, allowOnly: bool): iset<Perm>
    requires AllInRange(tm, pool) && InPool(pool, list)
  {
    if list == [] then iset{}
    else
      var k := |list| - 1;
      var rest := ListPerms(tm, pool, list[..k], s, allowOnly);
      if allowOnly && !Has(pool[list[k]].key.specified, ALLOWED) then rest
      else rest + RulePerms(tm, pool[list[k]], s)
  }

  /** The allow permissions of a whole table. */
  ghost function TablePerms(tm: TypeMaps, pool: seq<Node>, htable: seq<seq<nat>>, s: nat): iset<Perm>
    requires AllInRange(tm, pool) && forall i :: 0 <= i < |htable| ==> InPool(pool, htable[i])
  {
    if htable == [] then iset{}
    else
      var k := |htable| - 1;
      TablePerms(tm, pool, htable[..k], s) + ListPerms(tm, pool, htable[k], s, true)
  }

  // ---------------------------------------------------------------- the temporary tables

  /** A temporary table holds allow rules only, one for each key. */
  ghost predicate Scratch(tab: Avtab)
    reads tab
  {
    && tab.Valid()
    && (forall p :: 0 <= p < |tab.pool| ==> tab.pool[p].key.specified == ALLOWED)
    && forall p: nat, q: nat :: (Linked(tab.htable, p) && Linked(tab.htable, q) && p < |tab.pool| && q < |tab.pool| &&
         SameTriple(tab.pool[p].key, tab.pool[q].key)) ==> p == q
  }

  function KeyFor(parent: nat, target: nat, tclass: nat): Key {
    Key(parent, target + 1, tclass, ALLOWED)
  }

  ghost predicate InTab(pool: seq<Node>, htable: seq<seq<nat>>, parent: nat, x: Perm) {
    exists p: nat :: Hit(pool, htable, KeyFor(parent, x.target, x.tclass), p) && BitSet(pool[p].datum.data, x.bit)
  }

  /** What a temporary table records for the parent. */
  ghost function TabPerms(tab: Avtab?, parent: nat): iset<Perm>
    reads tab
  {
    if tab == null then iset{} else iset x: Perm | InTab(tab.pool, tab.htable, parent, x)
  }

  /** The tables a rule is expanded into, and what may be assumed of them. */
  ghost predicate Tables(tab: Avtab, global: Avtab?, other: Avtab?)
    reads tab, global, other
  {
    && Scratch(tab) && |tab.htable| > 0 && global != tab
    && (other != null ==>
         && Scratch(other) && other != tab
         && global != null && global != other && Scratch(global) && |global.htable| > 0)
  }

  ghost function KeyPerms(target: nat, tclass: nat, data: bv32): iset<Perm> {
    iset x: Perm | x.target == target && x.tclass == tclass && BitSet(data, x.bit)
  }

  // ---------------------------------------------------------------- one key at a time

  lemma HitTriple(pool: seq<Node>, htable: seq<seq<nat>>, key: Key, p: nat)
    requires Hit(pool, htable, key, p) && key.specified == ALLOWED
    ensures p < |pool| && SameTriple(key, pool[p].key)
  {
  }

  lemma TripleHit(pool: seq<Node>, htable: seq<seq<nat>>, key: Key, p: nat)
    requires Linked(htable, p) && p < |pool| && SameTriple(key, pool[p].key)
    requires key.specified == ALLOWED && pool[p].key.specified == ALLOWED
    ensures Hit(pool, htable, key, p)
  {
  }

  /** Adds permissions to the node of a key, or a new node. */
  method AddPerms(tab: Avtab, parent: nat, target: nat, tclass: nat, data: bv32) returns (rc: Status)
    requires Scratch(tab) && |tab.htable| > 0
    modifies tab
    ensures rc == Ok && Scratch(tab) && |tab.htable| > 0
    ensures TabPerms(tab, parent) == old(TabPerms(tab, parent)) + KeyPerms(target, tclass, data)
  {
    var key := KeyFor(parent, target, tclass);
    ghost var pool, htable := tab.pool, tab.htable;
    var dup := tab.Search(key);
    if dup.None? {
      AllowIsPlain();
      rc := tab.Insert(key, Datum(data, None));
      NewNodePlain(key, data);
      AddedNode(tab, pool, htable, parent, target, tclass, data);
    } else {
      tab.SetDatum(dup.value, tab.pool[dup.value].datum.(data := Union(tab.pool[dup.value].datum.data, data)));
      MergedNode(tab, pool, htable, parent, target, tclass, data, dup.value);
      rc := Ok;
    }
  }

  lemma AllowIsPlain()
    ensures !IsXperms(ALLOWED)
  {
  }

  lemma NewNodePlain(key: Key, data: bv32)
    requires key.specified == ALLOWED
    ensures NewNode(key, Datum(data, None)) == Node(key, Datum(data, None))
  {
  }

  lemma AddedNode(tab: Avtab, pool: seq<Node>, htable: seq<seq<nat>>, parent: nat, target: nat, tclass: nat, data: bv32)
    requires tab.Valid() && |tab.htable| > 0
    requires forall p :: 0 <= p < |pool| ==> pool[p].key.specified == ALLOWED
    requires forall p: nat, q: nat :: (Linked(htable, p) && Linked(htable, q) && p < |pool| && q < |pool| &&
      SameTriple(pool[p].key, pool[q].key)) ==> p == q
    requires forall p: nat :: !Hit(pool, htable, KeyFor(parent, target, tclass), p)
    requires tab.pool == pool + [Node(KeyFor(parent, target, tclass), Datum(data, None))]
    requires exists i: nat :: LinksOne(htable, tab.htable, i, |pool|)
    ensures Scratch(tab)
    ensures TabPerms(tab, parent) == (iset x: Perm | InTab(pool, htable, parent, x)) + KeyPerms(target, tclass, data)
  {
    var i: nat :| LinksOne(htable, tab.htable, i, |pool|);
    LinksOneLinked(htable, tab.htable, i, |pool|);
    hide Linked, LinksOne, BitSet, Matches, Avtab.Valid;
    forall p: nat | Linked(htable, p) && p < |pool| && SameTriple(KeyFor(parent, target, tclass), pool[p].key) ensures false {
      TripleHit(pool, htable, KeyFor(parent, target, tclass), p);
    }
    forall x: Perm ensures InTab(tab.pool, tab.htable, parent, x) <==> InTab(pool, htable, parent, x) || x in KeyPerms(target, tclass, data) {
      var key := KeyFor(parent, x.target, x.tclass);
      if InTab(tab.pool, tab.htable, parent, x) {
        var p: nat :| Hit(tab.pool, tab.htable, key, p) && BitSet(tab.pool[p].datum.data, x.bit);
        HitTriple(tab.pool, tab.htable, key, p);
        if p < |pool| { assert Hit(pool, htable, key, p); }
      }
      if InTab(pool, htable, parent, x) {
        var p: nat :| Hit(pool, htable, key, p) && BitSet(pool[p].datum.data, x.bit);
        assert Hit(tab.pool, tab.htable, key, p);
      }
      if x in KeyPerms(target, tclass, data) { TripleHit(tab.pool, tab.htable, key, |pool|); }
    }
  }

  lemma MergedNode(tab: Avtab, pool: seq<Node>, htable: seq<seq<nat>>, parent: nat, target: nat, tclass: nat, data: bv32, m: nat)
    requires tab.Valid() && tab.htable == htable && m < |pool|
    requires forall p :: 0 <= p < |pool| ==> pool[p].key.specified == ALLOWED
    requires forall p: nat, q: nat :: (Linked(htable, p) && Linked(htable, q) && p < |pool| && q < |pool| &&
      SameTriple(pool[p].key, pool[q].key)) ==> p == q
    requires Hit(pool, htable, KeyFor(parent, target, tclass), m)
    requires tab.pool == pool[m := Node(pool[m].key, pool[m].datum.(data := Union(pool[m].datum.data, data)))]
    ensures Scratch(tab)
    ensures TabPerms(tab, parent) == (iset x: Perm | InTab(pool, htable, parent, x)) + KeyPerms(target, tclass, data)
  {
    hide InTab, KeyPerms;
    forall x: Perm ensures InTab(tab.pool, htable, parent, x) <==> InTab(pool, htable, parent, x) || x in KeyPerms(target, tclass, data) {
      MergedPerm(pool, tab.pool, htable, parent, target, tclass, data, m, x);
    }
  }

  lemma MergedPerm(pool: seq<Node>, pool': seq<Node>, htable: seq<seq<nat>>,
                   parent: nat, target: nat, tclass: nat, data: bv32, m: nat, x: Perm)
    requires forall p: nat, q: nat :: (Linked(htable, p) && Linked(htable, q) && p < |pool| && q < |pool| &&
      SameTriple(pool[p].key, pool[q].key)) ==> p == q
    requires m < |pool| && Hit(pool, htable, KeyFor(parent, target, tclass), m)
    requires pool' == pool[m := Node(pool[m].key, pool[m].datum.(data := Union(pool[m].datum.data, data)))]
    ensures InTab(pool', htable, parent, x) <==> InTab(pool, htable, parent, x) || x in KeyPerms(target, tclass, data)
  {
    HitTriple(pool, htable, KeyFor(parent, target, tclass), m);
    hide Hit, Linked, BitSet, Matches, Union;
    var key := KeyFor(parent, x.target, x.tclass);
    forall p: nat ensures Hit(pool', htable, key, p) <==> Hit(pool, htable, key, p) { SameHits(pool, pool', htable, key, p); }
    if key == KeyFor(parent, target, tclass) {
      BitUnion(pool[m].datum.data, data, x.bit);
      forall p: nat | Hit(pool, htable, key, p) ensures p == m {
        HitTriple(pool, htable, key, p);
        HitLinked(pool, htable, key, p);
        HitLinked(pool, htable, key, m);
      }
    } else {
      forall p: nat | Hit(pool, htable, key, p) ensures p != m { HitTriple(pool, htable, key, p); }
    }
  }

  lemma SameHits(a: seq<Node>, b: seq<Node>, htable: seq<seq<nat>>, key: Key, p: nat)
    requires |a| == |b| && forall q :: 0 <= q < |a| ==> a[q].key == b[q].key
    ensures Hit(a, htable, key, p) <==> Hit(b, htable, key, p)
  {
  }

  /** Looking a key up gives all its permissions. */
  lemma FoundPerms(tab: Avtab, parent: nat, target: nat, tclass: nat, p: nat)
    requires Scratch(tab) && Hit(tab.pool, tab.htable, KeyFor(parent, target, tclass), p)
    ensures forall bit: nat :: Perm(target, tclass, bit) in TabPerms(tab, parent) <==> BitSet(tab.pool[p].datum.data, bit)
  {
    var key := KeyFor(parent, target, tclass);
    HitTriple(tab.pool, tab.htable, key, p);
    hide BitSet, Linked, Matches, Avtab.Valid;
    forall bit: nat ensures Perm(target, tclass, bit) in TabPerms(tab, parent) <==> BitSet(tab.pool[p].datum.data, bit) {
      var x := Perm(target, tclass, bit);
      if x in TabPerms(tab, parent) {
        assert InTab(tab.pool, tab.htable, parent, x);
        var q: nat :| Hit(tab.pool, tab.htable, key, q) && BitSet(tab.pool[q].datum.data, bit);
        HitTriple(tab.pool, tab.htable, key, q);
        HitLinked(tab.pool, tab.htable, key, p);
        HitLinked(tab.pool, tab.htable, key, q);
      }
      if BitSet(tab.pool[p].datum.data, bit) { assert InTab(tab.pool, tab.htable, parent, x); }
    }
  }

  lemma HitLinked(pool: seq<Node>, htable: seq<seq<nat>>, key: Key, p: nat)
    requires Hit(pool, htable, key, p)
    ensures Linked(htable, p)
  {
  }

  lemma MissedPerms(tab: Avtab, parent: nat, target: nat, tclass: nat)
    requires forall p: nat :: !Hit(tab.pool, tab.htable, KeyFor(parent, target, tclass), p)
    ensures forall bit: nat :: Perm(target, tclass, bit) !in TabPerms(tab, parent)
  {
  }

  /**
     Adds a parent permission to one table and, where the other branch's table grants it too,
     to the global one.
   */
  method BoundsInsertRule(tab: Avtab, global: Avtab?, other: Avtab?, parent: nat, target: nat, tclass: nat, data: bv32)
    returns (rc: Status)
    requires Tables(tab, global, other)
    modifies tab, if other != null then {global} else {}
    ensures rc == Ok && Tables(tab, global, other)
    ensures TabPerms(tab, parent) == old(TabPerms(tab, parent)) + KeyPerms(target, tclass, data)
    ensures TabPerms(other, parent) == old(TabPerms(other, parent))
    ensures TabPerms(global, parent) == old(TabPerms(global, parent)) + KeyPerms(target, tclass, data) * TabPerms(other, parent)
  {
    if other == null { assert TabPerms(other, parent) == iset{}; }
    hide TabPerms, Scratch, Hit, Intersection, BitSet;
    rc := AddPerms(tab, parent, target, tclass, data);
    if other != null {
      var dup := SearchScratch(other, KeyFor(parent, target, tclass));
      if dup.Some? {
        FoundPerms(other, parent, target, tclass, dup.value);
        ghost var have := other.pool[dup.value].datum.data;
        forall bit: nat ensures BitSet(Intersection(have, data), bit) <==> BitSet(have, bit) && BitSet(data, bit) {
          BitIntersection(have, data, bit);
        }
        var common := Intersection(other.pool[dup.value].datum.data, data);
        assert KeyPerms(target, tclass, common) == KeyPerms(target, tclass, data) * TabPerms(other, parent);
        if common != 0 {
          rc := AddPerms(global, parent, target, tclass, common);
        } else {
          forall bit: nat ensures !BitSet(0, bit) { BitZero(bit); }
          assert KeyPerms(target, tclass, common) == iset{};
        }
      } else {
        MissedPerms(other, parent, target, tclass);
        assert KeyPerms(target, tclass, data) * TabPerms(other, parent) == iset{};
      }
    }
  }

  method SearchScratch(tab: Avtab, key: Key) returns (p: Option<nat>)
    requires Scratch(tab)
    ensures p.Some? ==> p.value < |tab.pool| && Hit(tab.pool, tab.htable, key, p.value)
    ensures p.None? ==> forall q: nat :: !Hit(tab.pool, tab.htable, key, q)
  {
    p := tab.Search(key);
  }

  // ---------------------------------------------------------------- expanding the parent

  /** The part of a rule's permissions on targets below `k`. */
  ghost function Below(perms: iset<Perm>, k: nat): iset<Perm> {
    iset x: Perm | x in perms && x.target < k
  }

  lemma BelowStep(tm: TypeMaps, n: Node, s: nat, k: nat)
    requires KeyInRange(tm, n) && s in tm.attrType[n.key.source - 1]
    ensures Below(RulePerms(tm, n, s), k + 1) == Below(RulePerms(tm, n, s), k)
      + (if k in tm.attrType[n.key.target - 1] then KeyPerms(k, n.key.tclass, n.datum.data) else iset{})
  {
    hide BitSet;
  }

  lemma BelowAll(tm: TypeMaps, n: Node, s: nat)
    requires KeyInRange(tm, n)
    ensures Below(RulePerms(tm, n, s), 0) == iset{}
    ensures Below(RulePerms(tm, n, s), |tm.flavor|) == RulePerms(tm, n, s)
  {
    hide BitSet;
  }

  /** One more share of permissions, and of those also in `w`. */
  lemma GrowBoth(a: iset<Perm>, b: iset<Perm>, c: iset<Perm>, w: iset<Perm>)
    ensures a + b + c == a + (b + c)
    ensures a + b * w + c * w == a + (b + c) * w
  {
  }

  method BoundsExpandRule(tm: TypeMaps, tab: Avtab, global: Avtab?, other: Avtab?, parent: nat, n: Node) returns (rc: Status)
    requires Tables(tab, global, other) && KeyInRange(tm, n) && parent > 0
    modifies tab, if other != null then {global} else {}
    ensures rc == Ok && Tables(tab, global, other)
    ensures TabPerms(tab, parent) == old(TabPerms(tab, parent)) + RulePerms(tm, n, parent - 1)
    ensures TabPerms(other, parent) == old(TabPerms(other, parent))
    ensures TabPerms(global, parent) == old(TabPerms(global, parent)) + RulePerms(tm, n, parent - 1) * TabPerms(other, parent)
  {
    hide *;
    rc := Ok;
    ghost var perms, w := RulePerms(tm, n, parent - 1), TabPerms(other, parent);
    InRangeFacts(tm, n);
    BelowAll(tm, n, parent - 1);
    if parent - 1 in tm.attrType[n.key.source - 1] {
      ghost var a, g := TabPerms(tab, parent), TabPerms(global, parent);
      for i := 0 to |tm.flavor|
        invariant rc == Ok && Tables(tab, global, other)
        invariant TabPerms(tab, parent) == a + Below(perms, i)
        invariant TabPerms(other, parent) == w
        invariant TabPerms(global, parent) == g + Below(perms, i) * w
      {
        BelowStep(tm, n, parent - 1, i);
        if i in tm.attrType[n.key.target - 1] {
          GrowBoth(a, Below(perms, i), KeyPerms(i, n.key.tclass, n.datum.data), w);
          GrowBoth(g, Below(perms, i), KeyPerms(i, n.key.tclass, n.datum.data), w);
          rc := BoundsInsertRule(tab, global, other, parent, i, n.key.tclass, n.datum.data);
        } else {
          assert Below(perms, i + 1) == Below(perms, i);
        }
      }
    } else {
      NoSource(tm, n, parent - 1);
    }
  }

  lemma InRangeFacts(tm: TypeMaps, n: Node)
    requires KeyInRange(tm, n)
    ensures tm.InRange() && |tm.attrType| == |tm.flavor|
    ensures 0 < n.key.source <= |tm.flavor| && 0 < n.key.target <= |tm.flavor|
  {
  }

  lemma NoSource(tm: TypeMaps, n: Node, s: nat)
    requires KeyInRange(tm, n) && s !in tm.attrType[n.key.source - 1]
    ensures RulePerms(tm, n, s) == iset{}
  {
  }

  lemma ListStep(tm: TypeMaps, pool: seq<Node>, list: seq<nat>, k: nat, s: nat, allowOnly: bool)
    requires AllInRange(tm, pool) && InPool(pool, list) && k < |list|
    ensures ListPerms(tm, pool, list[..k + 1], s, allowOnly) == ListPerms(tm, pool, list[..k], s, allowOnly)
      + (if allowOnly && !Has(pool[list[k]].key.specified, ALLOWED) then iset{} else RulePerms(tm, pool[list[k]], s))
  {
    assert list[..k + 1][..k] == list[..k];
    hide RulePerms;
  }

  /** Expands a conditional list; unlike the child's side, rules of any kind are taken. */
  method BoundsExpandCondRules(tm: TypeMaps, pool: seq<Node>, list: seq<nat>, tab: Avtab, global: Avtab?, other: Avtab?, parent: nat)
    returns (rc: Status)
    requires Tables(tab, global, other) && AllInRange(tm, pool) && InPool(pool, list) && parent > 0
    modifies tab, if other != null then {global} else {}
    ensures rc == Ok && Tables(tab, global, other)
    ensures TabPerms(tab, parent) == old(TabPerms(tab, parent)) + ListPerms(tm, pool, list, parent - 1, false)
    ensures TabPerms(other, parent) == old(TabPerms(other, parent))
    ensures TabPerms(global, parent) ==
      old(TabPerms(global, parent)) + ListPerms(tm, pool, list, parent - 1, false) * TabPerms(other, parent)
  {
    rc := Ok;
    ghost var s, w := parent - 1, TabPerms(other, parent);
    ghost var a, g := TabPerms(tab, parent), TabPerms(global, parent);
    NoPerms(tm, pool, s);
    hide *;
    for k := 0 to |list|
      invariant rc == Ok && Tables(tab, global, other)
      invariant TabPerms(tab, parent) == a + ListPerms(tm, pool, list[..k], s, false)
      invariant TabPerms(other, parent) == w
      invariant TabPerms(global, parent) == g + ListPerms(tm, pool, list[..k], s, false) * w
    {
      ListStep(tm, pool, list, k, s, false);
      InRangeAt(tm, pool, list, k);
      GrowBoth(a, ListPerms(tm, pool, list[..k], s, false), RulePerms(tm, pool[list[k]], s), w);
      GrowBoth(g, ListPerms(tm, pool, list[..k], s, false), RulePerms(tm, pool[list[k]], s), w);
      rc := BoundsExpandRule(tm, tab, global, other, parent, pool[list[k]]);
    }
    assert list[..|list|] == list;
  }

  lemma TableStep(tm: TypeMaps, pool: seq<Node>, htable: seq<seq<nat>>, i: nat, s: nat)
    requires AllInRange(tm, pool) && i < |htable| && forall k :: 0 <= k < |htable| ==> InPool(pool, htable[k])
    ensures TablePerms(tm, pool, htable[..i + 1], s) ==
      TablePerms(tm, pool, htable[..i], s) + ListPerms(tm, pool, htable[i], s, true)
  {
    assert htable[..i + 1][..i] == htable[..i];
    hide ListPerms;
  }

  /** Expands the allow rules of one hash chain. */
  method ExpandChain(tm: TypeMaps, te: Avtab, i: nat, tab: Avtab, parent: nat) returns (rc: Status)
    requires i < |te.htable| && AllInRange(tm, te.pool) && InPool(te.pool, te.htable[i])
    requires te != tab && Tables(tab, null, null) && parent > 0
    modifies tab
    ensures rc == Ok && Tables(tab, null, null)
    ensures TabPerms(tab, parent) == old(TabPerms(tab, parent)) + ListPerms(tm, te.pool, te.htable[i], parent - 1, true)
  {
    rc := Ok;
    ghost var s, a, pool, chain := parent - 1, TabPerms(tab, parent), te.pool, te.htable[i];
    NoPerms(tm, pool, s);
    hide *;
    for j := 0 to |te.htable[i]|
      invariant rc == Ok && Tables(tab, null, null)
      invariant TabPerms(tab, parent) == a + ListPerms(tm, pool, chain[..j], s, true)
    {
      ListStep(tm, pool, chain, j, s, true);
      InRangeAt(tm, pool, chain, j);
      if Has(te.pool[te.htable[i][j]].key.specified, ALLOWED) {
        GrowBoth(a, ListPerms(tm, pool, chain[..j], s, true), RulePerms(tm, pool[chain[j]], s), iset{});
        rc := BoundsExpandRule(tm, tab, null, null, parent, te.pool[te.htable[i][j]]);
      } else {
        assert ListPerms(tm, pool, chain[..j + 1], s, true) == ListPerms(tm, pool, chain[..j], s, true);
      }
    }
    assert chain[..|chain|] == chain;
  }

  /** Walks the unconditional table and expands its allow rules. */
  method ExpandTable(tm: TypeMaps, te: Avtab, tab: Avtab, parent: nat) returns (rc: Status)
    requires ChainsInPool(te) && AllInRange(tm, te.pool) && te != tab && Tables(tab, null, null) && parent > 0
    modifies tab
    ensures rc == Ok && Tables(tab, null, null)
    ensures TabPerms(tab, parent) == old(TabPerms(tab, parent)) + TablePerms(tm, te.pool, te.htable, parent - 1)
  {
    rc := Ok;
    ghost var s, a, pool, htable := parent - 1, TabPerms(tab, parent), te.pool, te.htable;
    NoPerms(tm, pool, s);
    forall i | 0 <= i < |htable| ensures InPool(pool, htable[i]) { }
    hide *;
    for i := 0 to |te.htable|
      invariant rc == Ok && Tables(tab, null, null)
      invariant TabPerms(tab, parent) == a + TablePerms(tm, pool, htable[..i], s)
    {
      TableStep(tm, pool, htable, i, s);
      GrowBoth(a, TablePerms(tm, pool, htable[..i], s), ListPerms(tm, pool, htable[i], s, true), iset{});
      rc := ExpandChain(tm, te, i, tab, parent);
    }
    assert htable[..|htable|] == htable;
  }

  lemma NoPerms(tm: TypeMaps, pool: seq<Node>, s: nat)
    requires AllInRange(tm, pool)
    ensures TablePerms(tm, pool, [], s) == iset{}
    ensures ListPerms(tm, pool, [], s, true) == iset{} && ListPerms(tm, pool, [], s, false) == iset{}
  {
  }

  lemma InRangeAt(tm: TypeMaps, pool: seq<Node>, list: seq<nat>, k: nat)
    requires AllInRange(tm, pool) && InPool(pool, list) && k < |list|
    ensures list[k] < |pool| && KeyInRange(tm, pool[list[k]])
  {
  }

  /** The tables of one conditional. */
  datatype CondInfo = CondInfo(trueTab: Avtab, falseTab: Avtab, cond: CondNode)

  ghost predicate InfoOk(tm: TypeMaps, pool: seq<Node>, parent: nat, cn: CondNode, info: CondInfo)
    requires AllInRange(tm, pool) && parent > 0
    reads info.trueTab, info.falseTab
  {
    && info.cond == cn && ListsInRange(pool, cn)
    && Scratch(info.trueTab) && Scratch(info.falseTab)
    && TabPerms(info.trueTab, parent) == ListPerms(tm, pool, cn.trueList, parent - 1, false)
    && TabPerms(info.falseTab, parent) == ListPerms(tm, pool, cn.falseList, parent - 1, false)
  }

  /** What a conditional gives on both branches. */
  ghost function Common(tm: TypeMaps, pool: seq<Node>, cn: CondNode, s: nat, strict: bool): iset<Perm>
    requires AllInRange(tm, pool) && ListsInRange(pool, cn)
  {
    ListPerms(tm, pool, cn.falseList, s, strict) * ListPerms(tm, pool, cn.trueList, s, strict)
  }

  /** The same over the first `k` conditionals. */
  ghost function AllCommon(tm: TypeMaps, pool: seq<Node>, conds: seq<CondNode>, k: nat, s: nat, strict: bool): iset<Perm>
    requires AllInRange(tm, pool) && AllLists(pool, conds) && k <= |conds|
  {
    if k == 0 then iset{}
    else AllCommon(tm, pool, conds, k - 1, s, strict) + Common(tm, pool, conds[k - 1], s, strict)
  }

  lemma CommonStep(tm: TypeMaps, pool: seq<Node>, conds: seq<CondNode>, k: nat, s: nat, base: iset<Perm>)
    requires AllInRange(tm, pool) && AllLists(pool, conds) && k < |conds|
    ensures ListsInRange(pool, conds[k])
    ensures base + AllCommon(tm, pool, conds, k + 1, s, false) == base + AllCommon(tm, pool, conds, k, s, false) + Common(tm, pool, conds[k], s, false)
    ensures AllCommon(tm, pool, conds, 0, s, false) == iset{}
  {
    assert ListsInRange(pool, conds[k]);
    hide Common, ListsInRange;
  }

  lemma EmptyTab(tab: Avtab, parent: nat)
    requires tab.Valid() && tab.pool == []
    ensures Scratch(tab) && TabPerms(tab, parent) == iset{}
  {
  }

  /** A table that is allocated only when it will hold something. */
  method NewTab(hash: Hash, list: seq<nat>, ghost parent: nat) returns (tab: Avtab)
    ensures fresh(tab) && Scratch(tab) && TabPerms(tab, parent) == iset{}
    ensures list != [] ==> Tables(tab, null, null)
  {
    tab := new Avtab(hash);
    if list != [] { tab.Alloc(BOUNDS_AVTAB_SIZE); }
    EmptyTab(tab, parent);
  }

  /** Both branches of one conditional. */
  method ExpandCond(tm: TypeMaps, hash: Hash, pool: seq<Node>, cn: CondNode, global: Avtab, parent: nat)
    returns (rc: Status, info: CondInfo)
    requires AllInRange(tm, pool) && ListsInRange(pool, cn) && Tables(global, null, null) && parent > 0
    modifies global
    ensures rc == Ok && Tables(global, null, null)
    ensures fresh(info.trueTab) && fresh(info.falseTab) && InfoOk(tm, pool, parent, cn, info)
    ensures TabPerms(global, parent) == old(TabPerms(global, parent)) + Common(tm, pool, cn, parent - 1, false)
  {
    rc := Ok;
    NoPerms(tm, pool, parent - 1);
    hide TabPerms, ListPerms, Scratch, AllInRange, InPool;
    var trueTab := NewTab(hash, cn.trueList, parent);
    if cn.trueList != [] {
      rc := BoundsExpandCondRules(tm, pool, cn.trueList, trueTab, null, null, parent);
    }
    var falseTab := NewTab(hash, cn.falseList, parent);
    if cn.falseList != [] {
      rc := BoundsExpandCondRules(tm, pool, cn.falseList, falseTab, global, trueTab, parent);
    }
    info := CondInfo(trueTab, falseTab, cn);
  }

  /**
     The permissions the parent has whatever branches are taken: those of allow rules when
     `strict`, else, as the check counts them, those of conditional rules of any kind.
   */
  ghost function Steady(tm: TypeMaps, te: Avtab, pool: seq<Node>, conds: seq<CondNode>, s: nat, strict: bool): iset<Perm>
    requires AllInRange(tm, te.pool) && ChainsInPool(te) && AllInRange(tm, pool) && AllLists(pool, conds)
    reads te
  {
    TablePerms(tm, te.pool, te.htable, s) + AllCommon(tm, pool, conds, |conds|, s, strict)
  }

  /** The tables of all conditionals, last conditional first. */
  ghost predicate InfosOk(tm: TypeMaps, pool: seq<Node>, conds: seq<CondNode>, parent: nat, infos: seq<CondInfo>)
    requires AllInRange(tm, pool) && parent > 0
    reads set i | i in infos :: i.trueTab, set i | i in infos :: i.falseTab
  {
    && |infos| == |conds|
    && forall j :: 0 <= j < |infos| ==> InfoOk(tm, pool, parent, conds[|infos| - 1 - j], infos[j])
  }

  method BoundsExpandParentRules(tm: TypeMaps, te: Avtab, pool: seq<Node>, conds: seq<CondNode>, parent: nat)
    returns (rc: Status, global: Avtab, infos: seq<CondInfo>)
    requires te.Valid() && AllInRange(tm, te.pool) && AllInRange(tm, pool) && AllLists(pool, conds) && parent > 0
    ensures ChainsInPool(te)
    ensures rc == Ok && fresh(global) && Scratch(global) && TabPerms(global, parent) == Steady(tm, te, pool, conds, parent - 1, false)
    ensures InfosOk(tm, pool, conds, parent, infos)
  {
    ValidChains(te);
    global := NewTab(te.hash, [0], parent);
    ghost var s := parent - 1;
    assert AllCommon(tm, pool, conds, 0, s, false) == iset{};
    assert Steady(tm, te, pool, conds, s, false) == TablePerms(tm, te.pool, te.htable, s) + AllCommon(tm, pool, conds, |conds|, s, false);
    rc, infos := ExpandRest(tm, te, pool, conds, global, parent);
  }

  method ExpandRest(tm: TypeMaps, te: Avtab, pool: seq<Node>, conds: seq<CondNode>, global: Avtab, parent: nat)
    returns (rc: Status, infos: seq<CondInfo>)
    requires ChainsInPool(te) && AllInRange(tm, te.pool) && AllInRange(tm, pool) && AllLists(pool, conds) && parent > 0
    requires te != global && Tables(global, null, null) && TabPerms(global, parent) == iset{}
    modifies global
    ensures rc == Ok && Scratch(global)
    ensures TabPerms(global, parent) ==
      TablePerms(tm, te.pool, te.htable, parent - 1) + AllCommon(tm, pool, conds, |conds|, parent - 1, false)
    ensures InfosOk(tm, pool, conds, parent, infos)
  {
    rc := ExpandTable(tm, te, global, parent);
    hide *;
    rc, infos := ExpandConds(tm, te.hash, pool, conds, global, parent);
  }

  method ExpandConds(tm: TypeMaps, hash: Hash, pool: seq<Node>, conds: seq<CondNode>, global: Avtab, parent: nat)
    returns (rc: Status, infos: seq<CondInfo>)
    requires AllInRange(tm, pool) && AllLists(pool, conds) && Tables(global, null, null) && parent > 0
    modifies global
    ensures rc == Ok && Scratch(global) && InfosOk(tm, pool, conds, parent, infos)
    ensures TabPerms(global, parent) == old(TabPerms(global, parent)) + AllCommon(tm, pool, conds, |conds|, parent - 1, false)
  {
    hide *;
    ghost var base := TabPerms(global, parent);
    ExpansionStart(tm, pool, conds, global, parent);
    rc, infos := Ok, [];
    for k := 0 to |conds|
      invariant rc == Ok && Expanded(tm, pool, conds, k, global, parent, infos, base)
    {
      rc, infos := ExpandNext(tm, hash, pool, conds, k, global, parent, infos, base);
    }
    ExpansionDone(tm, pool, conds, parent, global, infos, base);
  }

  /** The first `k` conditionals are expanded: their tables newest first, apart from the global one. */
  ghost predicate Expanded(tm: TypeMaps, pool: seq<Node>, conds: seq<CondNode>, k: nat, global: Avtab, parent: nat,
                           infos: seq<CondInfo>, base: iset<Perm>)
    requires AllInRange(tm, pool) && AllLists(pool, conds) && parent > 0
    reads global, set i | i in infos :: i.trueTab, set i | i in infos :: i.falseTab
  {
    && Tables(global, null, null)
    && |infos| == k <= |conds|
    && (forall j :: 0 <= j < k ==> infos[j].trueTab != global && infos[j].falseTab != global)
    && (forall j :: 0 <= j < k ==> InfoOk(tm, pool, parent, conds[k - 1 - j], infos[j]))
    && TabPerms(global, parent) == base + AllCommon(tm, pool, conds, k, parent - 1, false)
  }

  method ExpandNext(tm: TypeMaps, hash: Hash, pool: seq<Node>, conds: seq<CondNode>, k: nat, global: Avtab, parent: nat,
                    infos: seq<CondInfo>, ghost base: iset<Perm>)
    returns (rc: Status, infos': seq<CondInfo>)
    requires AllInRange(tm, pool) && AllLists(pool, conds) && k < |conds| && parent > 0
    requires Expanded(tm, pool, conds, k, global, parent, infos, base)
    modifies global
    ensures rc == Ok && Expanded(tm, pool, conds, k + 1, global, parent, infos', base)
  {
    hide TabPerms, Scratch, ListPerms, AllCommon, Common, AllInRange, InfoOk, ListsInRange, AllLists, Tables;
    CommonStep(tm, pool, conds, k, parent - 1, base);
    var info;
    rc, info := ExpandCond(tm, hash, pool, conds[k], global, parent);
    infos' := [info] + infos;
  }

  lemma NoCommon(tm: TypeMaps, pool: seq<Node>, conds: seq<CondNode>, s: nat)
    requires AllInRange(tm, pool) && AllLists(pool, conds)
    ensures AllCommon(tm, pool, conds, 0, s, false) == iset{}
  {
  }

  lemma ExpansionStart(tm: TypeMaps, pool: seq<Node>, conds: seq<CondNode>, global: Avtab, parent: nat)
    requires AllInRange(tm, pool) && AllLists(pool, conds) && parent > 0 && Tables(global, null, null)
    ensures Expanded(tm, pool, conds, 0, global, parent, [], TabPerms(global, parent))
  {
    NoCommon(tm, pool, conds, parent - 1);
    hide AllCommon, TabPerms, AllInRange, AllLists, Tables;
  }

  lemma ExpansionDone(tm: TypeMaps, pool: seq<Node>, conds: seq<CondNode>, parent: nat, global: Avtab, infos: seq<CondInfo>, base: iset<Perm>)
    requires AllInRange(tm, pool) && AllLists(pool, conds) && parent > 0
    requires Expanded(tm, pool, conds, |conds|, global, parent, infos, base)
    ensures Scratch(global) && InfosOk(tm, pool, conds, parent, infos)
    ensures TabPerms(global, parent) == base + AllCommon(tm, pool, conds, |conds|, parent - 1, false)
  {
  }

  // ---------------------------------------------------------------- checking the child

  /** A target's bound where it has one; 0 marks a type without bounds or a gap. */
  function Bound(bounds: seq<nat>, target: nat): nat {
    if target < |bounds| && bounds[target] != 0 then bounds[target] - 1 else target
  }

  function Shift(bounds: seq<nat>, x: Perm): Perm {
    Perm(Bound(bounds, x.target), x.tclass, x.bit)
  }

  /** Child permissions whose counterpart on the target's bound is not covered. */
  ghost function Uncovered(perms: iset<Perm>, bounds: seq<nat>, cover: iset<Perm>): iset<Perm> {
    iset x: Perm | x in perms && Shift(bounds, x) !in cover
  }

  /** A rule reported as exceeding the bounds. */
  datatype BadRule = BadRule(source: nat, target: nat, tclass: nat, data: bv32)

  ghost function BadPerms(bad: seq<BadRule>): iset<Perm> {
    iset x: Perm | exists k :: 0 <= k < |bad| && bad[k].target == x.target + 1 && bad[k].tclass == x.tclass && BitSet(bad[k].data, x.bit)
  }

  /** The reported rules are those of `perms`, each with something to report. */
  ghost predicate Reports(bad: seq<BadRule>, numbad: nat, child: nat, perms: iset<Perm>) {
    && numbad == |bad|
    && (forall k :: 0 <= k < |bad| ==> bad[k].source == child && bad[k].target > 0 && bad[k].data != 0)
    && BadPerms(bad) == perms
  }

  lemma ReportsOne(bad: seq<BadRule>, numbad: nat, child: nat, perms: iset<Perm>, target: nat, tclass: nat, data: bv32)
    requires Reports(bad, numbad, child, perms) && data != 0
    ensures Reports([BadRule(child, target + 1, tclass, data)] + bad, numbad + 1, child, perms + KeyPerms(target, tclass, data))
  {
    hide BitSet;
    var bad' := [BadRule(child, target + 1, tclass, data)] + bad;
    forall x: Perm ensures x in BadPerms(bad') <==> x in BadPerms(bad) || x in KeyPerms(target, tclass, data) {
      if x in BadPerms(bad) {
        var k :| 0 <= k < |bad| && bad[k].target == x.target + 1 && bad[k].tclass == x.tclass && BitSet(bad[k].data, x.bit);
        assert bad'[k + 1] == bad[k];
      }
      if x in KeyPerms(target, tclass, data) { assert bad'[0].target == x.target + 1; }
    }
  }

  lemma ReportsNone(bad: seq<BadRule>, numbad: nat, child: nat, perms: iset<Perm>)
    requires Reports(bad, numbad, child, perms)
    ensures numbad == 0 <==> perms == iset{}
  {
    hide BitSet;
    if numbad != 0 {
      SomeBit(bad[0].data);
      var bit :| BitSet(bad[0].data, bit);
      assert Perm(bad[0].target - 1, bad[0].tclass, bit) in perms;
    }
  }

  /** What the tables looked at cover; a missing global table covers nothing. */
  ghost function Cover(global: Avtab?, cur: Avtab, parent: nat): iset<Perm>
    reads global, cur
  {
    TabPerms(cur, parent) + TabPerms(global, parent)
  }

  ghost predicate Readable(global: Avtab?, cur: Avtab)
    reads global, cur
  {
    Scratch(cur) && (global != null ==> Scratch(global))
  }

  method BoundsNotCovered(global: Avtab?, cur: Avtab, parent: nat, target: nat, tclass: nat, data: bv32) returns (d: bv32)
    requires Readable(global, cur)
    ensures forall bit: nat :: BitSet(d, bit) <==> BitSet(data, bit) && Perm(target, tclass, bit) !in Cover(global, cur, parent)
  {
    assert global == null ==> TabPerms(global, parent) == iset{};
    hide TabPerms, Scratch, Hit, BitSet, Clear;
    var key := KeyFor(parent, target, tclass);
    d := data;
    d := TakeAway(cur, key, d, parent, target, tclass);
    if global != null && d != 0 {
      d := TakeAway(global, key, d, parent, target, tclass);
    } else if global != null {
      forall bit: nat ensures !BitSet(0, bit) { BitZero(bit); }
    }
  }

  method TakeAway(tab: Avtab, key: Key, data: bv32, ghost parent: nat, ghost target: nat, ghost tclass: nat) returns (d: bv32)
    requires Scratch(tab) && key == KeyFor(parent, target, tclass)
    ensures forall bit: nat :: BitSet(d, bit) <==> BitSet(data, bit) && Perm(target, tclass, bit) !in TabPerms(tab, parent)
  {
    hide TabPerms, Scratch, Hit, BitSet, Clear;
    d := data;
    var datum := SearchScratch(tab, key);
    if datum.Some? {
      FoundPerms(tab, parent, target, tclass, datum.value);
      forall bit: nat
        ensures BitSet(Clear(data, tab.pool[datum.value].datum.data), bit) <==>
          BitSet(data, bit) && !BitSet(tab.pool[datum.value].datum.data, bit)
      {
        BitClear(data, tab.pool[datum.value].datum.data, bit);
      }
      d := Clear(data, tab.pool[datum.value].datum.data);
    } else {
      MissedPerms(tab, parent, target, tclass);
    }
  }

  lemma UncoveredStep(tm: TypeMaps, n: Node, s: nat, bounds: seq<nat>, cover: iset<Perm>, i: nat, d: bv32)
    requires KeyInRange(tm, n) && s in tm.attrType[n.key.source - 1] && i in tm.attrType[n.key.target - 1]
    requires forall bit: nat :: BitSet(d, bit) <==> BitSet(n.datum.data, bit) && Perm(Bound(bounds, i), n.key.tclass, bit) !in cover
    ensures Uncovered(Below(RulePerms(tm, n, s), i + 1), bounds, cover)
      == Uncovered(Below(RulePerms(tm, n, s), i), bounds, cover) + KeyPerms(i, n.key.tclass, d)
  {
    hide BitSet;
  }

  lemma NoPermsOf(i: nat, tclass: nat, data: bv32)
    ensures data == 0 ==> KeyPerms(i, tclass, data) == iset{}
  {
    hide BitSet;
    if data == 0 { forall bit ensures !BitSet(data, bit) { BitZero(bit); } }
  }

  method BoundsCheckRule(tm: TypeMaps, bounds: seq<nat>, global: Avtab?, cur: Avtab, child: nat, parent: nat, n: Node,
                         bad: seq<BadRule>, numbad: nat, ghost perms: iset<Perm>)
    returns (bad': seq<BadRule>, numbad': nat)
    requires Readable(global, cur) && KeyInRange(tm, n) && child > 0 && Reports(bad, numbad, child, perms)
    ensures Reports(bad', numbad', child, perms + Uncovered(RulePerms(tm, n, child - 1), bounds, Cover(global, cur, parent)))
  {
    bad', numbad' := bad, numbad;
    ghost var s, cover := child - 1, Cover(global, cur, parent);
    ghost var all := RulePerms(tm, n, s);
    BelowAll(tm, n, s);
    if child - 1 in tm.attrType[n.key.source - 1] {
      assert Uncovered(Below(all, 0), bounds, cover) == iset{};
      hide *;
      for i := 0 to |tm.flavor|
        invariant Reports(bad', numbad', child, perms + Uncovered(Below(all, i), bounds, cover))
      {
        if i in tm.attrType[n.key.target - 1] {
          var d := BoundsNotCovered(global, cur, parent, Bound(bounds, i), n.key.tclass, n.datum.data);
          UncoveredStep(tm, n, s, bounds, cover, i, d);
          GrowBoth(perms, Uncovered(Below(all, i), bounds, cover), KeyPerms(i, n.key.tclass, d), iset{});
          if d != 0 {
            ReportsOne(bad', numbad', child, perms + Uncovered(Below(all, i), bounds, cover), i, n.key.tclass, d);
            numbad' := numbad' + 1;
            bad' := [BadRule(child, i + 1, n.key.tclass, d)] + bad';
          } else {
            NoPermsOf(i, n.key.tclass, d);
          }
        } else {
          SkipTarget(tm, n, s, i);
        }
      }
    } else {
      assert Uncovered(all, bounds, cover) == iset{};
    }
  }

  lemma SkipTarget(tm: TypeMaps, n: Node, s: nat, i: nat)
    requires KeyInRange(tm, n) && i !in tm.attrType[n.key.target - 1]
    ensures Below(RulePerms(tm, n, s), i + 1) == Below(RulePerms(tm, n, s), i)
  {
    hide BitSet;
  }

  lemma UncoveredUnion(a: iset<Perm>, b: iset<Perm>, bounds: seq<nat>, cover: iset<Perm>)
    ensures Uncovered(a + b, bounds, cover) == Uncovered(a, bounds, cover) + Uncovered(b, bounds, cover)
    ensures Uncovered(iset{}, bounds, cover) == iset{}
  {
  }

  /** Checks the allow rules of a list, in order. */
  method CheckList(tm: TypeMaps, bounds: seq<nat>, global: Avtab?, cur: Avtab, child: nat, parent: nat,
                   pool: seq<Node>, list: seq<nat>, bad: seq<BadRule>, numbad: nat, ghost perms: iset<Perm>)
    returns (bad': seq<BadRule>, numbad': nat)
    requires Readable(global, cur) && AllInRange(tm, pool) && InPool(pool, list) && child > 0
    requires Reports(bad, numbad, child, perms)
    ensures Reports(bad', numbad', child,
      perms + Uncovered(ListPerms(tm, pool, list, child - 1, true), bounds, Cover(global, cur, parent)))
  {
    bad', numbad' := bad, numbad;
    ghost var s, cover := child - 1, Cover(global, cur, parent);
    NoPerms(tm, pool, s);
    UncoveredUnion(iset{}, iset{}, bounds, cover);
    assert perms + iset{} == perms;
    hide *;
    for k := 0 to |list|
      invariant Reports(bad', numbad', child, perms + Uncovered(ListPerms(tm, pool, list[..k], s, true), bounds, cover))
    {
      ghost var before := ListPerms(tm, pool, list[..k], s, true);
      ListStep(tm, pool, list, k, s, true);
      InRangeAt(tm, pool, list, k);
      if Has(pool[list[k]].key.specified, ALLOWED) {
        UncoveredUnion(before, RulePerms(tm, pool[list[k]], s), bounds, cover);
        GrowBoth(perms, Uncovered(before, bounds, cover), Uncovered(RulePerms(tm, pool[list[k]], s), bounds, cover), iset{});
        bad', numbad' := BoundsCheckRule(tm, bounds, global, cur, child, parent, pool[list[k]], bad', numbad',
          perms + Uncovered(before, bounds, cover));
      } else {
        assert before + iset{} == before;
      }
    }
    assert list[..|list|] == list;
  }

  /** Checks the allow rules of the unconditional table. */
  method CheckTable(tm: TypeMaps, bounds: seq<nat>, cur: Avtab, child: nat, parent: nat, te: Avtab)
    returns (bad: seq<BadRule>, numbad: nat)
    requires Scratch(cur) && AllInRange(tm, te.pool) && ChainsInPool(te) && child > 0
    ensures Reports(bad, numbad, child, Uncovered(TablePerms(tm, te.pool, te.htable, child - 1), bounds, Cover(null, cur, parent)))
  {
    bad, numbad := [], 0;
    ghost var s, cover := child - 1, Cover(null, cur, parent);
    ghost var pool, htable := te.pool, te.htable;
    NoPerms(tm, pool, s);
    UncoveredUnion(iset{}, iset{}, bounds, cover);
    assert Reports(bad, numbad, child, iset{});
    forall i | 0 <= i < |htable| ensures InPool(pool, htable[i]) { }
    assert Readable(null, cur);
    hide *;
    for i := 0 to |te.htable|
      invariant Reports(bad, numbad, child, Uncovered(TablePerms(tm, pool, htable[..i], s), bounds, cover))
    {
      TableStep(tm, pool, htable, i, s);
      UncoveredUnion(TablePerms(tm, pool, htable[..i], s), ListPerms(tm, pool, htable[i], s, true), bounds, cover);
      bad, numbad := CheckList(tm, bounds, null, cur, child, parent, te.pool, te.htable[i], bad, numbad,
        Uncovered(TablePerms(tm, pool, htable[..i], s), bounds, cover));
    }
    assert htable[..|htable|] == htable;
  }

  /** Child permissions of a branch not covered by the same branch of the parent or by `g`. */
  ghost function BranchBad(tm: TypeMaps, pool: seq<Node>, list: seq<nat>, s: nat, sp: nat, bounds: seq<nat>, g: iset<Perm>, strict: bool): iset<Perm>
    requires AllInRange(tm, pool) && InPool(pool, list)
  {
    Uncovered(ListPerms(tm, pool, list, s, true), bounds, ListPerms(tm, pool, list, sp, strict) + g)
  }

  /** The same over both branches of the conditionals from `k` on. */
  ghost function AllBad(tm: TypeMaps, pool: seq<Node>, conds: seq<CondNode>, k: nat, s: nat, sp: nat, bounds: seq<nat>, g: iset<Perm>, strict: bool): iset<Perm>
    requires AllInRange(tm, pool) && AllLists(pool, conds) && k <= |conds|
    decreases |conds| - k
  {
    if k == |conds| then iset{}
    else
      AllBad(tm, pool, conds, k + 1, s, sp, bounds, g, strict)
      + BranchBad(tm, pool, conds[k].trueList, s, sp, bounds, g, strict) + BranchBad(tm, pool, conds[k].falseList, s, sp, bounds, g, strict)
  }

  lemma BadStep(tm: TypeMaps, pool: seq<Node>, conds: seq<CondNode>, k: nat, s: nat, sp: nat, bounds: seq<nat>, g: iset<Perm>, base: iset<Perm>)
    requires AllInRange(tm, pool) && AllLists(pool, conds) && k < |conds|
    ensures ListsInRange(pool, conds[k])
    ensures base + AllBad(tm, pool, conds, k, s, sp, bounds, g, false) == base + AllBad(tm, pool, conds, k + 1, s, sp, bounds, g, false)
      + BranchBad(tm, pool, conds[k].trueList, s, sp, bounds, g, false) + BranchBad(tm, pool, conds[k].falseList, s, sp, bounds, g, false)
    ensures AllBad(tm, pool, conds, |conds|, s, sp, bounds, g, false) == iset{}
  {
    assert ListsInRange(pool, conds[k]);
    hide BranchBad;
  }

  lemma NoBad(tm: TypeMaps, pool: seq<Node>, conds: seq<CondNode>, s: nat, sp: nat, bounds: seq<nat>, g: iset<Perm>)
    requires AllInRange(tm, pool) && AllLists(pool, conds)
    ensures AllBad(tm, pool, conds, |conds|, s, sp, bounds, g, false) == iset{}
  {
  }

  lemma InfoCover(tm: TypeMaps, pool: seq<Node>, conds: seq<CondNode>, parent: nat, infos: seq<CondInfo>, j: nat, global: Avtab)
    requires AllInRange(tm, pool) && parent > 0 && InfosOk(tm, pool, conds, parent, infos) && j < |infos| && Scratch(global)
    ensures infos[j].cond == conds[|conds| - 1 - j] && ListsInRange(pool, infos[j].cond)
    ensures Readable(global, infos[j].trueTab) && Readable(global, infos[j].falseTab)
    ensures Cover(global, infos[j].trueTab, parent) == ListPerms(tm, pool, infos[j].cond.trueList, parent - 1, false) + TabPerms(global, parent)
    ensures Cover(global, infos[j].falseTab, parent) == ListPerms(tm, pool, infos[j].cond.falseList, parent - 1, false) + TabPerms(global, parent)
  {
    assert InfoOk(tm, pool, parent, conds[|conds| - 1 - j], infos[j]);
    hide TabPerms, ListPerms, Scratch;
  }

  method CheckCond(tm: TypeMaps, bounds: seq<nat>, global: Avtab, info: CondInfo, child: nat, parent: nat, pool: seq<Node>,
                   bad: seq<BadRule>, numbad: nat, ghost perms: iset<Perm>)
    returns (bad': seq<BadRule>, numbad': nat)
    requires AllInRange(tm, pool) && ListsInRange(pool, info.cond) && child > 0
    requires Readable(global, info.trueTab) && Readable(global, info.falseTab) && Reports(bad, numbad, child, perms)
    ensures Reports(bad', numbad', child, perms
      + Uncovered(ListPerms(tm, pool, info.cond.trueList, child - 1, true), bounds, Cover(global, info.trueTab, parent))
      + Uncovered(ListPerms(tm, pool, info.cond.falseList, child - 1, true), bounds, Cover(global, info.falseTab, parent)))
  {
    hide ListPerms, Uncovered, Cover, Reports, Readable, AllInRange;
    bad', numbad' := CheckList(tm, bounds, global, info.trueTab, child, parent, pool, info.cond.trueList, bad, numbad, perms);
    bad', numbad' := CheckList(tm, bounds, global, info.falseTab, child, parent, pool, info.cond.falseList, bad', numbad',
      perms + Uncovered(ListPerms(tm, pool, info.cond.trueList, child - 1, true), bounds, Cover(global, info.trueTab, parent)));
  }

  method BoundsCheckChildRules(tm: TypeMaps, bounds: seq<nat>, te: Avtab, pool: seq<Node>, global: Avtab, infos: seq<CondInfo>,
                               child: nat, parent: nat, ghost conds: seq<CondNode>)
    returns (bad: seq<BadRule>, numbad: nat)
    requires AllInRange(tm, te.pool) && ChainsInPool(te) && AllInRange(tm, pool) && AllLists(pool, conds)
    requires Scratch(global) && child > 0 && parent > 0 && InfosOk(tm, pool, conds, parent, infos)
    ensures var g := TabPerms(global, parent);
      Reports(bad, numbad, child, Uncovered(TablePerms(tm, te.pool, te.htable, child - 1), bounds, g)
        + AllBad(tm, pool, conds, 0, child - 1, parent - 1, bounds, g, false))
  {
    ghost var g := TabPerms(global, parent);
    ghost var base := Uncovered(TablePerms(tm, te.pool, te.htable, child - 1), bounds, g);
    CheckStart(tm, bounds, pool, conds, child, parent, global, base);
    hide *;
    bad, numbad := CheckTable(tm, bounds, global, child, parent, te);
    bad, numbad := CheckConds(tm, bounds, pool, global, infos, child, parent, conds, bad, numbad, base);
    CheckedAll(tm, bounds, pool, conds, child, parent, g, bad, numbad, base);
  }

  lemma CheckStart(tm: TypeMaps, bounds: seq<nat>, pool: seq<Node>, conds: seq<CondNode>, child: nat, parent: nat, global: Avtab, base: iset<Perm>)
    requires AllInRange(tm, pool) && AllLists(pool, conds) && child > 0 && parent > 0
    ensures Cover(null, global, parent) == TabPerms(global, parent)
    ensures forall bad, numbad :: Reports(bad, numbad, child, base) ==>
      Checked(tm, bounds, pool, conds, |conds|, child, parent, TabPerms(global, parent), bad, numbad, base)
  {
    NoBad(tm, pool, conds, child - 1, parent - 1, bounds, TabPerms(global, parent));
    assert base + iset{} == base;
    hide InTab, Reports;
  }

  lemma InfosLength(tm: TypeMaps, pool: seq<Node>, conds: seq<CondNode>, parent: nat, infos: seq<CondInfo>)
    requires AllInRange(tm, pool) && parent > 0 && InfosOk(tm, pool, conds, parent, infos)
    ensures |infos| == |conds|
  {
  }

  method CheckConds(tm: TypeMaps, bounds: seq<nat>, pool: seq<Node>, global: Avtab, infos: seq<CondInfo>,
                    child: nat, parent: nat, ghost conds: seq<CondNode>, bad: seq<BadRule>, numbad: nat, ghost base: iset<Perm>)
    returns (bad': seq<BadRule>, numbad': nat)
    requires AllInRange(tm, pool) && AllLists(pool, conds)
    requires Scratch(global) && child > 0 && parent > 0 && InfosOk(tm, pool, conds, parent, infos)
    requires Checked(tm, bounds, pool, conds, |conds|, child, parent, TabPerms(global, parent), bad, numbad, base)
    ensures Checked(tm, bounds, pool, conds, 0, child, parent, TabPerms(global, parent), bad', numbad', base)
  {
    hide *;
    bad', numbad' := bad, numbad;
    InfosLength(tm, pool, conds, parent, infos);
    for j := 0 to |infos|
      invariant InfosOk(tm, pool, conds, parent, infos)
      invariant Checked(tm, bounds, pool, conds, |conds| - j, child, parent, TabPerms(global, parent), bad', numbad', base)
    {
      bad', numbad' := CheckNext(tm, bounds, pool, global, infos, j, child, parent, conds, bad', numbad', base);
    }
  }

  /** The conditionals from `k` on have been checked, and the unconditional table. */
  ghost predicate Checked(tm: TypeMaps, bounds: seq<nat>, pool: seq<Node>, conds: seq<CondNode>, k: nat, child: nat, parent: nat,
                          g: iset<Perm>, bad: seq<BadRule>, numbad: nat, base: iset<Perm>)
    requires AllInRange(tm, pool) && AllLists(pool, conds) && k <= |conds| && child > 0 && parent > 0
  {
    Reports(bad, numbad, child, base + AllBad(tm, pool, conds, k, child - 1, parent - 1, bounds, g, false))
  }

  lemma CheckedAll(tm: TypeMaps, bounds: seq<nat>, pool: seq<Node>, conds: seq<CondNode>, child: nat, parent: nat,
                   g: iset<Perm>, bad: seq<BadRule>, numbad: nat, base: iset<Perm>)
    requires AllInRange(tm, pool) && AllLists(pool, conds) && child > 0 && parent > 0
    requires Checked(tm, bounds, pool, conds, 0, child, parent, g, bad, numbad, base)
    ensures Reports(bad, numbad, child, base + AllBad(tm, pool, conds, 0, child - 1, parent - 1, bounds, g, false))
  {
  }

  method CheckNext(tm: TypeMaps, bounds: seq<nat>, pool: seq<Node>, global: Avtab, infos: seq<CondInfo>, j: nat,
                   child: nat, parent: nat, ghost conds: seq<CondNode>, bad: seq<BadRule>, numbad: nat, ghost base: iset<Perm>)
    returns (bad': seq<BadRule>, numbad': nat)
    requires AllInRange(tm, pool) && AllLists(pool, conds) && j < |infos| == |conds|
    requires Scratch(global) && child > 0 && parent > 0 && InfosOk(tm, pool, conds, parent, infos)
    requires Checked(tm, bounds, pool, conds, |conds| - j, child, parent, TabPerms(global, parent), bad, numbad, base)
    ensures InfosOk(tm, pool, conds, parent, infos)
    ensures Checked(tm, bounds, pool, conds, |conds| - j - 1, child, parent, TabPerms(global, parent), bad', numbad', base)
  {
    hide TabPerms, ListPerms, Uncovered, Cover, Reports, Readable, AllInRange, Scratch, AllBad, ListsInRange, AllLists, Checked;
    ghost var k, g := |conds| - j, TabPerms(global, parent);
    InfoCover(tm, pool, conds, parent, infos, j, global);
    CheckedIs(tm, bounds, pool, conds, k, child, parent, g, bad, numbad, base);
    bad', numbad' := CheckCond(tm, bounds, global, infos[j], child, parent, pool, bad, numbad,
      base + AllBad(tm, pool, conds, k, child - 1, parent - 1, bounds, g, false));
    CheckedNext(tm, bounds, pool, conds, k, child, parent, g, bad', numbad', base,
      Cover(global, infos[j].trueTab, parent), Cover(global, infos[j].falseTab, parent));
  }

  lemma CheckedIs(tm: TypeMaps, bounds: seq<nat>, pool: seq<Node>, conds: seq<CondNode>, k: nat, child: nat, parent: nat,
                  g: iset<Perm>, bad: seq<BadRule>, numbad: nat, base: iset<Perm>)
    requires AllInRange(tm, pool) && AllLists(pool, conds) && k <= |conds| && child > 0 && parent > 0
    requires Checked(tm, bounds, pool, conds, k, child, parent, g, bad, numbad, base)
    ensures Reports(bad, numbad, child, base + AllBad(tm, pool, conds, k, child - 1, parent - 1, bounds, g, false))
  {
    hide Reports, AllBad;
  }

  lemma CheckedNext(tm: TypeMaps, bounds: seq<nat>, pool: seq<Node>, conds: seq<CondNode>, k: nat, child: nat, parent: nat,
                    g: iset<Perm>, bad: seq<BadRule>, numbad: nat, base: iset<Perm>, coverTrue: iset<Perm>, coverFalse: iset<Perm>)
    requires AllInRange(tm, pool) && AllLists(pool, conds) && 0 < k <= |conds| && child > 0 && parent > 0
    requires ListsInRange(pool, conds[k - 1])
    requires coverTrue == ListPerms(tm, pool, conds[k - 1].trueList, parent - 1, false) + g
    requires coverFalse == ListPerms(tm, pool, conds[k - 1].falseList, parent - 1, false) + g
    requires Reports(bad, numbad, child, base + AllBad(tm, pool, conds, k, child - 1, parent - 1, bounds, g, false)
      + Uncovered(ListPerms(tm, pool, conds[k - 1].trueList, child - 1, true), bounds, coverTrue)
      + Uncovered(ListPerms(tm, pool, conds[k - 1].falseList, child - 1, true), bounds, coverFalse))
    ensures Checked(tm, bounds, pool, conds, k - 1, child, parent, g, bad, numbad, base)
  {
    hide Reports, AllBad, ListPerms, Uncovered;
    BadStep(tm, pool, conds, k - 1, child - 1, parent - 1, bounds, g, base);
  }

  // ---------------------------------------------------------------- what the verdict means

  /** With branches chosen freely, a source's permissions: unconditional ones and the chosen branches'. */
  ghost predicate Chosen(tm: TypeMaps, te: Avtab, pool: seq<Node>, conds: seq<CondNode>, choice: seq<bool>, s: nat, allowOnly: bool, x: Perm)
    requires AllInRange(tm, te.pool) && ChainsInPool(te) && AllInRange(tm, pool) && AllLists(pool, conds) && |choice| == |conds|
    reads te
  {
    || x in TablePerms(tm, te.pool, te.htable, s)
    || exists k :: 0 <= k < |conds| && ByBranch(tm, pool, conds, k, choice[k], s, allowOnly, x)
  }

  ghost predicate ByBranch(tm: TypeMaps, pool: seq<Node>, conds: seq<CondNode>, k: nat, branch: bool, s: nat, allowOnly: bool, x: Perm)
    requires AllInRange(tm, pool) && AllLists(pool, conds) && k < |conds|
  {
    assert ListsInRange(pool, conds[k]);
    x in ListPerms(tm, pool, if branch then conds[k].trueList else conds[k].falseList, s, allowOnly)
  }

  /**
     Under a choice of branches the child stays within the parent: within what the parent is
     allowed when `strict`, else within what the check counts for it.
   */
  ghost predicate Within(tm: TypeMaps, bounds: seq<nat>, te: Avtab, pool: seq<Node>, conds: seq<CondNode>, choice: seq<bool>, s: nat, sp: nat, strict: bool)
    requires AllInRange(tm, te.pool) && ChainsInPool(te) && AllInRange(tm, pool) && AllLists(pool, conds) && |choice| == |conds|
    reads te
  {
    forall x: Perm :: Chosen(tm, te, pool, conds, choice, s, true, x) ==> Chosen(tm, te, pool, conds, choice, sp, strict, Shift(bounds, x))
  }

  lemma {:induction false} CommonMember(tm: TypeMaps, pool: seq<Node>, conds: seq<CondNode>, n: nat, s: nat, x: Perm, strict: bool)
    requires AllInRange(tm, pool) && AllLists(pool, conds) && n <= |conds|
    ensures x in AllCommon(tm, pool, conds, n, s, strict) <==>
      exists k :: 0 <= k < n && ByBranch(tm, pool, conds, k, true, s, strict, x) && ByBranch(tm, pool, conds, k, false, s, strict, x)
  {
    hide ListPerms;
    if n > 0 {
      CommonMember(tm, pool, conds, n - 1, s, x, strict);
      assert ListsInRange(pool, conds[n - 1]);
      assert x in Common(tm, pool, conds[n - 1], s, strict) <==>
        ByBranch(tm, pool, conds, n - 1, true, s, strict, x) && ByBranch(tm, pool, conds, n - 1, false, s, strict, x);
      hide ByBranch, Common;
    }
  }

  /** Some child permission of a branch is covered neither by `g` nor by that branch of the parent. */
  ghost predicate Exposed(tm: TypeMaps, pool: seq<Node>, conds: seq<CondNode>, k: nat, branch: bool, s: nat, sp: nat,
                          bounds: seq<nat>, g: iset<Perm>, x: Perm, strict: bool)
    requires AllInRange(tm, pool) && AllLists(pool, conds) && k < |conds|
  {
    && ByBranch(tm, pool, conds, k, branch, s, true, x)
    && !ByBranch(tm, pool, conds, k, branch, sp, strict, Shift(bounds, x)) && Shift(bounds, x) !in g
  }

  lemma {:induction false} BadMember(tm: TypeMaps, pool: seq<Node>, conds: seq<CondNode>, n: nat, s: nat, sp: nat, bounds: seq<nat>, g: iset<Perm>, x: Perm, strict: bool)
    requires AllInRange(tm, pool) && AllLists(pool, conds) && n <= |conds|
    ensures x in AllBad(tm, pool, conds, n, s, sp, bounds, g, strict) <==>
      exists k, branch :: n <= k < |conds| && Exposed(tm, pool, conds, k, branch, s, sp, bounds, g, x, strict)
    decreases |conds| - n
  {
    hide ListPerms;
    if n < |conds| {
      BadMember(tm, pool, conds, n + 1, s, sp, bounds, g, x, strict);
      assert ListsInRange(pool, conds[n]);
      assert x in BranchBad(tm, pool, conds[n].trueList, s, sp, bounds, g, strict) <==> Exposed(tm, pool, conds, n, true, s, sp, bounds, g, x, strict);
      assert x in BranchBad(tm, pool, conds[n].falseList, s, sp, bounds, g, strict) <==> Exposed(tm, pool, conds, n, false, s, sp, bounds, g, x, strict);
    }
  }

  /** A choice of branches avoiding everything that is not steady. */
  ghost function Avoiding(tm: TypeMaps, pool: seq<Node>, conds: seq<CondNode>, sp: nat, y: Perm, strict: bool): (choice: seq<bool>)
    requires AllInRange(tm, pool) && AllLists(pool, conds)
    ensures |choice| == |conds|
    ensures forall k :: 0 <= k < |conds| ==> choice[k] == !ByBranch(tm, pool, conds, k, true, sp, strict, y)
  {
    seq(|conds|, k requires 0 <= k < |conds| => !ByBranch(tm, pool, conds, k, true, sp, strict, y))
  }

  lemma ChosenAvoids(tm: TypeMaps, te: Avtab, pool: seq<Node>, conds: seq<CondNode>, choice: seq<bool>, sp: nat, y: Perm, j: nat, strict: bool)
    requires AllInRange(tm, te.pool) && ChainsInPool(te) && AllInRange(tm, pool) && AllLists(pool, conds)
    requires y !in Steady(tm, te, pool, conds, sp, strict) && |choice| == |conds|
    requires j < |conds| ==> !ByBranch(tm, pool, conds, j, choice[j], sp, strict, y)
    requires forall k :: 0 <= k < |conds| && k != j ==> choice[k] == !ByBranch(tm, pool, conds, k, true, sp, strict, y)
    ensures !Chosen(tm, te, pool, conds, choice, sp, strict, y)
  {
    hide ByBranch, TablePerms;
    CommonMember(tm, pool, conds, |conds|, sp, y, strict);
  }

  /** A steady permission is there whatever is chosen. */
  lemma SteadyChosen(tm: TypeMaps, te: Avtab, pool: seq<Node>, conds: seq<CondNode>, choice: seq<bool>, sp: nat, y: Perm, strict: bool)
    requires AllInRange(tm, te.pool) && ChainsInPool(te) && AllInRange(tm, pool) && AllLists(pool, conds)
    requires y in Steady(tm, te, pool, conds, sp, strict) && |choice| == |conds|
    ensures Chosen(tm, te, pool, conds, choice, sp, strict, y)
  {
    hide ByBranch, TablePerms;
    CommonMember(tm, pool, conds, |conds|, sp, y, strict);
    if y !in TablePerms(tm, te.pool, te.htable, sp) {
      var k :| 0 <= k < |conds| && ByBranch(tm, pool, conds, k, true, sp, strict, y) && ByBranch(tm, pool, conds, k, false, sp, strict, y);
      assert ByBranch(tm, pool, conds, k, choice[k], sp, strict, y);
    }
  }

  ghost function Verdict(tm: TypeMaps, bounds: seq<nat>, te: Avtab, pool: seq<Node>, conds: seq<CondNode>, s: nat, sp: nat, strict: bool): iset<Perm>
    requires AllInRange(tm, te.pool) && ChainsInPool(te) && AllInRange(tm, pool) && AllLists(pool, conds)
    reads te
  {
    var g := Steady(tm, te, pool, conds, sp, strict);
    Uncovered(TablePerms(tm, te.pool, te.htable, s), bounds, g) + AllBad(tm, pool, conds, 0, s, sp, bounds, g, strict)
  }

  /** Nothing is reported, strictly or not, exactly when the child stays within the parent under every choice of branches. */
  lemma VerdictExact(tm: TypeMaps, bounds: seq<nat>, te: Avtab, pool: seq<Node>, conds: seq<CondNode>, s: nat, sp: nat, strict: bool)
    requires AllInRange(tm, te.pool) && ChainsInPool(te) && AllInRange(tm, pool) && AllLists(pool, conds)
    ensures Verdict(tm, bounds, te, pool, conds, s, sp, strict) == iset{} <==>
      forall choice: seq<bool> :: |choice| == |conds| ==> Within(tm, bounds, te, pool, conds, choice, s, sp, strict)
  {
    if Verdict(tm, bounds, te, pool, conds, s, sp, strict) == iset{} {
      forall choice: seq<bool> | |choice| == |conds| ensures Within(tm, bounds, te, pool, conds, choice, s, sp, strict) {
        CleanIsWithin(tm, bounds, te, pool, conds, choice, s, sp, strict);
      }
    } else {
      var x :| x in Verdict(tm, bounds, te, pool, conds, s, sp, strict);
      var choice := Witness(tm, bounds, te, pool, conds, s, sp, x, strict);
    }
  }

  /** A permission by which the child exceeds the parent under some choice is reported. */
  lemma ExcessReported(tm: TypeMaps, bounds: seq<nat>, te: Avtab, pool: seq<Node>, conds: seq<CondNode>, choice: seq<bool>,
                       s: nat, sp: nat, x: Perm, strict: bool)
    requires AllInRange(tm, te.pool) && ChainsInPool(te) && AllInRange(tm, pool) && AllLists(pool, conds) && |choice| == |conds|
    requires Chosen(tm, te, pool, conds, choice, s, true, x) && !Chosen(tm, te, pool, conds, choice, sp, strict, Shift(bounds, x))
    ensures x in Verdict(tm, bounds, te, pool, conds, s, sp, strict)
  {
    hide ByBranch, TablePerms, Steady, AllBad;
    var g, y := Steady(tm, te, pool, conds, sp, strict), Shift(bounds, x);
    if y in g { SteadyChosen(tm, te, pool, conds, choice, sp, y, strict); }
    if x in TablePerms(tm, te.pool, te.htable, s) {
      assert x in Uncovered(TablePerms(tm, te.pool, te.htable, s), bounds, g);
    } else {
      var k :| 0 <= k < |conds| && ByBranch(tm, pool, conds, k, choice[k], s, true, x);
      BadMember(tm, pool, conds, 0, s, sp, bounds, g, x, strict);
      assert Exposed(tm, pool, conds, k, choice[k], s, sp, bounds, g, x, strict);
    }
  }

  lemma CleanIsWithin(tm: TypeMaps, bounds: seq<nat>, te: Avtab, pool: seq<Node>, conds: seq<CondNode>, choice: seq<bool>, s: nat, sp: nat, strict: bool)
    requires AllInRange(tm, te.pool) && ChainsInPool(te) && AllInRange(tm, pool) && AllLists(pool, conds) && |choice| == |conds|
    requires Verdict(tm, bounds, te, pool, conds, s, sp, strict) == iset{}
    ensures Within(tm, bounds, te, pool, conds, choice, s, sp, strict)
  {
    hide Verdict, Chosen;
    forall x: Perm | Chosen(tm, te, pool, conds, choice, s, true, x)
      ensures Chosen(tm, te, pool, conds, choice, sp, strict, Shift(bounds, x))
    {
      if !Chosen(tm, te, pool, conds, choice, sp, strict, Shift(bounds, x)) {
        ExcessReported(tm, bounds, te, pool, conds, choice, s, sp, x, strict);
      }
    }
  }

  /** A choice of branches under which a reported permission is the child's and not the parent's. */
  lemma Witness(tm: TypeMaps, bounds: seq<nat>, te: Avtab, pool: seq<Node>, conds: seq<CondNode>, s: nat, sp: nat, x: Perm, strict: bool)
    returns (choice: seq<bool>)
    requires AllInRange(tm, te.pool) && ChainsInPool(te) && AllInRange(tm, pool) && AllLists(pool, conds)
    requires x in Verdict(tm, bounds, te, pool, conds, s, sp, strict)
    ensures |choice| == |conds|
    ensures Chosen(tm, te, pool, conds, choice, s, true, x) && !Chosen(tm, te, pool, conds, choice, sp, strict, Shift(bounds, x))
    ensures !Within(tm, bounds, te, pool, conds, choice, s, sp, strict)
  {
    hide ByBranch, TablePerms, Steady, AllBad;
    var g, y := Steady(tm, te, pool, conds, sp, strict), Shift(bounds, x);
    choice := Avoiding(tm, pool, conds, sp, y, strict);
    if x in TablePerms(tm, te.pool, te.htable, s) && y !in g {
      ChosenAvoids(tm, te, pool, conds, choice, sp, y, |conds|, strict);
    } else {
      BadMember(tm, pool, conds, 0, s, sp, bounds, g, x, strict);
      var k, branch :| 0 <= k < |conds| && Exposed(tm, pool, conds, k, branch, s, sp, bounds, g, x, strict);
      choice := choice[k := branch];
      ChosenAvoids(tm, te, pool, conds, choice, sp, y, k, strict);
      assert ByBranch(tm, pool, conds, k, choice[k], s, true, x);
    }
  }

  // ---------------------------------------------------------------- the verdict, rule by rule

  /** The rule names the source, the target and the class, itself or through attributes, and has the bit. */
  ghost predicate Gives(tm: TypeMaps, n: Node, s: nat, x: Perm)
    requires KeyInRange(tm, n)
  {
    && s in tm.attrType[n.key.source - 1] && x.target in tm.attrType[n.key.target - 1]
    && n.key.tclass == x.tclass && BitSet(n.datum.data, x.bit)
  }

  predicate AllowRule(n: Node) {
    n.key.specified & 1 != 0
  }

  lemma AllowIs(n: Node)
    ensures AllowRule(n) <==> Has(n.key.specified, ALLOWED)
  {
  }

  ghost predicate GivenAt(tm: TypeMaps, pool: seq<Node>, p: nat, s: nat, allowOnly: bool, x: Perm)
    requires AllInRange(tm, pool)
  {
    p < |pool| && (allowOnly ==> AllowRule(pool[p])) && KeyInRange(tm, pool[p]) && Gives(tm, pool[p], s, x)
  }

  /**
     With one branch of every conditional chosen, `s` has the permission by an unconditional
     allow rule, or by a rule of a chosen branch, of any kind unless `allowOnly`.
   */
  ghost predicate MayDo(tm: TypeMaps, te: Avtab, pool: seq<Node>, conds: seq<CondNode>, choice: seq<bool>, s: nat, allowOnly: bool, x: Perm)
    requires AllInRange(tm, te.pool) && AllInRange(tm, pool) && |choice| == |conds|
    reads te
  {
    || (exists p: nat :: Linked(te.htable, p) && GivenAt(tm, te.pool, p, s, true, x))
    || (exists k, p: nat :: 0 <= k < |conds| && p in (if choice[k] then conds[k].trueList else conds[k].falseList) &&
          GivenAt(tm, pool, p, s, allowOnly, x))
  }

  /** The same permission on the bound of the target, if that has one; bounds are numbered from 1, 0 is none. */
  function OnBound(bounds: seq<nat>, x: Perm): Perm {
    if x.target >= |bounds| || bounds[x.target] == 0 then x else x.(target := bounds[x.target] - 1)
  }

  /** The child has an allow permission that the parent, all its conditional rules counted, has not on the target's bound. */
  ghost predicate Exceeds(tm: TypeMaps, bounds: seq<nat>, te: Avtab, pool: seq<Node>, conds: seq<CondNode>, choice: seq<bool>, s: nat, sp: nat, x: Perm)
    requires AllInRange(tm, te.pool) && AllInRange(tm, pool) && |choice| == |conds|
    reads te
  {
    MayDo(tm, te, pool, conds, choice, s, true, x) && !MayDo(tm, te, pool, conds, choice, sp, false, OnBound(bounds, x))
  }

  /** So it is under some choice of branches. */
  ghost predicate ExceedsSome(tm: TypeMaps, bounds: seq<nat>, te: Avtab, pool: seq<Node>, conds: seq<CondNode>, s: nat, sp: nat, x: Perm)
    requires AllInRange(tm, te.pool) && AllInRange(tm, pool)
    reads te
  {
    exists choice: seq<bool> :: |choice| == |conds| && Exceeds(tm, bounds, te, pool, conds, choice, s, sp, x)
  }

  lemma ExceedsSomeIs(tm: TypeMaps, bounds: seq<nat>, te: Avtab, pool: seq<Node>, conds: seq<CondNode>, s: nat, sp: nat, x: Perm)
    requires AllInRange(tm, te.pool) && AllInRange(tm, pool)
    ensures ExceedsSome(tm, bounds, te, pool, conds, s, sp, x) <==>
      exists choice: seq<bool> :: |choice| == |conds| && Exceeds(tm, bounds, te, pool, conds, choice, s, sp, x)
  {
    hide Exceeds, AllInRange;
  }

  lemma RuleGives(tm: TypeMaps, n: Node, s: nat, x: Perm)
    requires KeyInRange(tm, n)
    ensures x in RulePerms(tm, n, s) <==> Gives(tm, n, s, x)
  {
    hide BitSet;
  }

  lemma ListGives(tm: TypeMaps, pool: seq<Node>, list: seq<nat>, s: nat, allowOnly: bool, x: Perm)
    requires AllInRange(tm, pool) && InPool(pool, list)
    ensures x in ListPerms(tm, pool, list, s, allowOnly) <==> exists p: nat :: p in list && GivenAt(tm, pool, p, s, allowOnly, x)
  {
    hide ListPerms, RulePerms, Gives, Has, AllowRule, KeyInRange, BitSet;
    ListMember(tm, pool, list, s, allowOnly, x);
    forall p: nat | p < |pool|
      ensures KeyInRange(tm, pool[p]) && (x in RulePerms(tm, pool[p], s) <==> Gives(tm, pool[p], s, x))
      ensures AllowRule(pool[p]) <==> Has(pool[p].key.specified, ALLOWED)
    {
      RuleGives(tm, pool[p], s, x);
      AllowIs(pool[p]);
    }
  }

  lemma TableGives(tm: TypeMaps, pool: seq<Node>, htable: seq<seq<nat>>, s: nat, x: Perm)
    requires AllInRange(tm, pool) && forall i :: 0 <= i < |htable| ==> InPool(pool, htable[i])
    ensures x in TablePerms(tm, pool, htable, s) <==> exists p: nat :: Linked(htable, p) && GivenAt(tm, pool, p, s, true, x)
  {
    hide TablePerms, RulePerms, Gives, Has, AllowRule, KeyInRange, Linked, BitSet;
    TableMember(tm, pool, htable, s, x);
    forall p: nat | p < |pool|
      ensures KeyInRange(tm, pool[p]) && (x in RulePerms(tm, pool[p], s) <==> Gives(tm, pool[p], s, x))
      ensures AllowRule(pool[p]) <==> Has(pool[p].key.specified, ALLOWED)
    {
      RuleGives(tm, pool[p], s, x);
      AllowIs(pool[p]);
    }
  }

  lemma ChosenExactly(tm: TypeMaps, te: Avtab, pool: seq<Node>, conds: seq<CondNode>, choice: seq<bool>, s: nat, allowOnly: bool, x: Perm)
    requires AllInRange(tm, te.pool) && ChainsInPool(te) && AllInRange(tm, pool) && AllLists(pool, conds) && |choice| == |conds|
    ensures Chosen(tm, te, pool, conds, choice, s, allowOnly, x) <==> MayDo(tm, te, pool, conds, choice, s, allowOnly, x)
  {
    TableGives(tm, te.pool, te.htable, s, x);
    forall k | 0 <= k < |conds|
      ensures ByBranch(tm, pool, conds, k, choice[k], s, allowOnly, x) <==>
        exists p: nat :: p in (if choice[k] then conds[k].trueList else conds[k].falseList) && GivenAt(tm, pool, p, s, allowOnly, x)
    {
      assert ListsInRange(pool, conds[k]);
      ListGives(tm, pool, if choice[k] then conds[k].trueList else conds[k].falseList, s, allowOnly, x);
    }
    hide ByBranch, GivenAt, TablePerms, Linked;
  }

  lemma OnBoundIs(bounds: seq<nat>, x: Perm)
    ensures Shift(bounds, x) == OnBound(bounds, x)
  {
  }

  /** The verdict is what the child can exceed the parent by, whatever branches are chosen. */
  lemma {:induction false} VerdictExceeds(tm: TypeMaps, bounds: seq<nat>, te: Avtab, pool: seq<Node>, conds: seq<CondNode>, s: nat, sp: nat, x: Perm)
    requires AllInRange(tm, te.pool) && ChainsInPool(te) && AllInRange(tm, pool) && AllLists(pool, conds)
    ensures x in Verdict(tm, bounds, te, pool, conds, s, sp, false) <==> ExceedsSome(tm, bounds, te, pool, conds, s, sp, x)
  {
    hide *;
    ExceedsSomeIs(tm, bounds, te, pool, conds, s, sp, x);
    forall choice: seq<bool> | |choice| == |conds|
      ensures Exceeds(tm, bounds, te, pool, conds, choice, s, sp, x) <==>
        Chosen(tm, te, pool, conds, choice, s, true, x) && !Chosen(tm, te, pool, conds, choice, sp, false, Shift(bounds, x))
    {
      ExceedsChosen(tm, bounds, te, pool, conds, choice, s, sp, x);
    }
    if x in Verdict(tm, bounds, te, pool, conds, s, sp, false) {
      var choice := Witness(tm, bounds, te, pool, conds, s, sp, x, false);
    }
    if choice: seq<bool> :| |choice| == |conds| && Exceeds(tm, bounds, te, pool, conds, choice, s, sp, x) {
      ExcessReported(tm, bounds, te, pool, conds, choice, s, sp, x, false);
    }
  }

  lemma ExceedsChosen(tm: TypeMaps, bounds: seq<nat>, te: Avtab, pool: seq<Node>, conds: seq<CondNode>, choice: seq<bool>, s: nat, sp: nat, x: Perm)
    requires AllInRange(tm, te.pool) && ChainsInPool(te) && AllInRange(tm, pool) && AllLists(pool, conds) && |choice| == |conds|
    ensures Exceeds(tm, bounds, te, pool, conds, choice, s, sp, x) <==>
      Chosen(tm, te, pool, conds, choice, s, true, x) && !Chosen(tm, te, pool, conds, choice, sp, false, Shift(bounds, x))
  {
    hide Chosen, MayDo, Shift, OnBound, AllInRange, ChainsInPool, AllLists;
    OnBoundIs(bounds, x);
    ChosenExactly(tm, te, pool, conds, choice, s, true, x);
    ChosenExactly(tm, te, pool, conds, choice, sp, false, Shift(bounds, x));
  }

  /** Some reported rule has the permission. */
  ghost predicate Reported(bad: seq<BadRule>, x: Perm) {
    exists k :: 0 <= k < |bad| && bad[k].target == x.target + 1 && bad[k].tclass == x.tclass && BitSet(bad[k].data, x.bit)
  }

  lemma ReportedIs(bad: seq<BadRule>, numbad: nat, child: nat, perms: iset<Perm>, x: Perm)
    requires Reports(bad, numbad, child, perms)
    ensures Reported(bad, x) <==> x in perms
  {
    hide BitSet;
  }

  /**
     The bounds check of one child. The reported rules carry exactly the child permissions
     that are not covered, and nothing is reported exactly when, however the branches of the
     conditionals are chosen, everything the child may do its parent may do to the target's bound.
   */
  method BoundsCheckType(db: PolicyDb, bounds: seq<nat>, child: nat, parent: nat) returns (bad: seq<BadRule>, numbad: nat)
    requires db.Valid() && child > 0 && parent > 0
    ensures AllInRange(db.tm, db.te.pool) && AllInRange(db.tm, db.teCond.pool)
    ensures ChainsInPool(db.te) && AllLists(db.teCond.pool, db.condList)
    ensures Reports(bad, numbad, child, Verdict(db.tm, bounds, db.te, db.teCond.pool, db.condList, child - 1, parent - 1, false))
    ensures numbad == 0 <==> forall choice: seq<bool> :: |choice| == |db.condList| ==>
      Within(db.tm, bounds, db.te, db.teCond.pool, db.condList, choice, child - 1, parent - 1, false)
    ensures numbad == |bad| && forall k :: 0 <= k < |bad| ==> bad[k].source == child && bad[k].target > 0 && bad[k].data != 0
    ensures forall x: Perm :: Reported(bad, x) <==>
      ExceedsSome(db.tm, bounds, db.te, db.teCond.pool, db.condList, child - 1, parent - 1, x)
  {
    hide *;
    PolicyInRange(db);
    VerdictExact(db.tm, bounds, db.te, db.teCond.pool, db.condList, child - 1, parent - 1, false);
    bad, numbad := CheckBounds(db.tm, bounds, db.te, db.teCond.pool, db.condList, child, parent);
    ghost var verdict := Verdict(db.tm, bounds, db.te, db.teCond.pool, db.condList, child - 1, parent - 1, false);
    ReportsNone(bad, numbad, child, verdict);
    ReportsShape(bad, numbad, child, verdict);
    forall x: Perm
      ensures Reported(bad, x) <==> ExceedsSome(db.tm, bounds, db.te, db.teCond.pool, db.condList, child - 1, parent - 1, x)
    {
      ReportedIs(bad, numbad, child, verdict, x);
      VerdictExceeds(db.tm, bounds, db.te, db.teCond.pool, db.condList, child - 1, parent - 1, x);
    }
  }

  lemma ReportsShape(bad: seq<BadRule>, numbad: nat, child: nat, perms: iset<Perm>)
    requires Reports(bad, numbad, child, perms)
    ensures numbad == |bad| && forall k :: 0 <= k < |bad| ==> bad[k].source == child && bad[k].target > 0 && bad[k].data != 0
  {
  }

  method CheckBounds(tm: TypeMaps, bounds: seq<nat>, te: Avtab, pool: seq<Node>, conds: seq<CondNode>, child: nat, parent: nat)
    returns (bad: seq<BadRule>, numbad: nat)
    requires te.Valid() && ChainsInPool(te) && AllInRange(tm, te.pool) && AllInRange(tm, pool) && AllLists(pool, conds)
    requires child > 0 && parent > 0
    ensures Reports(bad, numbad, child, Verdict(tm, bounds, te, pool, conds, child - 1, parent - 1, false))
  {
    VerdictDef(tm, bounds, te, pool, conds, child - 1, parent - 1, false);
    hide *;
    var rc, global, infos := BoundsExpandParentRules(tm, te, pool, conds, parent);
    bad, numbad := BoundsCheckChildRules(tm, bounds, te, pool, global, infos, child, parent, conds);
  }

  lemma VerdictDef(tm: TypeMaps, bounds: seq<nat>, te: Avtab, pool: seq<Node>, conds: seq<CondNode>, s: nat, sp: nat, strict: bool)
    requires AllInRange(tm, te.pool) && ChainsInPool(te) && AllInRange(tm, pool) && AllLists(pool, conds)
    ensures Verdict(tm, bounds, te, pool, conds, s, sp, strict)
      == Uncovered(TablePerms(tm, te.pool, te.htable, s), bounds, Steady(tm, te, pool, conds, sp, strict))
      + AllBad(tm, pool, conds, 0, s, sp, bounds, Steady(tm, te, pool, conds, sp, strict), strict)
  {
  }

  // ---------------------------------------------------------------- soundness for the access decision

  lemma {:induction false} ListMember(tm: TypeMaps, pool: seq<Node>, list: seq<nat>, s: nat, allowOnly: bool, x: Perm)
    requires AllInRange(tm, pool) && InPool(pool, list)
    ensures x in ListPerms(tm, pool, list, s, allowOnly) <==> exists p: nat ::
      p in list && p < |pool| && (allowOnly ==> Has(pool[p].key.specified, ALLOWED)) && x in RulePerms(tm, pool[p], s)
    decreases |list|
  {
    hide RulePerms, Has;
    if list != [] {
      var k := |list| - 1;
      ListMember(tm, pool, list[..k], s, allowOnly, x);
      assert list == list[..k] + [list[k]];
    }
  }

  lemma {:induction false} TableMember(tm: TypeMaps, pool: seq<Node>, htable: seq<seq<nat>>, s: nat, x: Perm)
    requires AllInRange(tm, pool) && forall i :: 0 <= i < |htable| ==> InPool(pool, htable[i])
    ensures x in TablePerms(tm, pool, htable, s) <==> exists p: nat ::
      Linked(htable, p) && p < |pool| && Has(pool[p].key.specified, ALLOWED) && x in RulePerms(tm, pool[p], s)
    decreases |htable|
  {
    hide RulePerms, Has, ListPerms;
    if htable != [] {
      var k := |htable| - 1;
      TableMember(tm, pool, htable[..k], s, x);
      ListMember(tm, pool, htable[k], s, true, x);
      forall p: nat ensures Linked(htable, p) <==> Linked(htable[..k], p) || p in htable[k] {
        if Linked(htable, p) {
          var i :| 0 <= i < |htable| && p in htable[i];
          assert i < k ==> p in htable[..k][i];
        }
        if Linked(htable[..k], p) {
          var i :| 0 <= i < |htable[..k]| && p in htable[..k][i];
          assert p in htable[i];
        }
      }
      hide Linked;
    }
  }

  function Asking(s: nat, x: Perm): Access
    requires x.bit < 32
  {
    Access(s, x.target, x.tclass, Bits(Allow, Single(x.bit)))
  }

  /** A rule speaks to an allow question exactly when it is an allow rule giving the permission. */
  lemma RuleSpeaks(tm: TypeMaps, n: Node, s: nat, x: Perm)
    requires tm.Valid() && RuleOk(tm, n) && tm.Concrete(s) && tm.Concrete(x.target) && x.bit < 32
    ensures KeyInRange(tm, n)
    ensures Speaks(tm, n, Asking(s, x)) <==> Has(n.key.specified, ALLOWED) && x in RulePerms(tm, n, s)
  {
    var k :| OfKind(n.key.specified, k);
    KindFacts(n.key.specified, k);
    if OfKind(n.key.specified, Allow) { KindUnique(n.key.specified, k, Allow); }
    hide OfKind, Has, Meets, Single, OneKind, IsXperms;
    assert s in tm.attrType[n.key.source - 1] <==> n.key.source - 1 in tm.typeAttr[s];
    assert x.target in tm.attrType[n.key.target - 1] <==> n.key.target - 1 in tm.typeAttr[x.target];
  }

  lemma TableSpeaks(db: PolicyDb, s: nat, x: Perm)
    requires db.Valid() && db.tm.Concrete(s) && db.tm.Concrete(x.target) && x.bit < 32
    ensures AllInRange(db.tm, db.te.pool) && ChainsInPool(db.te)
    ensures TableDecides(db.tm, db.te.pool, db.te.htable, Asking(s, x)) <==> x in TablePerms(db.tm, db.te.pool, db.te.htable, s)
  {
    PolicyInRange(db);
    TableMember(db.tm, db.te.pool, db.te.htable, s, x);
    hide RuleOk, RulePerms, Speaks, Has, TablePerms, Linked, Asking;
    forall p: nat | p < |db.te.pool|
      ensures Speaks(db.tm, db.te.pool[p], Asking(s, x)) <==>
        Has(db.te.pool[p].key.specified, ALLOWED) && x in RulePerms(db.tm, db.te.pool[p], s)
    {
      RuleSpeaks(db.tm, db.te.pool[p], s, x);
    }
  }

  lemma BranchSpeaks(db: PolicyDb, list: seq<nat>, s: nat, x: Perm)
    requires db.Valid() && db.tm.Concrete(s) && db.tm.Concrete(x.target) && x.bit < 32 && InPool(db.teCond.pool, list)
    ensures AllInRange(db.tm, db.teCond.pool)
    ensures ListDecides(db.tm, db.teCond.pool, list, Asking(s, x)) <==> x in ListPerms(db.tm, db.teCond.pool, list, s, true)
  {
    PolicyInRange(db);
    ListMember(db.tm, db.teCond.pool, list, s, true, x);
    hide RuleOk, RulePerms, Speaks, Has, ListPerms, Linked, Asking;
    forall p: nat | p < |db.teCond.pool|
      ensures Speaks(db.tm, db.teCond.pool[p], Asking(s, x)) <==>
        Has(db.teCond.pool[p].key.specified, ALLOWED) && x in RulePerms(db.tm, db.teCond.pool[p], s)
    {
      RuleSpeaks(db.tm, db.teCond.pool[p], s, x);
    }
  }

  /** With every conditional defined, an allowed access is one of the taken branches' permissions. */
  lemma DecidesChosen(db: PolicyDb, asg: seq<bool>, s: nat, x: Perm)
    requires db.Valid() && |asg| == |db.bools| && AllDefined(db.condList, asg)
    requires db.tm.Concrete(s) && db.tm.Concrete(x.target) && x.bit < 32
    ensures AllInRange(db.tm, db.te.pool) && AllInRange(db.tm, db.teCond.pool) && ChainsInPool(db.te) && AllLists(db.teCond.pool, db.condList)
    ensures db.Decides(asg, Asking(s, x)) <==>
      Chosen(db.tm, db.te, db.teCond.pool, db.condList, Taken(db.condList, asg), s, true, x)
  {
    PolicyInRange(db);
    TableSpeaks(db, s, x);
    var pool, conds, choice := db.teCond.pool, db.condList, Taken(db.condList, asg);
    var a := Asking(s, x);
    assert db.Decides(asg, a) <==> TableDecides(db.tm, db.te.pool, db.te.htable, a) || CondDecides(db.tm, pool, conds, asg, a);
    hide TableDecides, ListDecides, ListPerms, TablePerms, Asking, Evaluate, PolicyDb.Valid, AllInRange, ChainsInPool;
    forall k | 0 <= k < |conds|
      ensures ListDecides(db.tm, pool, Branch(conds[k], Evaluate(conds[k].expr, asg)), a) <==> ByBranch(db.tm, pool, conds, k, choice[k], s, true, x)
    {
      assert ListsInRange(pool, conds[k]);
      BranchSpeaks(db, conds[k].trueList, s, x);
      BranchSpeaks(db, conds[k].falseList, s, x);
    }
    hide ByBranch, Branch;
  }

  /** No conditional rule of another kind reaches the parent. */
  ghost predicate OnlyAllows(tm: TypeMaps, pool: seq<Node>, conds: seq<CondNode>, sp: nat)
    requires AllInRange(tm, pool)
  {
    forall k, p: nat :: 0 <= k < |conds| && (p in conds[k].trueList || p in conds[k].falseList) && p < |pool| ==>
      Has(pool[p].key.specified, ALLOWED) || sp !in tm.attrType[pool[p].key.source - 1]
  }

  lemma OnlyAllowsList(tm: TypeMaps, pool: seq<Node>, conds: seq<CondNode>, k: nat, branch: bool, sp: nat, x: Perm)
    requires AllInRange(tm, pool) && AllLists(pool, conds) && OnlyAllows(tm, pool, conds, sp) && k < |conds|
    ensures ByBranch(tm, pool, conds, k, branch, sp, false, x) ==> ByBranch(tm, pool, conds, k, branch, sp, true, x)
  {
    assert ListsInRange(pool, conds[k]);
    var list := if branch then conds[k].trueList else conds[k].falseList;
    ListMember(tm, pool, list, sp, false, x);
    ListMember(tm, pool, list, sp, true, x);
    hide ListPerms, Has;
  }

  /** Filtering the parent's conditional rules on allow reports no less. */
  lemma StrictReportsMore(tm: TypeMaps, bounds: seq<nat>, te: Avtab, pool: seq<Node>, conds: seq<CondNode>, s: nat, sp: nat, x: Perm)
    requires AllInRange(tm, te.pool) && ChainsInPool(te) && AllInRange(tm, pool) && AllLists(pool, conds)
    requires x in Verdict(tm, bounds, te, pool, conds, s, sp, false)
    ensures x in Verdict(tm, bounds, te, pool, conds, s, sp, true)
  {
    hide Verdict, Chosen;
    var choice := Witness(tm, bounds, te, pool, conds, s, sp, x, false);
    if Chosen(tm, te, pool, conds, choice, sp, true, Shift(bounds, x)) {
      StrictChosen(tm, te, pool, conds, choice, sp, Shift(bounds, x));
    }
    ExcessReported(tm, bounds, te, pool, conds, choice, s, sp, x, true);
  }

  lemma StrictChosen(tm: TypeMaps, te: Avtab, pool: seq<Node>, conds: seq<CondNode>, choice: seq<bool>, sp: nat, y: Perm)
    requires AllInRange(tm, te.pool) && ChainsInPool(te) && AllInRange(tm, pool) && AllLists(pool, conds) && |choice| == |conds|
    requires Chosen(tm, te, pool, conds, choice, sp, true, y)
    ensures Chosen(tm, te, pool, conds, choice, sp, false, y)
  {
    hide TablePerms;
    if y !in TablePerms(tm, te.pool, te.htable, sp) {
      var k :| 0 <= k < |conds| && ByBranch(tm, pool, conds, k, choice[k], sp, true, y);
      assert ListsInRange(pool, conds[k]);
      var list := if choice[k] then conds[k].trueList else conds[k].falseList;
      ListMember(tm, pool, list, sp, false, y);
      ListMember(tm, pool, list, sp, true, y);
      hide ListPerms, RulePerms, Has;
      assert ByBranch(tm, pool, conds, k, choice[k], sp, false, y);
    }
  }

  /** Where only allow rules reach the parent the check is strict. */
  lemma OnlyAllowsStrict(tm: TypeMaps, bounds: seq<nat>, te: Avtab, pool: seq<Node>, conds: seq<CondNode>, s: nat, sp: nat)
    requires AllInRange(tm, te.pool) && ChainsInPool(te) && AllInRange(tm, pool) && AllLists(pool, conds)
    requires OnlyAllows(tm, pool, conds, sp)
    ensures Verdict(tm, bounds, te, pool, conds, s, sp, true) == Verdict(tm, bounds, te, pool, conds, s, sp, false)
  {
    hide Verdict, Chosen, OnlyAllows;
    forall x: Perm ensures x in Verdict(tm, bounds, te, pool, conds, s, sp, true) <==> x in Verdict(tm, bounds, te, pool, conds, s, sp, false) {
      if x in Verdict(tm, bounds, te, pool, conds, s, sp, false) {
        StrictReportsMore(tm, bounds, te, pool, conds, s, sp, x);
      }
      if x in Verdict(tm, bounds, te, pool, conds, s, sp, true) {
        var choice := Witness(tm, bounds, te, pool, conds, s, sp, x, true);
        OnlyAllowsChosen(tm, te, pool, conds, choice, sp, Shift(bounds, x));
        ExcessReported(tm, bounds, te, pool, conds, choice, s, sp, x, false);
      }
    }
  }

  lemma OnlyAllowsChosen(tm: TypeMaps, te: Avtab, pool: seq<Node>, conds: seq<CondNode>, choice: seq<bool>, sp: nat, y: Perm)
    requires AllInRange(tm, te.pool) && ChainsInPool(te) && AllInRange(tm, pool) && AllLists(pool, conds) && |choice| == |conds|
    requires OnlyAllows(tm, pool, conds, sp)
    ensures Chosen(tm, te, pool, conds, choice, sp, false, y) ==> Chosen(tm, te, pool, conds, choice, sp, true, y)
  {
    hide TablePerms, ByBranch, OnlyAllows;
    if Chosen(tm, te, pool, conds, choice, sp, false, y) && y !in TablePerms(tm, te.pool, te.htable, sp) {
      var k :| 0 <= k < |conds| && ByBranch(tm, pool, conds, k, choice[k], sp, false, y);
      OnlyAllowsList(tm, pool, conds, k, choice[k], sp, y);
    }
  }

  /** The decision can be asked about the permission and about its counterpart on the bound. */
  ghost predicate Askable(tm: TypeMaps, bounds: seq<nat>, x: Perm) {
    tm.Concrete(x.target) && tm.Concrete(Bound(bounds, x.target)) && x.bit < 32
  }

  /** Under an assignment the child is allowed nothing that its parent is not allowed on the bound. */
  ghost predicate Bounded(db: PolicyDb, bounds: seq<nat>, child: nat, parent: nat, asg: seq<bool>)
    requires db.Valid() && |asg| == |db.bools| && child > 0 && parent > 0
    reads db, db.te, db.teCond
  {
    forall x: Perm :: Askable(db.tm, bounds, x) && db.Decides(asg, Asking(child - 1, x)) ==>
      db.Decides(asg, Asking(parent - 1, Shift(bounds, x)))
  }

  /** Bounded says: a permission allowed to the child on a type is allowed to the parent on the type's bound. */
  lemma BoundedMeans(db: PolicyDb, bounds: seq<nat>, child: nat, parent: nat, asg: seq<bool>)
    requires db.Valid() && |asg| == |db.bools| && child > 0 && parent > 0
    ensures Bounded(db, bounds, child, parent, asg) <==>
      forall x: Perm :: x.bit < 32 && db.tm.Concrete(x.target) && db.tm.Concrete(OnBound(bounds, x).target) ==>
        (db.Decides(asg, Access(child - 1, x.target, x.tclass, Bits(Allow, Single(x.bit)))) ==>
          db.Decides(asg, Access(parent - 1, OnBound(bounds, x).target, x.tclass, Bits(Allow, Single(x.bit)))))
  {
    hide PolicyDb.Decides, PolicyDb.Valid, Single;
    forall x: Perm ensures Shift(bounds, x) == OnBound(bounds, x) && Bound(bounds, x.target) == OnBound(bounds, x).target {
      OnBoundIs(bounds, x);
    }
    hide OnBound, Shift, Bound;
  }

  /** No permission that can be asked about is in the verdict. */
  ghost predicate Clean(db: PolicyDb, bounds: seq<nat>, child: nat, parent: nat, strict: bool)
    requires AllInRange(db.tm, db.te.pool) && ChainsInPool(db.te) && AllInRange(db.tm, db.teCond.pool)
    requires AllLists(db.teCond.pool, db.condList) && child > 0 && parent > 0
    reads db, db.te, db.teCond
  {
    forall x: Perm :: Askable(db.tm, bounds, x) ==>
      x !in Verdict(db.tm, bounds, db.te, db.teCond.pool, db.condList, child - 1, parent - 1, strict)
  }

  ghost predicate Together(db: PolicyDb, child: nat, parent: nat) {
    child > 0 && parent > 0 && db.tm.Concrete(child - 1) && db.tm.Concrete(parent - 1)
  }

  /** Some assignment takes these branches, with every conditional defined. */
  ghost predicate Takeable(conds: seq<CondNode>, n: nat, choice: seq<bool>)
    requires ExprsInScope(conds, n)
  {
    exists asg: seq<bool> :: |asg| == n && AllDefined(conds, asg) && Taken(conds, asg) == choice
  }

  /** The conditions are independent: every choice of branches is taken by some assignment. */
  ghost predicate Independent(conds: seq<CondNode>, n: nat)
    requires ExprsInScope(conds, n)
  {
    forall choice: seq<bool> :: |choice| == |conds| ==> Takeable(conds, n, choice)
  }

  /** An excess under an assignment is in the strict verdict. */
  lemma BoundedAt(db: PolicyDb, bounds: seq<nat>, child: nat, parent: nat, asg: seq<bool>)
    requires db.Valid() && Together(db, child, parent) && |asg| == |db.bools| && AllDefined(db.condList, asg)
    requires AllInRange(db.tm, db.te.pool) && ChainsInPool(db.te) && AllInRange(db.tm, db.teCond.pool)
    requires AllLists(db.teCond.pool, db.condList) && Clean(db, bounds, child, parent, true)
    ensures Bounded(db, bounds, child, parent, asg)
  {
    hide PolicyDb.Valid, PolicyDb.Decides, Asking, AllDefined, AllInRange, ChainsInPool, AllLists, Clean;
    forall x: Perm | Askable(db.tm, bounds, x) && db.Decides(asg, Asking(child - 1, x))
      ensures db.Decides(asg, Asking(parent - 1, Shift(bounds, x)))
    {
      AnsweredFor(db, bounds, child, parent, asg, x);
    }
  }

  lemma AskFacts(db: PolicyDb, bounds: seq<nat>, child: nat, parent: nat, x: Perm)
    requires db.Valid() && Together(db, child, parent) && Askable(db.tm, bounds, x)
    ensures ExprsInScope(db.condList, |db.bools|) && child > 0 && parent > 0
    ensures db.tm.Concrete(child - 1) && db.tm.Concrete(parent - 1) && x.bit < 32 && Shift(bounds, x).bit < 32
    ensures db.tm.Concrete(x.target) && db.tm.Concrete(Shift(bounds, x).target)
  {
  }

  lemma NotReported(db: PolicyDb, bounds: seq<nat>, child: nat, parent: nat, x: Perm)
    requires AllInRange(db.tm, db.te.pool) && ChainsInPool(db.te) && AllInRange(db.tm, db.teCond.pool)
    requires AllLists(db.teCond.pool, db.condList) && child > 0 && parent > 0
    requires Clean(db, bounds, child, parent, true) && Askable(db.tm, bounds, x)
    ensures x !in Verdict(db.tm, bounds, db.te, db.teCond.pool, db.condList, child - 1, parent - 1, true)
  {
  }

  lemma AnsweredFor(db: PolicyDb, bounds: seq<nat>, child: nat, parent: nat, asg: seq<bool>, x: Perm)
    requires db.Valid() && Together(db, child, parent) && |asg| == |db.bools| && AllDefined(db.condList, asg)
    requires AllInRange(db.tm, db.te.pool) && ChainsInPool(db.te) && AllInRange(db.tm, db.teCond.pool)
    requires AllLists(db.teCond.pool, db.condList) && Clean(db, bounds, child, parent, true)
    requires Askable(db.tm, bounds, x) && db.Decides(asg, Asking(child - 1, x))
    ensures db.Decides(asg, Asking(parent - 1, Shift(bounds, x)))
  {
    hide *;
    AskFacts(db, bounds, child, parent, x);
    NotReported(db, bounds, child, parent, x);
    DecidesChosen(db, asg, child - 1, x);
    DecidesChosen(db, asg, parent - 1, Shift(bounds, x));
    if !db.Decides(asg, Asking(parent - 1, Shift(bounds, x))) {
      ExcessReported(db.tm, bounds, db.te, db.teCond.pool, db.condList, Taken(db.condList, asg), child - 1, parent - 1, x, true);
    }
  }

  /**
     Soundness: when the strict verdict is clean, a child is allowed nothing its parent is not
     allowed on the target's bound, whatever the booleans.
   */
  lemma BoundsSound(db: PolicyDb, bounds: seq<nat>, child: nat, parent: nat)
    requires db.Valid() && Together(db, child, parent)
    ensures AllInRange(db.tm, db.te.pool) && ChainsInPool(db.te) && AllInRange(db.tm, db.teCond.pool)
    ensures AllLists(db.teCond.pool, db.condList)
    ensures Clean(db, bounds, child, parent, true) ==>
      forall asg: seq<bool> :: |asg| == |db.bools| && AllDefined(db.condList, asg) ==> Bounded(db, bounds, child, parent, asg)
  {
    PolicyInRange(db);
    hide Bounded, Clean, AllDefined, PolicyDb.Valid;
    if Clean(db, bounds, child, parent, true) {
      forall asg: seq<bool> | |asg| == |db.bools| && AllDefined(db.condList, asg) ensures Bounded(db, bounds, child, parent, asg) {
        BoundedAt(db, bounds, child, parent, asg);
      }
    }
  }

  lemma NotBounded(db: PolicyDb, bounds: seq<nat>, child: nat, parent: nat, asg: seq<bool>, x: Perm)
    requires db.Valid() && |asg| == |db.bools| && child > 0 && parent > 0 && Askable(db.tm, bounds, x)
    requires db.Decides(asg, Asking(child - 1, x)) && !db.Decides(asg, Asking(parent - 1, Shift(bounds, x)))
    ensures !Bounded(db, bounds, child, parent, asg)
  {
    hide PolicyDb.Valid, PolicyDb.Decides, Asking;
  }

  lemma AssignmentFor(conds: seq<CondNode>, n: nat, choice: seq<bool>) returns (asg: seq<bool>)
    requires ExprsInScope(conds, n) && Independent(conds, n) && |choice| == |conds|
    ensures |asg| == n && AllDefined(conds, asg) && Taken(conds, asg) == choice
  {
    hide AllDefined, Taken, ExprsInScope;
    assert Takeable(conds, n, choice);
    asg :| |asg| == n && AllDefined(conds, asg) && Taken(conds, asg) == choice;
  }

  /** A strictly reported permission exceeds the parent under some assignment of independent conditions. */
  lemma ExcessDecided(db: PolicyDb, bounds: seq<nat>, child: nat, parent: nat, x: Perm) returns (asg: seq<bool>)
    requires db.Valid() && Together(db, child, parent) && Independent(db.condList, |db.bools|) && Askable(db.tm, bounds, x)
    requires AllInRange(db.tm, db.te.pool) && ChainsInPool(db.te) && AllInRange(db.tm, db.teCond.pool)
    requires AllLists(db.teCond.pool, db.condList)
    requires x in Verdict(db.tm, bounds, db.te, db.teCond.pool, db.condList, child - 1, parent - 1, true)
    ensures |asg| == |db.bools| && AllDefined(db.condList, asg) && !Bounded(db, bounds, child, parent, asg)
  {
    hide *;
    AskFacts(db, bounds, child, parent, x);
    var choice := Witness(db.tm, bounds, db.te, db.teCond.pool, db.condList, child - 1, parent - 1, x, true);
    asg := AssignmentFor(db.condList, |db.bools|, choice);
    DecidesChosen(db, asg, child - 1, x);
    DecidesChosen(db, asg, parent - 1, Shift(bounds, x));
    NotBounded(db, bounds, child, parent, asg, x);
  }

  /**
     Exactly when: if the conditions are independent, the child is bounded under every
     assignment iff nothing is reported once the parent's conditional rules are filtered on
     allow as the child's are.
   */
  lemma BoundsExactly(db: PolicyDb, bounds: seq<nat>, child: nat, parent: nat)
    requires db.Valid() && Together(db, child, parent) && Independent(db.condList, |db.bools|)
    ensures AllInRange(db.tm, db.te.pool) && ChainsInPool(db.te) && AllInRange(db.tm, db.teCond.pool)
    ensures AllLists(db.teCond.pool, db.condList)
    ensures Clean(db, bounds, child, parent, true) <==>
      forall asg: seq<bool> :: |asg| == |db.bools| && AllDefined(db.condList, asg) ==> Bounded(db, bounds, child, parent, asg)
  {
    PolicyInRange(db);
    BoundsSound(db, bounds, child, parent);
    hide Bounded, AllDefined, PolicyDb.Valid, Verdict, Askable, Independent;
    if !Clean(db, bounds, child, parent, true) {
      var x: Perm :| Askable(db.tm, bounds, x)
        && x in Verdict(db.tm, bounds, db.te, db.teCond.pool, db.condList, child - 1, parent - 1, true);
      var asg := ExcessDecided(db, bounds, child, parent, x);
    }
  }

  /** Under a choice of branches, the child's allow permissions that can be asked about are the parent's. */
  ghost predicate WithinAsked(db: PolicyDb, bounds: seq<nat>, child: nat, parent: nat, choice: seq<bool>)
    requires AllInRange(db.tm, db.te.pool) && ChainsInPool(db.te) && AllInRange(db.tm, db.teCond.pool)
    requires AllLists(db.teCond.pool, db.condList) && child > 0 && parent > 0 && |choice| == |db.condList|
    reads db, db.te, db.teCond
  {
    forall x: Perm :: Askable(db.tm, bounds, x) && Chosen(db.tm, db.te, db.teCond.pool, db.condList, choice, child - 1, true, x) ==>
      Chosen(db.tm, db.te, db.teCond.pool, db.condList, choice, parent - 1, true, Shift(bounds, x))
  }

  lemma InScope(db: PolicyDb)
    requires db.Valid()
    ensures ExprsInScope(db.condList, |db.bools|)
  {
  }

  /** What is decided under an assignment is what the branches it takes give. */
  lemma BoundedByTaken(db: PolicyDb, bounds: seq<nat>, child: nat, parent: nat, asg: seq<bool>)
    requires db.Valid() && Together(db, child, parent) && |asg| == |db.bools| && AllDefined(db.condList, asg)
    requires AllInRange(db.tm, db.te.pool) && ChainsInPool(db.te) && AllInRange(db.tm, db.teCond.pool)
    requires AllLists(db.teCond.pool, db.condList)
    ensures Bounded(db, bounds, child, parent, asg) <==> WithinAsked(db, bounds, child, parent, Taken(db.condList, asg))
  {
    hide PolicyDb.Valid, PolicyDb.Decides, Asking, AllDefined, AllInRange, ChainsInPool, AllLists, Chosen, Taken, Askable, Evaluate;
    hide ExprsInScope;
    InScope(db);
    forall x: Perm | Askable(db.tm, bounds, x)
      ensures x.bit < 32 && Shift(bounds, x).bit < 32
      ensures db.Decides(asg, Asking(child - 1, x)) <==>
        Chosen(db.tm, db.te, db.teCond.pool, db.condList, Taken(db.condList, asg), child - 1, true, x)
      ensures db.Decides(asg, Asking(parent - 1, Shift(bounds, x))) <==>
        Chosen(db.tm, db.te, db.teCond.pool, db.condList, Taken(db.condList, asg), parent - 1, true, Shift(bounds, x))
    {
      AskFacts(db, bounds, child, parent, x);
      DecidesChosen(db, asg, child - 1, x);
      DecidesChosen(db, asg, parent - 1, Shift(bounds, x));
    }
  }

  /**
     For all policies: the child is bounded under every assignment iff, under every choice of
     branches that some assignment takes, its allow permissions are among the parent's.
   */
  lemma BoundsTaken(db: PolicyDb, bounds: seq<nat>, child: nat, parent: nat)
    requires db.Valid() && Together(db, child, parent)
    ensures AllInRange(db.tm, db.te.pool) && ChainsInPool(db.te) && AllInRange(db.tm, db.teCond.pool)
    ensures AllLists(db.teCond.pool, db.condList)
    ensures (forall asg: seq<bool> :: |asg| == |db.bools| && AllDefined(db.condList, asg) ==> Bounded(db, bounds, child, parent, asg)) <==>
      forall choice: seq<bool> :: |choice| == |db.condList| && Takeable(db.condList, |db.bools|, choice) ==>
        WithinAsked(db, bounds, child, parent, choice)
  {
    PolicyInRange(db);
    hide Bounded, AllDefined, PolicyDb.Valid, WithinAsked, Taken, AllInRange, ChainsInPool, AllLists, Evaluate;
    forall asg: seq<bool> | |asg| == |db.bools| && AllDefined(db.condList, asg)
      ensures Bounded(db, bounds, child, parent, asg) <==> WithinAsked(db, bounds, child, parent, Taken(db.condList, asg))
      ensures Takeable(db.condList, |db.bools|, Taken(db.condList, asg))
    {
      BoundedByTaken(db, bounds, child, parent, asg);
    }
  }

  // ---------------------------------------------------------------- conditional rules of other kinds

  const TWO_TYPES: TypeMaps := TypeMaps([Plain, Plain], [{0}, {1}], [{0}, {1}])

  /** Type 1 is bounded by type 2. */
  const FIRST_BELOW_SECOND: seq<nat> := [2, 0]

  /** One permission on type 2, for type `source`. */
  function OneRule(source: nat, kind: bv16): Node {
    Node(Key(source, 2, 1, kind), Datum(1, None))
  }

  /** A conditional auditing the parent on both branches. */
  const AUDITED: CondNode := CondNode(Undefined, [Push(1)], [0], [1], [], [], 0, [], 0)

  lemma OneRulePerms(source: nat, kind: bv16, s: nat, x: Perm)
    requires 0 < source <= 2
    ensures KeyInRange(TWO_TYPES, OneRule(source, kind))
    ensures x in RulePerms(TWO_TYPES, OneRule(source, kind), s) <==> s == source - 1 && x == Perm(1, 1, 0)
  {
    assert Single(0) == 1;
    hide Meets, Single;
    if x.bit < 32 { SingleMeets(0, x.bit); }
  }

  /** The policy of the example: the child is allowed, the parent only audited. */
  ghost predicate AuditedParent(db: PolicyDb)
    reads db, db.te, db.teCond
  {
    && db.Valid() && db.tm == TWO_TYPES && |db.bools| == 1 && db.condList == [AUDITED]
    && db.te.pool == [OneRule(1, ALLOWED)] && (forall p: nat :: Linked(db.te.htable, p) <==> p == 0)
    && db.teCond.pool == [OneRule(2, AUDITALLOW), OneRule(2, AUDITALLOW)]
  }

  lemma AuditedTable(db: PolicyDb, s: nat, x: Perm)
    requires AuditedParent(db) && AllInRange(TWO_TYPES, db.te.pool) && ChainsInPool(db.te)
    ensures x in TablePerms(TWO_TYPES, db.te.pool, db.te.htable, s) <==> s == 0 && x == Perm(1, 1, 0)
  {
    hide PolicyDb.Valid;
    TableMember(TWO_TYPES, db.te.pool, db.te.htable, s, x);
    OneRulePerms(1, ALLOWED, s, x);
    assert Has(ALLOWED, ALLOWED) && db.te.pool[0].key.specified == ALLOWED;
    hide RulePerms, Has, TablePerms, OneRule, Linked;
  }

  lemma AuditedBranch(db: PolicyDb, branch: bool, s: nat, allowOnly: bool, x: Perm)
    requires AuditedParent(db) && AllInRange(TWO_TYPES, db.teCond.pool) && AllLists(db.teCond.pool, db.condList)
    ensures ByBranch(TWO_TYPES, db.teCond.pool, db.condList, 0, branch, s, allowOnly, x) <==> !allowOnly && s == 1 && x == Perm(1, 1, 0)
  {
    hide PolicyDb.Valid, Linked;
    var pool, list := db.teCond.pool, if branch then AUDITED.trueList else AUDITED.falseList;
    assert list == if branch then [0] else [1];
    assert !Has(AUDITALLOW, ALLOWED) && pool[0].key.specified == AUDITALLOW;
    assert ListsInRange(pool, db.condList[0]);
    ListMember(TWO_TYPES, pool, list, s, allowOnly, x);
    OneRulePerms(2, AUDITALLOW, s, x);
    hide RulePerms, Has, ListPerms, OneRule;
  }

  /** As the check counts the parent, the child is within it under every choice. */
  lemma AuditedWithin(db: PolicyDb, choice: seq<bool>)
    requires AuditedParent(db) && |choice| == 1
    requires AllInRange(db.tm, db.te.pool) && ChainsInPool(db.te) && AllInRange(db.tm, db.teCond.pool)
    requires AllLists(db.teCond.pool, db.condList)
    ensures Within(TWO_TYPES, FIRST_BELOW_SECOND, db.te, db.teCond.pool, db.condList, choice, 0, 1, false)
  {
    hide TablePerms, ByBranch, AllInRange, ChainsInPool, AllLists, OneRule, PolicyDb.Valid, Linked;
    forall x: Perm | Chosen(TWO_TYPES, db.te, db.teCond.pool, db.condList, choice, 0, true, x) ensures x == Perm(1, 1, 0) {
      AuditedTable(db, 0, x);
      AuditedBranch(db, choice[0], 0, true, x);
    }
    AuditedBranch(db, choice[0], 1, false, Perm(1, 1, 0));
  }

  lemma AuditedDecides(db: PolicyDb, asg: seq<bool>)
    requires AuditedParent(db) && |asg| == 1
    ensures db.Decides(asg, Asking(0, Perm(1, 1, 0))) && !db.Decides(asg, Asking(1, Perm(1, 1, 0)))
  {
    PolicyInRange(db);
    AuditedDefined(db, asg);
    hide TablePerms, ByBranch, AllInRange, ChainsInPool, AllLists, OneRule, PolicyDb.Valid, PolicyDb.Decides, Linked, Asking, Evaluate, AllDefined;
    InScope(db);
    var x, taken := Perm(1, 1, 0), Taken(db.condList, asg);
    DecidesChosen(db, asg, 0, x);
    DecidesChosen(db, asg, 1, x);
    AuditedTable(db, 0, x);
    AuditedTable(db, 1, x);
    AuditedBranch(db, taken[0], 1, true, x);
  }

  /** Nothing is reported for it, under any assignment the child is allowed, the parent is not. */
  lemma AuditCoversAllow(db: PolicyDb)
    requires AuditedParent(db)
    ensures AllInRange(db.tm, db.te.pool) && ChainsInPool(db.te) && AllInRange(db.tm, db.teCond.pool)
    ensures AllLists(db.teCond.pool, db.condList)
    ensures Verdict(db.tm, FIRST_BELOW_SECOND, db.te, db.teCond.pool, db.condList, 0, 1, false) == iset{}
    ensures forall asg: seq<bool> :: |asg| == 1 ==>
      db.Decides(asg, Asking(0, Perm(1, 1, 0))) && !db.Decides(asg, Asking(1, Perm(1, 1, 0)))
  {
    PolicyInRange(db);
    hide AllInRange, ChainsInPool, AllLists, OneRule, PolicyDb.Valid, PolicyDb.Decides, Linked, Verdict, Asking, Within;
    forall choice: seq<bool> | |choice| == 1
      ensures Within(TWO_TYPES, FIRST_BELOW_SECOND, db.te, db.teCond.pool, db.condList, choice, 0, 1, false)
    {
      AuditedWithin(db, choice);
    }
    VerdictExact(TWO_TYPES, FIRST_BELOW_SECOND, db.te, db.teCond.pool, db.condList, 0, 1, false);
    forall asg: seq<bool> | |asg| == 1
      ensures db.Decides(asg, Asking(0, Perm(1, 1, 0))) && !db.Decides(asg, Asking(1, Perm(1, 1, 0)))
    {
      AuditedDecides(db, asg);
    }
  }

  lemma AuditedDefined(db: PolicyDb, asg: seq<bool>)
    requires AuditedParent(db) && |asg| == 1
    ensures ExprsInScope(db.condList, |asg|) && AllDefined(db.condList, asg)
  {
    assert AUDITED.expr == Postfix(Leaf(1)) && Need(Leaf(1)) <= MAXDEPTH;
    EvaluatePostfix(Leaf(1), asg);
    hide Linked, PolicyDb.Valid, Evaluate;
  }

  lemma AuditedUses(conds: seq<CondNode>, p: nat)
    requires conds == [AUDITED]
    ensures Uses(conds, p) == if p < 2 then 1 else 0
  {
    UsesSplit(conds, 0, p);
    assert conds[..0] == [] && conds[1..] == [];
    OccursOne(0, p);
    OccursOne(1, p);
    hide Occurs;
  }

  lemma OccursOne(q: nat, p: nat)
    ensures Occurs([q], p) == if p == q then 1 else 0
  {
    assert multiset([q])[p] == if p == q then 1 else 0;
  }

  lemma RulesFit(source: nat, kind: bv16, k: Kind)
    requires 0 < source <= 2 && OfKind(kind, k) && !IsXperms(kind)
    ensures RuleOk(TWO_TYPES, OneRule(source, kind))
  {
  }

  /** There is such a policy. */
  method BuildAuditedParent(hash: Hash) returns (db: PolicyDb)
    ensures AuditedParent(db)
  {
    hide *;
    AuditedRules();
    var te := new Avtab(hash);
    te.Alloc(1);
    SomeSlots(1, |te.htable|);
    EmptySlots(te.htable);
    ghost var slots := te.htable;
    var rc := te.InsertNonunique(Key(1, 2, 1, ALLOWED), Datum(1, None));
    assert rc.Some?;
    LinksOneLinked(slots, te.htable, Slot(te.hash, |te.htable|, Key(1, 2, 1, ALLOWED)), 0);
    var teCond := new Avtab(hash);
    teCond.Alloc(1);
    SomeSlots(1, |teCond.htable|);
    assert te.pool == [OneRule(1, ALLOWED)];
    db := new PolicyDb(TWO_TYPES, te, teCond, [true]);
    ghost var none := teCond.htable;
    EmptySlots(none);
    var p := teCond.InsertNonunique(Key(2, 2, 1, AUDITALLOW), Datum(1, None));
    LinksOneLinked(none, teCond.htable, Slot(teCond.hash, |teCond.htable|, Key(2, 2, 1, AUDITALLOW)), 0);
    ghost var one := teCond.htable;
    var q := teCond.InsertNonunique(Key(2, 2, 1, AUDITALLOW), Datum(1, None));
    LinksOneLinked(one, teCond.htable, Slot(teCond.hash, |teCond.htable|, Key(2, 2, 1, AUDITALLOW)), 1);
    db.condList := [AUDITED];
    AuditedValid(db);
  }

  lemma AuditedRules()
    ensures NewNode(Key(1, 2, 1, ALLOWED), Datum(1, None)) == OneRule(1, ALLOWED)
    ensures NewNode(Key(2, 2, 1, AUDITALLOW), Datum(1, None)) == OneRule(2, AUDITALLOW)
    ensures TWO_TYPES.Valid() && RulesOk(TWO_TYPES, [OneRule(1, ALLOWED)])
    ensures RulesOk(TWO_TYPES, [OneRule(2, AUDITALLOW), OneRule(2, AUDITALLOW)])
  {
    assert !Has(ALLOWED, XPERMS) && !Has(AUDITALLOW, XPERMS);
    RulesFit(1, ALLOWED, Allow);
    RulesFit(2, AUDITALLOW, AuditAllow);
    hide RuleOk;
  }

  lemma AuditedValid(db: PolicyDb)
    requires db.te != db.teCond && db.te.Valid() && db.teCond.Valid() && db.tm == TWO_TYPES && |db.bools| == 1
    requires db.condList == [AUDITED] && db.te.pool == [OneRule(1, ALLOWED)] && forall p: nat :: Linked(db.te.htable, p) <==> p == 0
    requires db.teCond.pool == [OneRule(2, AUDITALLOW), OneRule(2, AUDITALLOW)]
    requires forall p: nat :: Linked(db.teCond.htable, p) <==> p < 2
    ensures AuditedParent(db)
  {
    AuditedRules();
    hide Linked, Uses, OneRule, RuleOk;
    forall p: nat ensures Uses(db.condList, p) == if p < 2 then 1 else 0 { AuditedUses(db.condList, p); }
  }
}
