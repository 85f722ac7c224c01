/**
 The two type maps of a kernel policy: for each type the attributes it is in, and for each
 attribute the types in it (src/policydb.c, src/expand.c). Bitmaps are finite sets here;
 module Ebitmap proves that the bitmap operations are the set operations.
 */
module TypeMaps {
  import opened Avtab

  datatype Flavor = Gap | Plain | Attribute

  datatype TypeMaps = TypeMaps(flavor: seq<Flavor>, typeAttr: seq<set<nat>>, attrType: seq<set<nat>>) {
    function Nprim(): nat {
      |flavor|
    }

    predicate Concrete(s: nat) {
      s < |flavor| && flavor[s] == Plain
    }

    /** Lengths and bit ranges. */
    ghost predicate InRange() {
      && |typeAttr| == |attrType| == |flavor|
      && (forall i, j :: 0 <= i < |flavor| && j in typeAttr[i] ==> j < |flavor|)
      && (forall i, j :: 0 <= i < |flavor| && j in attrType[i] ==> j < |flavor|)
    }

    /** attr_type_map is the transpose of type_attr_map, seen from every concrete type. */
    ghost predicate Transposed()
      requires InRange()
    {
      forall s: nat, k: nat :: Concrete(s) && k < |flavor| ==> (k in typeAttr[s] <==> s in attrType[k])
    }

    /** Every type is in its own row. */
    ghost predicate SelfListed()
      requires InRange()
    {
      forall s: nat :: Concrete(s) ==> s in typeAttr[s]
    }

    /**
     A plain type in another type's row brings along what its own row holds and rules can
     name. Rows that hold attributes only, which is what the compiler writes, satisfy this;
     the loader does not ask for it.
     */
    ghost predicate RowsClosed()
      requires InRange()
    {
      forall s: nat, i: nat, k: nat :: Concrete(s) && Concrete(i) && i in typeAttr[s] && k in typeAttr[i] && flavor[k] != Gap ==>
        k in typeAttr[s]
    }

    ghost predicate Valid() {
      InRange() && Transposed() && SelfListed()
    }

    /** A rule reaches the concrete pair (s, t): how the access decision looks rules up. */
    ghost predicate Applies(key: Key, s: nat, t: nat, c: nat)
      requires InRange() && Concrete(s) && Concrete(t)
    {
      && key.source > 0 && key.source - 1 in typeAttr[s]
      && key.target > 0 && key.target - 1 in typeAttr[t]
      && key.tclass == c
    }
  }

  /** Rows as stored in a policy file hold attributes besides the type itself. */
  ghost predicate RowsHoldAttributes(flavor: seq<Flavor>, rows: seq<set<nat>>) {
    forall i, j :: 0 <= i < |rows| && j in rows[i] && j < |flavor| && j != i ==> flavor[j] == Attribute
  }

  /** Enters type `i` under every other member of its row. */
  method MarkRow(attrType: seq<set<nat>>, i: nat, row: set<nat>) returns (ok: bool, marked: seq<set<nat>>)
    ensures ok <==> forall j :: j in row && j != i ==> j < |attrType|
    ensures ok ==> |marked| == |attrType|
    ensures ok ==> forall j :: 0 <= j < |attrType| ==>
      marked[j] == attrType[j] + (if j in row && j != i then {i} else {})
  {
    marked := attrType;
    var todo := row;
    while todo != {}
      invariant |marked| == |attrType| && todo <= row
      invariant forall j :: j in row && j !in todo && j != i ==> j < |attrType|
      invariant forall j :: 0 <= j < |attrType| ==>
        marked[j] == attrType[j] + (if j in row && j !in todo && j != i then {i} else {})
    {
      var j :| j in todo;
      todo := todo - {j};
      if j != i {
        if j >= |attrType| { return false, marked; }
        marked := marked[j := marked[j] + {i}];
      }
    }
    ok := true;
  }

  /** Building both maps while reading a kernel policy. */
  method ReadTypeMaps(flavor: seq<Flavor>, rows: seq<set<nat>>) returns (ok: bool, tm: TypeMaps)
    requires |rows| == |flavor|
    ensures ok <==> forall i, j :: 0 <= i < |rows| && j in rows[i] && j != i ==> j < |flavor|
    ensures ok ==> tm.flavor == flavor && tm.Valid()
    ensures ok ==> forall i :: 0 <= i < |flavor| ==>
      tm.typeAttr[i] == rows[i] + (if flavor[i] != Gap then {i} else {})
    ensures ok && RowsHoldAttributes(flavor, rows) ==> tm.RowsClosed()
  {
    var n := |flavor|;
    var typeAttr: seq<set<nat>>, attrType: seq<set<nat>> := rows, seq(n, i => {});
    for i := 0 to n
      invariant |typeAttr| == |attrType| == n
      invariant forall k :: 0 <= k < n ==>
        typeAttr[k] == rows[k] + (if k < i && flavor[k] != Gap then {k} else {})
      invariant forall k, j :: 0 <= k < i && j in rows[k] && j != k ==> j < n
      invariant forall j :: 0 <= j < n ==> forall k <- attrType[j] :: k < i
      invariant forall j, k: nat :: 0 <= j < n && k < i ==> (k in attrType[j] <==>
        (if k == j then flavor[j] == Plain else j in rows[k]))
    {
      ghost var was := attrType;
      var fine, marked := MarkRow(attrType, i, rows[i]);
      if !fine { return false, TypeMaps(flavor, typeAttr, attrType); }
      attrType := marked;
      if flavor[i] != Gap { typeAttr := typeAttr[i := typeAttr[i] + {i}]; }
      if flavor[i] == Plain { attrType := attrType[i := attrType[i] + {i}]; }
    }
    ok, tm := true, TypeMaps(flavor, typeAttr, attrType);
    MapsRead(tm, rows);
  }

  lemma MapsRead(tm: TypeMaps, rows: seq<set<nat>>)
    requires |rows| == |tm.flavor| == |tm.typeAttr| == |tm.attrType|
    requires forall k :: 0 <= k < |rows| ==> tm.typeAttr[k] == rows[k] + (if tm.flavor[k] != Gap then {k} else {})
    requires forall k, j :: 0 <= k < |rows| && j in rows[k] && j != k ==> j < |rows|
    requires forall j :: 0 <= j < |rows| ==> forall k <- tm.attrType[j] :: k < |rows|
    requires forall j, k: nat :: 0 <= j < |rows| && k < |rows| ==> (k in tm.attrType[j] <==>
      (if k == j then tm.flavor[j] == Plain else j in rows[k]))
    ensures tm.Valid() && (RowsHoldAttributes(tm.flavor, rows) ==> tm.RowsClosed())
  {
  }

  /**
     Building the maps while expanding a module: every declared type or attribute is visited
     once, in hash-table order. Attributes flagged for expansion leave the maps.
   */
  method ExpandTypeMaps(flavor: seq<Flavor>, members: seq<set<nat>>, expandAway: seq<bool>, order: seq<nat>)
    returns (tm: TypeMaps)
    requires |members| == |expandAway| == |flavor|
    requires forall v :: v in order <==> 0 <= v < |flavor| && flavor[v] != Gap
    requires forall a, b :: 0 <= a < b < |order| ==> order[a] != order[b]
    requires forall a :: 0 <= a < |flavor| ==> forall i <- members[a] :: i < |flavor| && flavor[i] == Plain
    ensures tm.flavor == flavor && tm.Valid() && tm.RowsClosed()
    ensures forall a, i :: 0 <= a < |flavor| && flavor[a] == Attribute && !expandAway[a] ==>
      (i in tm.attrType[a] <==> i in members[a])
  {
    var n := |flavor|;
    var typeAttr: seq<set<nat>>, attrType: seq<set<nat>> := seq(n, i requires i >= 0 => {i}), seq(n, i => {});
    for x := 0 to |order|
      invariant |typeAttr| == |attrType| == n
      invariant forall a :: 0 <= a < n ==> forall i <- attrType[a] :: i < n
      invariant forall a: nat, i: nat :: a < n ==> (i in attrType[a] <==>
        a in order[..x] && (if flavor[a] == Plain then i == a else !expandAway[a] && i in members[a]))
      invariant forall i: nat, a: nat :: i < n && flavor[i] == Plain ==> (a in typeAttr[i] <==>
        a == i || (a in order[..x] && a < n && flavor[a] == Attribute && !expandAway[a] && i in members[a]))
      invariant forall i, a :: 0 <= i < n && a in typeAttr[i] ==> a < n
    {
      var v := order[x];
      assert v in order;
      assert order[..x + 1] == order[..x] + [v];
      assert v !in order[..x];
      ghost var ta0 := typeAttr;
      if flavor[v] == Attribute {
        if !expandAway[v] {
          attrType := attrType[v := members[v]];
          for i := 0 to n
            invariant |typeAttr| == n
            invariant forall k :: 0 <= k < n ==> typeAttr[k] == if k < i && k in members[v] then ta0[k] + {v} else ta0[k]
          {
            if i in members[v] { typeAttr := typeAttr[i := typeAttr[i] + {v}]; }
          }
        } else {
          typeAttr := typeAttr[v := typeAttr[v] - {v}];
        }
      } else {
        attrType := attrType[v := attrType[v] + {v}];
      }
    }
    tm := TypeMaps(flavor, typeAttr, attrType);
    assert order[..|order|] == order;
    forall s: nat, k: nat | tm.Concrete(s) && k < n ensures k in typeAttr[s] <==> s in attrType[k] {
      assert s in order && (flavor[k] != Gap ==> k in order);
    }
  }
}
