/**
 Which declarations of a linked policy are enabled (src/link.c, src/avrule_block.c): start
 from every block's main branch, drop those whose requirements are not met, repeat, and
 enable else branches in the end.
 */
module Link {
  import opened Prelude

  const SYM_CLASSES: nat := 1
  const SYM_ROLES: nat := 2
  const SYM_USERS: nat := 4
  const SYM_NUM: nat := 8

  datatype ScopeKind = Required | Declared

  /** The declarations that declare or require a symbol, by decl id, counted from 1. */
  datatype Scope = Scope(kind: ScopeKind, declIds: seq<nat>)

  datatype ClassDatum = ClassDatum(perms: map<string, nat>, common: Option<map<string, nat>>)

  /** Required symbols by table, and required permissions for every class up to a length. */
  datatype Decl = Decl(required: seq<set<nat>>, classPerms: seq<set<nat>>)

  /** A block's branches: the main one, then an else branch if any. */
  datatype Block = Block(branch: seq<nat>, optional: bool)

  datatype Ret = Success | Failure | MissingRequirement

  /** A missing requirement; nothing is recorded for a missing class. */
  datatype Verdict = Met | Missing(what: Option<Symbol>) | Broken

  datatype Symbol = Symbol(table: nat, value: nat)

  predicate Named(cls: ClassDatum, value: nat) {
    || (exists n :: n in cls.perms && cls.perms[n] == value)
    || (cls.common.Some? && exists n :: n in cls.common.value && cls.common.value[n] == value)
  }

  method IsPermExistent(cls: ClassDatum, perm: string) returns (r: bool)
    ensures r <==> perm in cls.perms || (cls.common.Some? && perm in cls.common.value)
  {
    r := perm in cls.perms;
    if !r && cls.common.Some? { r := perm in cls.common.value; }
  }

  class Policy {
    const decls: seq<Decl>
    const blocks: seq<Block>
    const scopes: seq<map<string, Scope>>
    const names: seq<seq<string>>
    const classes: seq<ClassDatum>
    const valToStruct: seq<Option<nat>>
    var enabled: seq<bool>
    var current: seq<Option<nat>>

    ghost predicate DeclOk(d: Decl) {
      && |d.required| == SYM_NUM == |names|
      && (forall sym, j :: 0 <= sym < SYM_NUM && sym != SYM_CLASSES && j in d.required[sym] ==> j < |names[sym]|)
      && |d.classPerms| <= |names[SYM_CLASSES]| && |d.classPerms| <= |classes|
      && forall c, j :: 0 <= c < |d.classPerms| && j in d.classPerms[c] ==> Named(classes[c], j + 1)
    }

    ghost predicate At(b: nat, k: nat, d: nat) {
      b < |blocks| && k < |blocks[b].branch| && blocks[b].branch[k] == d
    }

    ghost predicate Placed(d: nat) {
      exists b: nat, k: nat :: At(b, k, d)
    }

    /** Every declaration is on exactly one branch list, once. */
    ghost predicate BranchesOk() {
      && (forall b, k :: 0 <= b < |blocks| && 0 <= k < |blocks[b].branch| ==> blocks[b].branch[k] < |decls|)
      && (forall b: nat, k: nat, b': nat, k': nat, d: nat :: At(b, k, d) && At(b', k', d) ==> b == b' && k == k')
      && forall d: nat :: d < |decls| ==> Placed(d)
    }

    ghost predicate ScopesOk() {
      && |scopes| == SYM_NUM == |names|
      && (forall sym, id, x :: 0 <= sym < SYM_NUM && id in scopes[sym] && x in scopes[sym][id].declIds ==> 0 < x <= |valToStruct|)
      && forall i :: 0 <= i < |valToStruct| && valToStruct[i].Some? ==> valToStruct[i].value < |decls|
    }

    ghost predicate Valid()
      reads this
    {
      && |enabled| == |decls| && |current| == |blocks| > 0
      && BranchesOk() && ScopesOk()
      && forall d :: 0 <= d < |decls| ==> DeclOk(decls[d])
    }

    constructor (decls: seq<Decl>, blocks: seq<Block>, scopes: seq<map<string, Scope>>, names: seq<seq<string>>,
                 classes: seq<ClassDatum>, valToStruct: seq<Option<nat>>)
      ensures this.decls == decls && this.blocks == blocks && this.scopes == scopes && this.names == names
      ensures this.classes == classes && this.valToStruct == valToStruct
      ensures |enabled| == |decls| && |current| == |blocks|
    {
      this.decls, this.blocks, this.scopes, this.names := decls, blocks, scopes, names;
      this.classes, this.valToStruct := classes, valToStruct;
      enabled, current := seq(|decls|, _ => false), seq(|blocks|, _ => None);
    }

    // -------------------------------------------------------------- what a requirement means

    ghost function On(): set<nat>
      reads this
    {
      set d | 0 <= d < |enabled| && enabled[d]
    }

    ghost predicate DeclOn(id: nat, on: set<nat>) {
      0 < id <= |valToStruct| && valToStruct[id - 1].Some? && valToStruct[id - 1].value in on
    }

    /** Declaration number `id`, counted from 1, exists and is enabled. */
    ghost predicate DeclEnabled(id: nat)
      reads this
    {
      && 0 < id <= |valToStruct| && valToStruct[id - 1].Some?
      && valToStruct[id - 1].value < |enabled| && enabled[valToStruct[id - 1].value]
    }

    /** A required symbol is declared, and by an enabled declaration: some one for roles and users, else the last. */
    ghost predicate SymbolEnabled(sym: nat, id: string)
      requires sym < |scopes|
      reads this
    {
      id in scopes[sym] && scopes[sym][id].kind == Declared &&
      var ids := scopes[sym][id].declIds;
      if sym == 2 || sym == 4 then exists i :: 0 <= i < |ids| && DeclEnabled(ids[i])
      else |ids| > 0 && DeclEnabled(ids[|ids| - 1])
    }

    lemma AvailableIsEnabled(sym: nat, id: string)
      requires sym < |scopes|
      ensures Available(sym, id, On()) <==> SymbolEnabled(sym, id)
    {
      forall x: nat ensures DeclOn(x, On()) <==> DeclEnabled(x) { }
      hide DeclOn, DeclEnabled;
    }

    /** All required symbols outside the class table and all classes with required permissions are enabled. */
    ghost predicate RequirementsEnabled(d: Decl)
      requires DeclOk(d) && ScopesOk()
      reads this
    {
      && (forall sym: nat, j :: sym < 8 && sym != 1 && j in d.required[sym] ==> SymbolEnabled(sym, names[sym][j]))
      && (forall c :: 0 <= c < |d.classPerms| ==> SymbolEnabled(1, names[1][c]))
    }

    lemma MeetsIsEnabled(d: Decl)
      requires DeclOk(d) && ScopesOk()
      ensures Meets(d, On()) <==> RequirementsEnabled(d)
    {
      hide Available, SymbolEnabled;
      forall sym: nat, id | sym < SYM_NUM ensures Available(sym, id, On()) <==> SymbolEnabled(sym, id) {
        AvailableIsEnabled(sym, id);
      }
    }

    /** A symbol is available: any declaration counts for roles and users, the last for others. */
    ghost predicate Available(sym: nat, id: string, on: set<nat>)
      requires sym < |scopes|
    {
      id in scopes[sym] && scopes[sym][id].kind == Declared &&
      var ids := scopes[sym][id].declIds;
      if sym == SYM_ROLES || sym == SYM_USERS then exists i :: 0 <= i < |ids| && DeclOn(ids[i], on)
      else |ids| > 0 && DeclOn(ids[|ids| - 1], on)
    }

    ghost predicate SymbolsMet(d: Decl, on: set<nat>, n: nat)
      requires DeclOk(d) && ScopesOk() && n <= SYM_NUM
    {
      forall sym: nat, j :: sym < n && sym != SYM_CLASSES && j in d.required[sym] ==> Available(sym, names[sym][j], on)
    }

    ghost predicate ClassesMet(d: Decl, on: set<nat>, n: nat)
      requires DeclOk(d) && ScopesOk() && n <= |d.classPerms|
    {
      forall c :: 0 <= c < n ==> Available(SYM_CLASSES, names[SYM_CLASSES][c], on)
    }

    ghost predicate Meets(d: Decl, on: set<nat>)
      requires DeclOk(d) && ScopesOk()
    {
      SymbolsMet(d, on, SYM_NUM) && ClassesMet(d, on, |d.classPerms|)
    }

    lemma AvailableGrows(sym: nat, id: string, a: set<nat>, b: set<nat>)
      requires sym < |scopes| && a <= b && Available(sym, id, a)
      ensures Available(sym, id, b)
    {
      var ids := scopes[sym][id].declIds;
      if sym == SYM_ROLES || sym == SYM_USERS {
        var i :| 0 <= i < |ids| && DeclOn(ids[i], a);
        assert DeclOn(ids[i], b);
      }
    }

    /** More declarations meet no fewer requirements. */
    lemma MeetsGrows(d: Decl, a: set<nat>, b: set<nat>)
      requires DeclOk(d) && ScopesOk() && a <= b && Meets(d, a)
      ensures Meets(d, b)
    {
      hide Available;
      forall sym: nat, j | sym < SYM_NUM && sym != SYM_CLASSES && j in d.required[sym]
        ensures Available(sym, names[sym][j], b)
      {
        AvailableGrows(sym, names[sym][j], a, b);
      }
      forall c | 0 <= c < |d.classPerms| ensures Available(SYM_CLASSES, names[SYM_CLASSES][c], b) {
        AvailableGrows(SYM_CLASSES, names[SYM_CLASSES][c], a, b);
      }
    }

    // -------------------------------------------------------------- is_id_enabled, is_decl_requires_met

    method IsIdEnabled(id: string, sym: nat) returns (r: bool)
      requires ScopesOk() && |enabled| == |decls| && sym < SYM_NUM
      ensures r <==> Available(sym, id, On())
      ensures id !in scopes[sym] || scopes[sym][id].kind != Declared ==> !r
      ensures id in scopes[sym] && scopes[sym][id].kind == Declared && scopes[sym][id].declIds == [] ==> !r
      ensures id in scopes[sym] && scopes[sym][id].kind == Declared && scopes[sym][id].declIds != [] ==>
        var ids := scopes[sym][id].declIds;
        if sym == 2 || sym == 4 then r <==> exists i :: 0 <= i < |ids| && DeclEnabled(ids[i])
        else r <==> DeclEnabled(ids[|ids| - 1])
    {
      if id !in scopes[sym] || scopes[sym][id].kind != Declared { return false; }
      var ids := scopes[sym][id].declIds;
      forall i | 0 <= i < |ids| ensures 0 < ids[i] <= |valToStruct| { assert ids[i] in ids; }
      var len := |ids|;
      if len < 1 { return false; }
      if sym == SYM_ROLES || sym == SYM_USERS {
        for i := 0 to len
          invariant forall k :: 0 <= k < i ==> !DeclOn(ids[k], On())
        {
          var decl := valToStruct[ids[i] - 1];
          if decl.Some? && enabled[decl.value] {
            assert DeclOn(ids[i], On());
            return true;
          }
        }
        r := false;
      } else {
        var decl := valToStruct[ids[len - 1] - 1];
        r := decl.Some? && enabled[decl.value];
      }
    }

    /** A permission found by its value in the class or its common exists under its name. */
    method PermissionExists(c: nat, value: nat) returns (r: bool)
      requires c < |classes| && Named(classes[c], value)
      ensures r
    {
      var cls := classes[c];
      var name: string;
      if n :| n in cls.perms && cls.perms[n] == value {
        name := n;
      } else {
        name :| name in cls.common.value && cls.common.value[name] == value;
      }
      r := IsPermExistent(cls, name);
    }

    method SymbolsOf(d: Decl, sym: nat) returns (missing: Option<nat>)
      requires ScopesOk() && DeclOk(d) && |enabled| == |decls| && sym < SYM_NUM && sym != SYM_CLASSES
      ensures missing.None? <==> forall j :: j in d.required[sym] ==> Available(sym, names[sym][j], On())
      ensures missing.Some? ==> missing.value in d.required[sym] && !Available(sym, names[sym][missing.value], On())
    {
      hide Available, Named;
      for j := 0 to |names[sym]|
        invariant forall i :: 0 <= i < j && i in d.required[sym] ==> Available(sym, names[sym][i], On())
      {
        if j in d.required[sym] {
          var ok := IsIdEnabled(names[sym][j], sym);
          if !ok { return Some(j); }
        }
      }
      missing := None;
    }

    /** Met exactly when every required symbol and class is available; never broken. */
    method IsDeclRequiresMet(d: Decl) returns (v: Verdict)
      requires ScopesOk() && DeclOk(d) && |enabled| == |decls|
      ensures v == Met <==> Meets(d, On())
      ensures v == Met <==> RequirementsEnabled(d)
      ensures v != Broken
      ensures v.Missing? && v.what.Some? ==>
        && v.what.value.table < SYM_NUM && v.what.value.table != SYM_CLASSES
        && v.what.value.value > 0 && v.what.value.value - 1 in d.required[v.what.value.table]
        && !Available(v.what.value.table, names[v.what.value.table][v.what.value.value - 1], On())
    {
      MeetsIsEnabled(d);
      hide Available, RequirementsEnabled;
      for i := 0 to SYM_NUM
        invariant SymbolsMet(d, On(), i)
      {
        if i != SYM_CLASSES {
          var missing := SymbolsOf(d, i);
          if missing.Some? { return Missing(Some(Symbol(i, missing.value + 1))); }
        }
      }
      for c := 0 to |d.classPerms|
        invariant ClassesMet(d, On(), c)
      {
        var ok := IsIdEnabled(names[SYM_CLASSES][c], SYM_CLASSES);
        if !ok { return Missing(None); }
        if names[SYM_CLASSES][c] !in scopes[SYM_CLASSES] {
          return Broken;
        }
        CheckPermissions(d, c);
      }
      v := Met;
    }

    /** Every required permission of a class is found. */
    method CheckPermissions(d: Decl, c: nat)
      requires DeclOk(d) && c < |d.classPerms|
    {
      var todo := d.classPerms[c];
      while todo != {}
        invariant todo <= d.classPerms[c]
      {
        var j :| j in todo;
        var ok := PermissionExists(c, j + 1);
        assert ok;
        todo := todo - {j};
      }
    }

    // -------------------------------------------------------------- enable_avrules

    /** The first branch of some block. */
    ghost predicate IsMain(d: nat) {
      exists b: nat :: At(b, 0, d)
    }

    /** Main branches whose requirements they meet among themselves. */
    ghost predicate SelfSupporting(on: set<nat>)
      requires ScopesOk() && forall d :: 0 <= d < |decls| ==> DeclOk(decls[d])
    {
      forall d: nat :: d in on ==> IsMain(d) && d < |decls| && Meets(decls[d], on)
    }

    ghost predicate Sustainable(d: nat)
      requires ScopesOk() && forall d :: 0 <= d < |decls| ==> DeclOk(decls[d])
    {
      exists on :: SelfSupporting(on) && d in on
    }

    /** What a block ends up with: its main branch if sustainable, else the else branch. */
    ghost function Outcome(b: nat): Option<nat>
      requires ScopesOk() && forall d :: 0 <= d < |decls| ==> DeclOk(decls[d])
      requires b < |blocks| && blocks[b].branch != []
    {
      if Sustainable(blocks[b].branch[0]) then Some(blocks[b].branch[0])
      else if b > 0 && |blocks[b].branch| > 1 then Some(blocks[b].branch[1])
      else None
    }

    /** While blocks are being dropped: enabled are the main branches of blocks not yet dropped. */
    ghost predicate Dropping()
      requires Valid()
      reads this
    {
      && (forall b :: 0 <= b < |blocks| ==> blocks[b].branch != [])
      && (forall b: nat :: b < |blocks| ==> current[b] == if enabled[blocks[b].branch[0]] then Some(blocks[b].branch[0]) else None)
      && (forall b: nat :: b < |blocks| && !blocks[b].optional ==> enabled[blocks[b].branch[0]])
      && (forall b: nat, k: nat, d: nat :: At(b, k, d) && k > 0 ==> !enabled[d])
      && (forall on :: SelfSupporting(on) ==> on <= On())
    }

    /** Every enabled main branch up to block `n` meets its requirements. */
    ghost predicate CheckedUpTo(n: nat)
      requires Valid() && Dropping() && n <= |blocks|
      reads this
    {
      forall b :: 0 <= b < n && enabled[blocks[b].branch[0]] ==> Meets(decls[blocks[b].branch[0]], On())
    }

    /** Enables every main branch and disables the rest; fails on a block without branches. */
    method EnableMains() returns (ok: bool)
      requires Valid()
      modifies this
      ensures Valid()
      ensures ok <==> forall b :: 0 <= b < |blocks| ==> blocks[b].branch != []
      ensures ok ==> Dropping()
    {
      hide DeclOk, ScopesOk, Meets;
      for b := 0 to |blocks|
        invariant Valid()
        invariant forall c: nat :: c < b ==> blocks[c].branch != [] && current[c] == Some(blocks[c].branch[0])
        invariant forall c: nat, k: nat, d: nat :: c < b && At(c, k, d) ==> enabled[d] == (k == 0)
      {
        var branch := blocks[b].branch;
        current := current[b := if branch == [] then None else Some(branch[0])];
        if branch == [] { return false; }
        assert At(b, 0, branch[0]);
        enabled := enabled[branch[0] := true];
        for k := 1 to |branch|
          invariant Valid() && current == current[b := Some(branch[0])]
          invariant forall c: nat :: c < b ==> current[c] == Some(blocks[c].branch[0])
          invariant forall j: nat, d: nat :: j < k && At(b, j, d) ==> enabled[d] == (j == 0)
          invariant forall c: nat, j: nat, d: nat :: c < b && At(c, j, d) ==> enabled[d] == (j == 0)
        {
          assert At(b, k, branch[k]);
          enabled := enabled[branch[k] := false];
        }
      }
      forall on, d: nat | SelfSupporting(on) && d in on ensures d in On() {
        assert IsMain(d);
        var b: nat :| At(b, 0, d);
      }
      forall b: nat | b < |blocks| ensures enabled[blocks[b].branch[0]] { assert At(b, 0, blocks[b].branch[0]); }
      ok := true;
    }

    lemma MainOf(b: nat, d: nat)
      requires Valid() && b < |blocks| && blocks[b].branch != [] && d == blocks[b].branch[0]
      ensures d < |decls| && At(b, 0, d) && IsMain(d)
      ensures forall c: nat :: c < |blocks| && blocks[c].branch != [] && blocks[c].branch[0] == d ==> c == b
    {
      assert At(b, 0, d);
      forall c: nat | c < |blocks| && blocks[c].branch != [] && blocks[c].branch[0] == d ensures c == b { assert At(c, 0, d); }
    }

    /** A main branch that is not met now is in no self-supporting set. */
    lemma NotSustainable(d: nat)
      requires Valid() && Dropping() && d < |decls| && !Meets(decls[d], On())
      ensures !Sustainable(d) && forall on :: SelfSupporting(on) ==> d !in on
    {
      hide Meets;
      forall on | SelfSupporting(on) && d in on ensures false {
        MeetsGrows(decls[d], on, On());
      }
    }

    /** Drops a block whose main branch is not met. */
    method Drop(b: nat)
      requires Valid() && Dropping() && b < |blocks| && blocks[b].optional
      requires enabled[blocks[b].branch[0]] && !Meets(decls[blocks[b].branch[0]], On())
      modifies this
      ensures Valid() && Dropping()
      ensures On() == old(On()) - {blocks[b].branch[0]} && blocks[b].branch[0] in old(On())
    {
      ghost var d := blocks[b].branch[0];
      MainOf(b, d);
      NotSustainable(d);
      hide Meets, Sustainable, SelfSupporting, DeclOk, ScopesOk;
      enabled := enabled[blocks[b].branch[0] := false];
      current := current[b := None];
      forall c: nat | c < |blocks| && c != b ensures blocks[c].branch[0] != d { MainOf(c, blocks[c].branch[0]); }
    }

    /** One pass over all blocks. */
    method Pass() returns (ret: Ret, changed: bool)
      requires Valid() && Dropping()
      modifies this
      ensures Valid() && ret != Failure
      ensures ret == MissingRequirement ==> exists b: nat ::
        b < |blocks| && !blocks[b].optional && blocks[b].branch != [] && !Sustainable(blocks[b].branch[0])
      ensures ret == Success ==> Dropping()
      ensures ret == Success && changed ==> On() < old(On())
      ensures ret == Success && !changed ==> On() == old(On()) && CheckedUpTo(|blocks|)
    {
      hide Meets, Sustainable, SelfSupporting, DeclOk, ScopesOk, On, BranchesOk;
      ret, changed := Success, false;
      for b := 0 to |blocks|
        invariant Valid() && Dropping()
        invariant if changed then On() < old(On()) else On() == old(On())
        invariant !changed ==> CheckedUpTo(b)
      {
        if current[b].Some? {
          var decl := blocks[b].branch[0];
          DeclInRange(b);
          var v := IsDeclRequiresMet(decls[decl]);
          if v.Missing? {
            if blocks[b].optional {
              Drop(b);
              changed := true;
            } else {
              NotSustainable(decl);
              enabled := enabled[decl := false];
              current := current[b := None];
              return MissingRequirement, true;
            }
          }
        }
      }
    }

    lemma DeclInRange(b: nat)
      requires Valid() && Dropping() && b < |blocks|
      ensures ScopesOk() && blocks[b].branch[0] < |decls| && DeclOk(decls[blocks[b].branch[0]])
    {
    }

    /** When a pass changes nothing, what is enabled is what can be sustained. */
    lemma Settled()
      requires Valid() && Dropping() && CheckedUpTo(|blocks|)
      ensures SelfSupporting(On())
      ensures forall d :: d in On() <==> Sustainable(d)
    {
      hide Meets, DeclOk, ScopesOk;
      forall d: nat | d in On() ensures IsMain(d) && d < |decls| && Meets(decls[d], On()) {
        assert Placed(d);
        var b: nat, k: nat :| At(b, k, d);
        assert k == 0;
      }
      hide SelfSupporting;
    }

    /** Branch `n` of block `b` is its current one and the only one of its branches that is enabled. */
    ghost predicate Ends(b: nat, n: nat)
      requires b < |blocks|
      reads this
    {
      && n < |blocks[b].branch| && b < |current| && current[b] == Some(blocks[b].branch[n])
      && forall k: nat, d: nat :: At(b, k, d) && d < |enabled| ==> (enabled[d] <==> k == n)
    }

    /** Block `b` has no current branch, and none of its branches is enabled. */
    ghost predicate EndsEmpty(b: nat)
      reads this
    {
      && b < |current| && current[b] == None
      && forall k: nat, d: nat :: At(b, k, d) && d < |enabled| ==> !enabled[d]
    }

    lemma EndsAt(b: nat, n: nat)
      requires Valid() && b < |blocks| && n < |blocks[b].branch| && current[b] == Some(blocks[b].branch[n])
      requires forall k: nat, d: nat :: At(b, k, d) ==> (enabled[d] <==> current[b] == Some(d))
      ensures Ends(b, n)
    {
      assert At(b, n, blocks[b].branch[n]);
    }

    lemma EndsWithout(b: nat)
      requires Valid() && b < |blocks| && current[b] == None
      requires forall k: nat, d: nat :: At(b, k, d) ==> (enabled[d] <==> current[b] == Some(d))
      ensures EndsEmpty(b)
    {
    }

    /** Enables the else branches of dropped blocks, but for the first block. */
    method EnableElse()
      requires Valid() && Dropping() && forall d :: d in On() <==> Sustainable(d)
      modifies this
      ensures Valid() && forall b :: 0 <= b < |blocks| ==> blocks[b].branch != []
      ensures forall b: nat :: b < |blocks| ==> current[b] == Outcome(b)
      ensures forall d: nat :: d < |decls| ==> (enabled[d] <==> exists b: nat :: b < |blocks| && current[b] == Some(d))
      ensures forall b: nat :: b < |blocks| && Sustainable(blocks[b].branch[0]) ==> Ends(b, 0)
      ensures forall b: nat :: 0 < b < |blocks| && !Sustainable(blocks[b].branch[0]) && |blocks[b].branch| > 1 ==> Ends(b, 1)
      ensures forall b: nat :: b < |blocks| && !Sustainable(blocks[b].branch[0]) && (b == 0 || |blocks[b].branch| == 1) ==> EndsEmpty(b)
    {
      hide Meets, Sustainable, SelfSupporting, DeclOk, ScopesOk;
      ghost var on := On();
      forall b: nat | b < |blocks| ensures blocks[b].branch[0] < |decls| && (blocks[b].branch[0] in on <==> enabled[blocks[b].branch[0]]) {
        MainOf(b, blocks[b].branch[0]);
      }
      for b := 1 to |blocks|
        invariant Valid()
        invariant forall c: nat :: c < b ==> current[c] == Outcome(c)
        invariant forall c: nat :: b <= c < |blocks| ==>
          current[c] == if blocks[c].branch[0] in on then Some(blocks[c].branch[0]) else None
        invariant forall c: nat, k: nat, d: nat :: At(c, k, d) ==> (enabled[d] <==> current[c] == Some(d))
      {
        if current[b].None? && |blocks[b].branch| > 1 {
          assert At(b, 1, blocks[b].branch[1]) && At(b, 0, blocks[b].branch[0]);
          current := current[b := Some(blocks[b].branch[1])];
          enabled := enabled[blocks[b].branch[1] := true];
        }
      }
      hide Ends, EndsEmpty;
      forall b: nat | b < |blocks|
        ensures Sustainable(blocks[b].branch[0]) ==> Ends(b, 0)
        ensures 0 < b && !Sustainable(blocks[b].branch[0]) && |blocks[b].branch| > 1 ==> Ends(b, 1)
        ensures !Sustainable(blocks[b].branch[0]) && (b == 0 || |blocks[b].branch| == 1) ==> EndsEmpty(b)
      {
        if Sustainable(blocks[b].branch[0]) { EndsAt(b, 0); }
        else if b > 0 && |blocks[b].branch| > 1 { EndsAt(b, 1); }
        else { EndsWithout(b); }
      }
      forall d: nat | d < |decls| ensures enabled[d] <==> exists b: nat :: b < |blocks| && current[b] == Some(d) {
        assert Placed(d);
        var c: nat, k: nat :| At(c, k, d);
        if b: nat :| b < |blocks| && current[b] == Some(d) {
          assert Outcome(b) == Some(d);
          assert At(b, 0, d) || At(b, 1, d);
        }
      }
    }

    /**
       On success the enabled main branches are exactly those in some self-supporting set,
       the greatest such set, whatever the order of the blocks; a requirement is missing
       exactly when the main branch of a non-optional block is in none.
     */
    method EnableAvrules() returns (ret: Ret)
      requires Valid()
      modifies this
      ensures Valid()
      ensures ret == Failure <==> exists b :: 0 <= b < |blocks| && blocks[b].branch == []
      ensures ret == MissingRequirement <==>
        && (forall b :: 0 <= b < |blocks| ==> blocks[b].branch != [])
        && exists b: nat :: b < |blocks| && !blocks[b].optional && !Sustainable(blocks[b].branch[0])
      ensures ret == Success ==> forall b: nat :: b < |blocks| ==> current[b] == Outcome(b)
      ensures ret == Success ==> forall d: nat :: d < |decls| ==>
        (enabled[d] <==> exists b: nat :: b < |blocks| && current[b] == Some(d))
      ensures ret == Success ==> forall b: nat :: b < |blocks| && Sustainable(blocks[b].branch[0]) ==> Ends(b, 0)
      ensures ret == Success ==>
        forall b: nat :: 0 < b < |blocks| && !Sustainable(blocks[b].branch[0]) && |blocks[b].branch| > 1 ==> Ends(b, 1)
      ensures ret == Success ==>
        forall b: nat :: b < |blocks| && !Sustainable(blocks[b].branch[0]) && (b == 0 || |blocks[b].branch| == 1) ==> EndsEmpty(b)
    {
      var ok := EnableMains();
      if !ok { return Failure; }
      hide Meets, Sustainable, SelfSupporting, DeclOk, ScopesOk, BranchesOk;
      var changed := true;
      while changed
        invariant Valid() && Dropping()
        invariant !changed ==> CheckedUpTo(|blocks|)
        decreases On(), changed
      {
        ret, changed := Pass();
        if ret != Success { return; }
      }
      Settled();
      ghost var on := On();
      EnableElse();
      ret := Success;
    }

    /** The sustainable main branches support themselves, and contain every set that does. */
    lemma GreatestSupport(all: set<nat>)
      requires Valid() && forall d :: d in all <==> Sustainable(d)
      ensures SelfSupporting(all)
      ensures forall on :: SelfSupporting(on) ==> on <= all
    {
      hide Meets, DeclOk, ScopesOk;
      forall on, d: nat | SelfSupporting(on) && d in on ensures d in all { assert Sustainable(d); }
      forall d: nat | d in all ensures IsMain(d) && d < |decls| && Meets(decls[d], all) {
        var on :| SelfSupporting(on) && d in on;
        MeetsGrows(decls[d], on, all);
      }
    }
  }
}
