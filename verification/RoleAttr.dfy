/**
 Flattening nested role attributes (src/link.c): a role attribute's members that are role
 attributes themselves are replaced by their members until only regular roles are left. The
 loop ends exactly when no cycle of other attributes can be reached.
 */
module RoleAttr {
  import opened Prelude

  const OBJECT_R: string := "object_r"

  datatype Role = Role(name: string, value: nat, isAttrib: bool, members: set<nat>)

  /** Role numbers are positions plus one, and members are declared roles. */
  ghost predicate RolesOk(roles: seq<Role>) {
    && (forall i :: 0 <= i < |roles| ==> roles[i].value == i + 1)
    && forall i, j :: 0 <= i < |roles| && j in roles[i].members ==> j < |roles|
  }

  predicate Attrib(roles: seq<Role>, i: nat) {
    i < |roles| && roles[i].isAttrib
  }

  predicate Regular(roles: seq<Role>, i: nat) {
    i < |roles| && !roles[i].isAttrib
  }

  // ---------------------------------------------------------------- reachable regular roles

  /** Regular role `j` is reached from attribute `a` through at most `n` further attributes. */
  ghost predicate ReachesIn(roles: seq<Role>, a: nat, j: nat, n: nat)
    decreases n
  {
    && Attrib(roles, a) && Regular(roles, j)
    && (|| j in roles[a].members
        || (n > 0 && exists b :: b in roles[a].members && ReachesIn(roles, b, j, n - 1)))
  }

  ghost predicate Reaches(roles: seq<Role>, a: nat, j: nat) {
    exists n: nat :: ReachesIn(roles, a, j, n)
  }

  lemma {:induction false} ReachesLonger(roles: seq<Role>, a: nat, j: nat, n: nat)
    requires ReachesIn(roles, a, j, n)
    ensures ReachesIn(roles, a, j, n + 1)
    decreases n
  {
    if j !in roles[a].members {
      var b :| b in roles[a].members && ReachesIn(roles, b, j, n - 1);
      ReachesLonger(roles, b, j, n - 1);
    }
  }

  /** A chain of members: attributes all the way, and a regular role at the end. */
  ghost predicate MemberChain(roles: seq<Role>, p: seq<nat>) {
    && |p| >= 2 && p[|p| - 1] < |roles| && !roles[p[|p| - 1]].isAttrib
    && forall i :: 0 <= i < |p| - 1 ==> p[i] < |roles| && roles[p[i]].isAttrib && p[i + 1] in roles[p[i]].members
  }

  lemma {:induction false} ChainReaches(roles: seq<Role>, p: seq<nat>)
    requires MemberChain(roles, p)
    ensures ReachesIn(roles, p[0], p[|p| - 1], |p|)
    decreases |p|
  {
    if |p| > 2 {
      var rest := p[1..];
      forall i | 0 <= i < |rest| - 1 ensures rest[i] < |roles| && roles[rest[i]].isAttrib && rest[i + 1] in roles[rest[i]].members {
        assert rest[i] == p[i + 1];
      }
      ChainReaches(roles, rest);
    }
  }

  lemma {:induction false} ReachesChain(roles: seq<Role>, a: nat, j: nat, n: nat) returns (p: seq<nat>)
    requires ReachesIn(roles, a, j, n)
    ensures MemberChain(roles, p) && p[0] == a && p[|p| - 1] == j
    decreases n
  {
    if j in roles[a].members {
      p := [a, j];
    } else {
      var b :| b in roles[a].members && ReachesIn(roles, b, j, n - 1);
      var q := ReachesChain(roles, b, j, n - 1);
      p := [a] + q;
      forall i | 0 <= i < |p| - 1 ensures p[i] < |roles| && roles[p[i]].isAttrib && p[i + 1] in roles[p[i]].members {
        if i > 0 { assert p[i] == q[i - 1] && p[i + 1] == q[i]; }
      }
    }
  }

  lemma ChainShape(roles: seq<Role>, p: seq<nat>)
    requires MemberChain(roles, p)
    ensures |p| >= 2
  {
  }

  /** A regular role is reached exactly along a chain of members. */
  lemma {:induction false} ReachesByChain(roles: seq<Role>, a: nat, j: nat)
    ensures Reaches(roles, a, j) <==> exists p: seq<nat> :: MemberChain(roles, p) && p[0] == a && p[|p| - 1] == j
  {
    hide ReachesIn, MemberChain;
    if n: nat :| ReachesIn(roles, a, j, n) { var p := ReachesChain(roles, a, j, n); }
    forall p: seq<nat> | MemberChain(roles, p) ensures |p| >= 2 && Reaches(roles, p[0], p[|p| - 1]) {
      ChainShape(roles, p);
      ChainReaches(roles, p);
    }
  }

  /** `after` is `before` with member `i` of `k` replaced by the members of `i`. */
  ghost predicate Replaced(before: seq<Role>, after: seq<Role>, k: nat, i: nat) {
    && Attrib(before, k) && Attrib(before, i) && i in before[k].members
    && after == before[k := before[k].(members :=
         before[k].members - {i} + if i == k then {} else before[i].members)]
  }

  lemma {:induction false} ReplacedForward(before: seq<Role>, after: seq<Role>, k: nat, i: nat, a: nat, j: nat, n: nat)
    requires Replaced(before, after, k, i) && ReachesIn(before, a, j, n)
    ensures ReachesIn(after, a, j, n)
    decreases n
  {
    if j !in before[a].members {
      var b :| b in before[a].members && ReachesIn(before, b, j, n - 1);
      if a == k && b == i {
        if i == k {
          ReplacedForward(before, after, k, i, k, j, n - 1);
          ReachesLonger(after, k, j, n - 1);
        } else if j in before[i].members {
          assert j in after[k].members;
        } else {
          var c :| c in before[i].members && ReachesIn(before, c, j, n - 2);
          ReplacedForward(before, after, k, i, c, j, n - 2);
          ReachesLonger(after, c, j, n - 2);
          assert c in after[k].members && ReachesIn(after, c, j, n - 1);
        }
      } else {
        ReplacedForward(before, after, k, i, b, j, n - 1);
        assert b in after[a].members && ReachesIn(after, b, j, n - 1);
      }
    }
  }

  lemma {:induction false} ReplacedBack(before: seq<Role>, after: seq<Role>, k: nat, i: nat, a: nat, j: nat, n: nat)
    requires Replaced(before, after, k, i) && ReachesIn(after, a, j, n)
    ensures ReachesIn(before, a, j, 2 * n + 1)
    decreases n
  {
    if a == k && i != k && j in before[i].members {
      assert ReachesIn(before, i, j, 2 * n);
    } else if j !in after[a].members {
      var b :| b in after[a].members && ReachesIn(after, b, j, n - 1);
      ReplacedBack(before, after, k, i, b, j, n - 1);
      ReachesLonger(before, b, j, 2 * n - 1);
      if b !in before[a].members {
        assert ReachesIn(before, i, j, 2 * n);
      }
    }
  }

  /** A replacement changes what no attribute reaches. */
  lemma ReplacedReaches(before: seq<Role>, after: seq<Role>, k: nat, i: nat)
    requires Replaced(before, after, k, i)
    ensures forall a, j :: Reaches(after, a, j) <==> Reaches(before, a, j)
  {
    forall a, j ensures Reaches(after, a, j) <==> Reaches(before, a, j) {
      if n: nat :| ReachesIn(before, a, j, n) { ReplacedForward(before, after, k, i, a, j, n); }
      if n: nat :| ReachesIn(after, a, j, n) { ReplacedBack(before, after, k, i, a, j, n); }
    }
  }

  /** Once only regular roles are left, the members are what is reached. */
  lemma FlatReaches(roles: seq<Role>, k: nat)
    requires Attrib(roles, k) && RolesOk(roles)
    requires forall b :: b in roles[k].members ==> Regular(roles, b)
    ensures forall j :: j in roles[k].members <==> Reaches(roles, k, j)
  {
    forall j ensures j in roles[k].members <==> Reaches(roles, k, j) {
      if j in roles[k].members { assert ReachesIn(roles, k, j, 0); }
      if n: nat :| ReachesIn(roles, k, j, n) {
        forall b | b in roles[k].members && n > 0 ensures !ReachesIn(roles, b, j, n - 1) { }
      }
    }
  }

  // ---------------------------------------------------------------- the loop, step by step

  predicate Flat(roles: seq<Role>, k: nat) {
    k < |roles| && forall b <- roles[k].members :: !Attrib(roles, b)
  }

  /** Member `i` of `k` replaced by its members; a self-reference is only dropped. */
  function Replace(roles: seq<Role>, k: nat, i: nat): seq<Role>
    requires k < |roles| && i < |roles|
  {
    roles[k := roles[k].(members := roles[k].members - {i} + if i == k then {} else roles[i].members)]
  }

  /** The first attribute from `from` on among the members of `k`, where a scan stops. */
  function NextAttrib(roles: seq<Role>, k: nat, from: nat): (i: Option<nat>)
    requires k < |roles| && from <= |roles|
    ensures i.Some? ==> from <= i.value && i.value in roles[k].members && Attrib(roles, i.value)
    ensures forall b :: from <= b < |roles| && (i.Some? ==> b < i.value) && b in roles[k].members ==> !Attrib(roles, b)
    decreases |roles| - from
  {
    if from == |roles| then None
    else if from in roles[k].members && Attrib(roles, from) then Some(from)
    else NextAttrib(roles, k, from + 1)
  }

  /** One turn between restarts; a flat attribute stays as it is. */
  function Turn(roles: seq<Role>, k: nat): seq<Role>
    requires k < |roles|
  {
    var i := NextAttrib(roles, k, 0);
    if i.Some? then Replace(roles, k, i.value) else roles
  }

  function Turns(roles: seq<Role>, k: nat, n: nat): (r: seq<Role>)
    requires k < |roles|
    ensures |r| == |roles|
  {
    if n == 0 then roles else Turn(Turns(roles, k, n - 1), k)
  }

  /** Some number of turns leaves regular roles only, which is when the loop ends. */
  ghost predicate Halts(roles: seq<Role>, k: nat)
    requires k < |roles|
  {
    exists n: nat :: FlatAfter(roles, k, n)
  }

  predicate FlatAfter(roles: seq<Role>, k: nat, n: nat)
    requires k < |roles|
  {
    Flat(Turns(roles, k, n), k)
  }

  // ---------------------------------------------------------------- cycles the loop can run into

  /** A walk through attributes other than `k`, each a member of the one before. */
  ghost predicate Walk(roles: seq<Role>, k: nat, p: seq<nat>) {
    && (forall i :: 0 <= i < |p| ==> Attrib(roles, p[i]) && p[i] != k)
    && forall i :: 0 < i < |p| ==> p[i] in roles[p[i - 1]].members
  }

  /** A walk that comes back to an attribute it has met. */
  ghost predicate Repeats(p: seq<nat>) {
    !NoDuplicates(p)
  }

  /** From the members of `k` a cycle of attributes other than `k` is reached without passing `k`. */
  ghost predicate Circling(roles: seq<Role>, k: nat)
    requires k < |roles|
  {
    exists p: seq<nat> :: Walk(roles, k, p) && Repeats(p) && p[0] in roles[k].members
  }

  /** A walk leads on from a cycle for ever. */
  ghost predicate Astray(roles: seq<Role>, k: nat, b: nat) {
    exists p: seq<nat> :: Walk(roles, k, p) && Repeats(p) && p[0] == b
  }

  /** An attribute astray has a member astray: the next on the walk, or on the cycle. */
  lemma AstrayMember(roles: seq<Role>, k: nat, b: nat) returns (c: nat)
    requires Astray(roles, k, b)
    ensures Attrib(roles, b) && b != k && c in roles[b].members && Astray(roles, k, c) && c != k
  {
    var p :| Walk(roles, k, p) && Repeats(p) && p[0] == b;
    var i, j :| 0 <= i < j < |p| && p[i] == p[j];
    c := p[1];
    assert Walk(roles, k, p[1..]);
    if i > 0 {
      assert p[1..][i - 1] == p[1..][j - 1];
      assert Repeats(p[1..]);
    } else {
      var around := p[1..j + 1] + [p[1]];
      forall x | 0 < x < |around| ensures around[x] in roles[around[x - 1]].members {
        assert x < j ==> around[x] == p[x + 1] && around[x - 1] == p[x];
      }
      assert Walk(roles, k, around);
      assert around[0] == around[|around| - 1];
      assert Repeats(around);
    }
  }

  /** Replacing members of `k` changes no walk that avoids `k`. */
  lemma WalksStay(before: seq<Role>, after: seq<Role>, k: nat, p: seq<nat>)
    requires |before| == |after| && k < |before| && after == before[k := after[k]] && after[k].isAttrib == before[k].isAttrib
    requires Walk(before, k, p)
    ensures Walk(after, k, p)
  {
  }

  lemma AstrayStays(before: seq<Role>, after: seq<Role>, k: nat, b: nat)
    requires |before| == |after| && k < |before| && after == before[k := after[k]] && after[k].isAttrib == before[k].isAttrib
    requires Astray(before, k, b)
    ensures Astray(after, k, b)
  {
    var p :| Walk(before, k, p) && Repeats(p) && p[0] == b;
    WalksStay(before, after, k, p);
  }

  /** While some member is astray, a replacement leaves some member astray. */
  lemma ReplaceStaysAstray(roles: seq<Role>, k: nat, i: nat)
    requires RolesOk(roles) && k < |roles| && i < |roles| && Circling(roles, k)
    ensures Circling(Replace(roles, k, i), k) && RolesOk(Replace(roles, k, i)) && !Flat(Replace(roles, k, i), k)
  {
    var after := Replace(roles, k, i);
    var p :| Walk(roles, k, p) && Repeats(p) && p[0] in roles[k].members;
    var b := p[0];
    assert Astray(roles, k, b);
    if b == i {
      var c := AstrayMember(roles, k, b);
      b := c;
    }
    AstrayStays(roles, after, k, b);
    assert b in after[k].members;
    var q :| Walk(after, k, q) && Repeats(q) && q[0] == b;
    assert Attrib(after, q[0]);
  }

  /** Running into a cycle, the loop never has only regular roles left. */
  lemma {:induction false} NeverFlat(roles: seq<Role>, k: nat, n: nat)
    requires RolesOk(roles) && k < |roles| && Circling(roles, k)
    ensures Circling(Turns(roles, k, n), k) && RolesOk(Turns(roles, k, n)) && !Flat(Turns(roles, k, n), k)
  {
    if n == 0 {
      var p :| Walk(roles, k, p) && Repeats(p) && p[0] in roles[k].members;
      assert Attrib(roles, p[0]);
    } else {
      NeverFlat(roles, k, n - 1);
      var was := Turns(roles, k, n - 1);
      var i := NextAttrib(was, k, 0);
      if i.Some? { ReplaceStaysAstray(was, k, i.value); }
    }
  }

  // ---------------------------------------------------------------- a weight for graphs without such cycles

  /** Every walk from `b` that avoids `k` has at most `n` further attributes. */
  ghost predicate Ends(roles: seq<Role>, k: nat, b: nat, n: nat)
    decreases n
  {
    b < |roles| && forall c :: c in roles[b].members && Attrib(roles, c) && c != k ==> n > 0 && Ends(roles, k, c, n - 1)
  }

  lemma {:induction false} EndsLater(roles: seq<Role>, k: nat, b: nat, n: nat)
    requires Ends(roles, k, b, n)
    ensures Ends(roles, k, b, n + 1)
    decreases n
  {
    forall c | c in roles[b].members && Attrib(roles, c) && c != k ensures Ends(roles, k, c, n) {
      EndsLater(roles, k, c, n - 1);
    }
  }

  /** If walks from `b` do not end early, there is a long one. */
  lemma {:induction false} LongWalk(roles: seq<Role>, k: nat, b: nat, n: nat) returns (p: seq<nat>)
    requires Attrib(roles, b) && b != k && !Ends(roles, k, b, n)
    ensures Walk(roles, k, p) && |p| == n + 2 && p[0] == b
    decreases n
  {
    var c :| c in roles[b].members && Attrib(roles, c) && c != k && !(n > 0 && Ends(roles, k, c, n - 1));
    if n == 0 {
      p := [b, c];
    } else {
      var q := LongWalk(roles, k, c, n - 1);
      p := [b] + q;
    }
  }

  lemma FewDistinct(p: seq<nat>, n: nat)
    requires NoDuplicates(p) && forall i :: 0 <= i < |p| ==> p[i] < n
    ensures |p| <= n
  {
    var own := set i | 0 <= i < |p| :: p[i];
    DistinctCount(p);
    SubsetSmaller(own, Below(n));
  }

  function Below(n: nat): (r: set<nat>)
    ensures |r| == n && forall i: nat :: i in r <==> i < n
  {
    if n == 0 then {} else Below(n - 1) + {n - 1}
  }

  lemma {:induction false} DistinctCount(p: seq<nat>)
    requires NoDuplicates(p)
    ensures |set i | 0 <= i < |p| :: p[i]| == |p|
  {
    if p != [] {
      var q := p[..|p| - 1];
      DistinctCount(q);
      assert (set i | 0 <= i < |p| :: p[i]) == (set i | 0 <= i < |q| :: q[i]) + {p[|p| - 1]};
    }
  }

  lemma {:induction false} SubsetSmaller(a: set<nat>, b: set<nat>)
    requires a <= b
    ensures |a| <= |b|
  {
    if a != {} {
      var x :| x in a;
      SubsetSmaller(a - {x}, b - {x});
    }
  }

  /** Without a cycle in reach, all walks from the members of `k` end. */
  lemma MembersEnd(roles: seq<Role>, k: nat, b: nat)
    requires k < |roles| && !Circling(roles, k) && b in roles[k].members && Attrib(roles, b) && b != k
    ensures Ends(roles, k, b, |roles|)
  {
    if !Ends(roles, k, b, |roles|) {
      var p := LongWalk(roles, k, b, |roles|);
      if NoDuplicates(p) {
        FewDistinct(p, |roles|);
      } else {
        var again := Repeats(p);
      }
    }
  }

  /** How far walks from `b` go, `k` counting as the end and a walk that does not end as `m`. */
  ghost function Height(roles: seq<Role>, k: nat, b: nat, m: nat): (h: nat)
    ensures h <= m + 1
    ensures b != k && Ends(roles, k, b, m) ==> h > 0 && Ends(roles, k, b, h - 1)
    decreases m
  {
    if b == k then 0
    else if m > 0 && Ends(roles, k, b, m - 1) then Height(roles, k, b, m - 1)
    else m + 1
  }

  lemma {:induction false} HeightLeast(roles: seq<Role>, k: nat, b: nat, m: nat, n: nat)
    requires b != k && n <= m && Ends(roles, k, b, n)
    ensures Height(roles, k, b, m) <= n + 1
    decreases m
  {
    if n < m {
      EndsTill(roles, k, b, n, m - 1);
      HeightLeast(roles, k, b, m - 1, n);
    }
  }

  lemma {:induction false} EndsTill(roles: seq<Role>, k: nat, b: nat, n: nat, m: nat)
    requires n <= m && Ends(roles, k, b, n)
    ensures Ends(roles, k, b, m)
    decreases m - n
  {
    if n < m {
      EndsLater(roles, k, b, n);
      EndsTill(roles, k, b, n + 1, m);
    }
  }

  function Power(base: nat, e: nat): (p: nat)
    requires base > 0
    ensures p > 0
  {
    if e == 0 then 1 else base * Power(base, e - 1)
  }

  lemma {:induction false} PowerGrows(base: nat, a: nat, b: nat)
    requires base > 0 && a <= b
    ensures Power(base, a) <= Power(base, b)
    decreases b - a
  {
    if a < b {
      PowerGrows(base, a, b - 1);
      var p := Power(base, b - 1);
      assert Power(base, b) == base * p && base * p >= p;
    }
  }

  /** The weight of a set of members: an attribute outweighs any set of lower attributes. */
  ghost function Weight(roles: seq<Role>, k: nat, members: set<nat>, n: nat): nat
    requires n <= |roles|
    decreases n
  {
    if n == 0 then 0
    else
      var own := if n - 1 in members && Attrib(roles, n - 1) then Power(|roles| + 1, Height(roles, k, n - 1, |roles|)) else 0;
      Weight(roles, k, members, n - 1) + own
  }

  lemma {:induction false} WeightRemove(roles: seq<Role>, k: nat, members: set<nat>, i: nat, n: nat)
    requires n <= |roles| && i in members && Attrib(roles, i)
    ensures Weight(roles, k, members, n) ==
      Weight(roles, k, members - {i}, n) + if i < n then Power(|roles| + 1, Height(roles, k, i, |roles|)) else 0
  {
    hide Power, Height;
    if n > 0 { WeightRemove(roles, k, members, i, n - 1); }
  }

  lemma {:induction false} WeightUnion(roles: seq<Role>, k: nat, a: set<nat>, b: set<nat>, n: nat)
    requires n <= |roles|
    ensures Weight(roles, k, a + b, n) <= Weight(roles, k, a, n) + Weight(roles, k, b, n)
  {
    hide Power, Height;
    if n > 0 { WeightUnion(roles, k, a, b, n - 1); }
  }

  lemma {:induction false} WeightBound(roles: seq<Role>, k: nat, members: set<nat>, h: nat, n: nat)
    requires n <= |roles|
    requires forall b :: b in members && Attrib(roles, b) ==> Height(roles, k, b, |roles|) <= h
    ensures Weight(roles, k, members, n) <= n * Power(|roles| + 1, h)
  {
    hide Power, Height;
    if n > 0 {
      WeightBound(roles, k, members, h, n - 1);
      var p := Power(|roles| + 1, h);
      if n - 1 in members && Attrib(roles, n - 1) { PowerGrows(|roles| + 1, Height(roles, k, n - 1, |roles|), h); }
      assert n * p == (n - 1) * p + p;
    }
  }

  /** Members of an attribute whose walks end are lower than it. */
  lemma MembersLower(roles: seq<Role>, k: nat, i: nat, c: nat)
    requires i != k && Ends(roles, k, i, |roles|) && c in roles[i].members && Attrib(roles, c)
    ensures Height(roles, k, c, |roles|) < Height(roles, k, i, |roles|)
  {
    if c != k {
      var h := Height(roles, k, i, |roles|);
      assert Ends(roles, k, i, h - 1);
      assert Ends(roles, k, c, h - 2);
      HeightLeast(roles, k, c, |roles|, h - 2);
    }
  }

  /** Trading an attribute for its members weighs less. */
  lemma WeightDrops(roles: seq<Role>, k: nat, members: set<nat>, i: nat)
    requires i in members && Attrib(roles, i) && (i != k ==> Ends(roles, k, i, |roles|))
    ensures Weight(roles, k, members - {i} + (if i == k then {} else roles[i].members), |roles|) < Weight(roles, k, members, |roles|)
  {
    var n := |roles|;
    WeightRemove(roles, k, members, i, n);
    if i == k {
      assert members - {i} + {} == members - {i};
    } else {
      var h := Height(roles, k, i, n);
      WeightUnion(roles, k, members - {i}, roles[i].members, n);
      forall c | c in roles[i].members && Attrib(roles, c) ensures Height(roles, k, c, n) <= h - 1 { MembersLower(roles, k, i, c); }
      WeightBound(roles, k, roles[i].members, h - 1, n);
      Outweighs(n, h);
    }
  }

  lemma Outweighs(n: nat, h: nat)
    requires h > 0
    ensures n * Power(n + 1, h - 1) < Power(n + 1, h)
  {
    var p := Power(n + 1, h - 1);
    assert Power(n + 1, h) == (n + 1) * p == n * p + p;
  }

  // ---------------------------------------------------------------- when the loop ends

  /** What a run keeps: other roles, and that no cycle is in reach. */
  ghost predicate OnTheWay(roles0: seq<Role>, roles: seq<Role>, k: nat) {
    && RolesOk(roles) && k < |roles| == |roles0|
    && roles == roles0[k := roles0[k].(members := roles[k].members)]
    && !Circling(roles, k)
    && forall a, j :: Reaches(roles, a, j) <==> Reaches(roles0, a, j)
  }

  /** A replacement on an attribute that reaches no cycle reaches none afterwards. */
  lemma CirclingBack(roles: seq<Role>, k: nat, i: nat)
    requires RolesOk(roles) && k < |roles| && i in roles[k].members && Attrib(roles, i) && Circling(Replace(roles, k, i), k)
    ensures Circling(roles, k)
  {
    var after := Replace(roles, k, i);
    var p :| Walk(after, k, p) && Repeats(p) && p[0] in after[k].members;
    WalksStay(after, roles, k, p);
    if p[0] !in roles[k].members {
      assert p[0] in roles[i].members;
      var q := [i] + p;
      forall x | 0 < x < |q| ensures q[x] in roles[q[x - 1]].members { assert q[x - 1] == if x == 1 then i else p[x - 2]; }
      assert Walk(roles, k, q);
      var x, y :| 0 <= x < y < |p| && p[x] == p[y];
      assert q[x + 1] == q[y + 1];
      assert Repeats(q);
    }
  }

  /** One replacement on the way: still on the way, and lighter. */
  lemma WayStep(roles0: seq<Role>, roles: seq<Role>, k: nat, i: nat)
    requires OnTheWay(roles0, roles, k) && Attrib(roles0, k) && i in roles[k].members && Attrib(roles, i)
    ensures OnTheWay(roles0, Replace(roles, k, i), k)
    ensures Weight(roles0, k, Replace(roles, k, i)[k].members, |roles0|) < Weight(roles0, k, roles[k].members, |roles0|)
  {
    hide Reaches, Weight, Ends, Circling;
    var after := Replace(roles, k, i);
    assert Replaced(roles, after, k, i);
    ReplacedReaches(roles, after, k, i);
    if Circling(after, k) { CirclingBack(roles, k, i); }
    if i != k {
      MembersEnd(roles, k, i);
      EndsSame(roles, roles0, k, i, |roles|);
    }
    assert roles0[i].members == roles[i].members || i == k;
    WeightDrops(roles0, k, roles[k].members, i);
  }

  /** Walks that avoid `k` do not depend on its members. */
  lemma {:induction false} EndsSame(a: seq<Role>, b: seq<Role>, k: nat, i: nat, n: nat)
    requires |a| == |b| && k < |a| && b == a[k := b[k]] && b[k].isAttrib == a[k].isAttrib
    requires i != k && Ends(a, k, i, n)
    ensures Ends(b, k, i, n)
    decreases n
  {
    forall c | c in b[i].members && Attrib(b, c) && c != k ensures n > 0 && Ends(b, k, c, n - 1) {
      EndsSame(a, b, k, c, n - 1);
    }
  }

  /** From a state on the way the loop gets flat. */
  lemma {:induction false} WayEnds(roles0: seq<Role>, roles: seq<Role>, k: nat) returns (n: nat)
    requires OnTheWay(roles0, roles, k) && Attrib(roles0, k)
    ensures Flat(Turns(roles, k, n), k)
    decreases Weight(roles0, k, roles[k].members, |roles0|)
  {
    var i := NextAttrib(roles, k, 0);
    if i.None? {
      n := 0;
      NothingNext(roles, k);
    } else {
      WayStep(roles0, roles, k, i.value);
      var m := WayEnds(roles0, Turn(roles, k), k);
      TurnsAhead(roles, k, m);
      n := m + 1;
    }
  }

  lemma NothingNext(roles: seq<Role>, k: nat)
    requires RolesOk(roles) && k < |roles| && NextAttrib(roles, k, 0).None?
    ensures Flat(roles, k)
  {
  }

  lemma {:induction false} TurnsAhead(roles: seq<Role>, k: nat, n: nat)
    requires k < |roles|
    ensures |Turn(roles, k)| == |roles| && Turns(Turn(roles, k), k, n) == Turns(roles, k, n + 1)
  {
    if n > 0 { TurnsAhead(roles, k, n - 1); }
  }

  /**
     The loop on an attribute ends, that is, comes to a state with regular roles only, exactly
     when no cycle of other attributes is reached from it without passing through it. Cycles
     through the attribute itself do no harm.
   */
  lemma LoopEndsExactly(roles: seq<Role>, k: nat)
    requires RolesOk(roles) && Attrib(roles, k)
    ensures Halts(roles, k) <==> !Circling(roles, k)
  {
    if Circling(roles, k) {
      forall n: nat ensures !FlatAfter(roles, k, n) { NeverFlat(roles, k, n); }
    } else {
      assert roles[k := roles[k].(members := roles[k].members)] == roles;
      var n := WayEnds(roles, roles, k);
      assert FlatAfter(roles, k, n);
    }
  }

  /** Two attributes that contain each other: no cycle avoids either, and the loop ends. */
  lemma MutualEnds(roles: seq<Role>, k: nat, i: nat)
    requires RolesOk(roles) && Attrib(roles, k) && Attrib(roles, i) && i != k
    requires (forall b :: b in roles[k].members && Attrib(roles, b) ==> b == i) && forall b :: b in roles[i].members && Attrib(roles, b) ==> b == k
    ensures Halts(roles, k)
  {
    LoopEndsExactly(roles, k);
    if Circling(roles, k) {
      hide Walk, Repeats;
      var p :| Walk(roles, k, p) && Repeats(p) && p[0] in roles[k].members;
      RepeatsLong(p);
      WalkAt(roles, k, p, 0);
      WalkAt(roles, k, p, 1);
    }
  }

  lemma RepeatsLong(p: seq<nat>)
    requires Repeats(p)
    ensures |p| > 1
  {
  }

  lemma WalkAt(roles: seq<Role>, k: nat, p: seq<nat>, i: nat)
    requires Walk(roles, k, p) && i < |p|
    ensures Attrib(roles, p[i]) && p[i] != k
    ensures i > 0 ==> Attrib(roles, p[i - 1]) && p[i] in roles[p[i - 1]].members
  {
  }

  /** An attribute that contains itself, inside another: the loop on the outer one never ends. */
  lemma SelfContainingSpins(roles: seq<Role>, k: nat, i: nat)
    requires RolesOk(roles) && Attrib(roles, k) && Attrib(roles, i) && i != k && i in roles[k].members && i in roles[i].members
    ensures !Halts(roles, k)
  {
    assert Walk(roles, k, [i, i]) && [i, i][0] == [i, i][1];
    assert Repeats([i, i]);
    LoopEndsExactly(roles, k);
  }

  // ---------------------------------------------------------------- all roles

  /** Roles the pass works on: object_r is never a role attribute. */
  predicate Expandable(roles: seq<Role>, k: nat) {
    Attrib(roles, k) && roles[k].name != OBJECT_R
  }

  ghost function ReachSet(roles: seq<Role>, k: nat): set<nat> {
    set j | 0 <= j < |roles| && Reaches(roles, k, j)
  }

  /** The roles with the attributes of `done` flattened to what they reach. */
  ghost function Flattened(roles: seq<Role>, done: seq<nat>): (r: seq<Role>)
    ensures |r| == |roles|
  {
    seq(|roles|, i requires 0 <= i < |roles| =>
      if i in done && Expandable(roles, i) then roles[i].(members := ReachSet(roles, i)) else roles[i])
  }

  /** In this order no attribute reaches a cycle when its turn comes. */
  ghost predicate EndsInOrder(roles: seq<Role>, order: seq<nat>) {
    forall x :: 0 <= x < |order| ==> TurnEnds(roles, order, x)
  }

  ghost predicate TurnEnds(roles: seq<Role>, order: seq<nat>, x: nat)
    requires x < |order|
  {
    Expandable(roles, order[x]) ==> !Circling(Flattened(roles, order[..x]), order[x])
  }

  /** Flattening breaks cycles and makes none. */
  lemma FlattenedCircles(roles: seq<Role>, done: seq<nat>, k: nat)
    requires RolesOk(roles) && k < |roles| && Circling(Flattened(roles, done), k)
    ensures Circling(roles, k)
  {
    hide Reaches;
    var flat := Flattened(roles, done);
    var p :| Walk(flat, k, p) && Repeats(p) && p[0] in flat[k].members;
    FlatMembersRegular(roles, done);
    assert Attrib(flat, p[0]);
    forall i | 0 <= i < |p| ensures Attrib(roles, p[i]) { assert Attrib(flat, p[i]); }
    forall i | 0 < i < |p| ensures p[i] in roles[p[i - 1]].members { assert Attrib(flat, p[i]); }
    assert Walk(roles, k, p);
  }

  lemma FlatMembersRegular(roles: seq<Role>, done: seq<nat>)
    ensures forall a, b :: 0 <= a < |roles| && b in Flattened(roles, done)[a].members && Attrib(roles, b) ==> b in roles[a].members
  {
  }

  /** A visiting order holds every role once. */
  ghost predicate VisitsAll(roles: seq<Role>, order: seq<nat>) {
    NoDuplicates(order) && forall k :: k in order <==> 0 <= k < |roles|
  }

  /** The order that visits role `k` first and the others as they come. */
  ghost function StartingWith(n: nat, k: nat): (order: seq<nat>)
    requires k < n
    ensures |order| == n && order[0] == k
  {
    seq(n, x => if x == 0 then k else if x <= k then x - 1 else x)
  }

  lemma StartingVisitsAll(roles: seq<Role>, k: nat)
    requires k < |roles|
    ensures VisitsAll(roles, StartingWith(|roles|, k))
  {
    var order := StartingWith(|roles|, k);
    forall x | 0 <= x < |roles| ensures x in order {
      assert order[if x == k then 0 else if x < k then x + 1 else x] == x;
    }
  }

  /**
     The pass ends in every visiting order exactly when no attribute reaches a cycle to begin
     with: the order that starts with such an attribute does not end.
   */
  lemma EveryOrderEnds(roles: seq<Role>)
    requires RolesOk(roles)
    ensures (forall order :: VisitsAll(roles, order) ==> EndsInOrder(roles, order)) <==>
      forall k: nat :: Expandable(roles, k) ==> !Circling(roles, k)
  {
    hide Circling, Reaches;
    if forall k: nat :: Expandable(roles, k) ==> !Circling(roles, k) {
      forall order, x | VisitsAll(roles, order) && 0 <= x < |order| ensures TurnEnds(roles, order, x) {
        assert order[x] in order;
        if Expandable(roles, order[x]) && Circling(Flattened(roles, order[..x]), order[x]) {
          FlattenedCircles(roles, order[..x], order[x]);
        }
      }
    }
    if forall order :: VisitsAll(roles, order) ==> EndsInOrder(roles, order) {
      forall k: nat | Expandable(roles, k) ensures !Circling(roles, k) {
        var order := StartingWith(|roles|, k);
        StartingVisitsAll(roles, k);
        assert TurnEnds(roles, order, 0);
        assert order[..0] == [] && Flattened(roles, []) == roles;
      }
    }
  }

  class RoleTable {
    var roles: seq<Role>

    constructor (roles: seq<Role>)
      ensures this.roles == roles
    {
      this.roles := roles;
    }

    /**
       The restart loop on one role. It is entered with no cycle in reach, without which it
       does not end, and performs the turns of the loop until the role is flat.
     */
    method ExpandRoleAttributes(k: nat)
      requires RolesOk(roles) && k < |roles| && (Expandable(roles, k) ==> !Circling(roles, k))
      modifies this
      ensures RolesOk(roles) && |roles| == |old(roles)|
      ensures !Expandable(old(roles), k) ==> roles == old(roles)
      ensures old(roles)[k].name == "object_r" || !old(roles)[k].isAttrib ==> roles == old(roles)
      ensures old(roles)[k].name != "object_r" && old(roles)[k].isAttrib ==>
        && roles == old(roles)[k := old(roles)[k].(members := roles[k].members)]
        && forall j :: j in roles[k].members <==> Reaches(old(roles), k, j)
      ensures Expandable(old(roles), k) ==>
        && roles == old(roles)[k := old(roles)[k].(members := ReachSet(old(roles), k))]
        && exists n: nat :: roles == Turns(old(roles), k, n)
      ensures forall a, j :: Reaches(roles, a, j) <==> Reaches(old(roles), a, j)
    {
      if roles[k].name == OBJECT_R || !roles[k].isAttrib { return; }
      hide *;
      ghost var roles0 := roles;
      ghost var turns: nat := 0;
      StartsOut(roles, k);
      var i := 0;
      while i < |roles|
        invariant OnTheWay(roles0, roles, k) && |roles| == |roles0| && i <= |roles| && turns >= 0
        invariant roles == Turns(roles0, k, turns) && NothingBefore(roles, k, i)
        decreases Weight(roles0, k, roles[k].members, |roles0|), |roles| - i
      {
        ghost var before := roles;
        AsAttrib(roles0, roles, k, i);
        if i in roles[k].members && roles[i].isAttrib {
          WayStep(roles0, roles, k, i);
          TurnNow(roles0, roles, k, i, turns);
          turns := turns + 1;
          roles := roles[k := roles[k].(members := roles[k].members - {i})];
          if roles[i].value == roles[k].value {
            Dropped(before, k, i);
            i := i + 1;
            continue;
          }
          roles := roles[k := roles[k].(members := roles[k].members + roles[i].members)];
          Joined(before, k, i);
          i := 0;
        } else {
          PassedBy(roles, k, i);
          i := i + 1;
        }
      }
      ReachedEnd(roles0, roles, k, turns);
    }

    /**
       In whatever order the roles are visited, provided no attribute reaches a cycle when its
       turn comes, every attribute but object_r ends with exactly the regular roles it reached
       at the start, and no other role changes.
     */
    method ExpandAll(order: seq<nat>)
      requires RolesOk(roles) && VisitsAll(roles, order) && EndsInOrder(roles, order)
      modifies this
      ensures roles == Flattened(old(roles), order)
      ensures |roles| == |old(roles)|
      ensures forall k: nat :: k < |roles| && !Expandable(old(roles), k) ==> roles[k] == old(roles)[k]
      ensures forall k: nat, j :: k < |roles| && Expandable(old(roles), k) ==> (j in roles[k].members <==> Reaches(old(roles), k, j))
      ensures forall k: nat :: k < |roles| && (old(roles)[k].name == "object_r" || !old(roles)[k].isAttrib) ==> roles[k] == old(roles)[k]
      ensures forall k: nat, j :: k < |roles| && old(roles)[k].name != "object_r" && old(roles)[k].isAttrib ==>
        roles[k] == old(roles)[k].(members := roles[k].members) && (j in roles[k].members <==> Reaches(old(roles), k, j))
    {
      hide *;
      ghost var roles0 := roles;
      NoneFlattened(roles, order);
      for x := 0 to |order|
        invariant RolesOk(roles) && |roles| == |roles0|
        invariant roles == Flattened(roles0, order[..x])
        invariant forall a, j :: Reaches(roles, a, j) <==> Reaches(roles0, a, j)
      {
        TurnComes(roles0, order, x);
        ghost var before := roles;
        ExpandRoleAttributes(order[x]);
        FlattenedStep(roles0, before, roles, order, x);
      }
      assert order[..|order|] == order;
      FlattenedFacts(roles0, order);
    }
  }

  lemma StartsOut(roles: seq<Role>, k: nat)
    requires RolesOk(roles) && Attrib(roles, k) && !Circling(roles, k)
    ensures OnTheWay(roles, roles, k) && Turns(roles, k, 0) == roles && NothingBefore(roles, k, 0)
  {
    assert roles[k := roles[k].(members := roles[k].members)] == roles;
  }

  /** No attribute among the members below `i`. */
  ghost predicate NothingBefore(roles: seq<Role>, k: nat, i: nat) {
    k < |roles| && forall b :: b in roles[k].members && b < i ==> !Attrib(roles, b)
  }

  lemma AsAttrib(roles0: seq<Role>, roles: seq<Role>, k: nat, i: nat)
    requires OnTheWay(roles0, roles, k) && i < |roles|
    ensures k < |roles| && (Attrib(roles, i) <==> roles[i].isAttrib) && (Attrib(roles0, k) <==> roles[k].isAttrib)
    ensures roles[i].value == i + 1 && roles[k].value == k + 1
  {
  }

  lemma {:induction false} ScanFinds(roles: seq<Role>, k: nat, i: nat, from: nat)
    requires k < |roles| && from <= i < |roles| && i in roles[k].members && Attrib(roles, i) && NothingBefore(roles, k, i)
    ensures NextAttrib(roles, k, from) == Some(i)
    decreases i - from
  {
    if from < i { ScanFinds(roles, k, i, from + 1); }
  }

  lemma TurnNow(roles0: seq<Role>, roles: seq<Role>, k: nat, i: nat, n: nat)
    requires k < |roles0| && roles == Turns(roles0, k, n) && i < |roles| && i in roles[k].members && Attrib(roles, i)
    requires NothingBefore(roles, k, i)
    ensures Replace(roles, k, i) == Turns(roles0, k, n + 1) && |Replace(roles, k, i)| == |roles|
  {
    ScanFinds(roles, k, i, 0);
  }

  lemma Dropped(roles: seq<Role>, k: nat, i: nat)
    requires k < |roles| && i < |roles| && NothingBefore(roles, k, i)
    ensures
      var after := roles[k := roles[k].(members := roles[k].members - {i})];
      (i == k ==> after == Replace(roles, k, i)) && NothingBefore(after, k, i + 1)
  {
    assert roles[k].members - {i} + {} == roles[k].members - {i};
  }

  lemma Joined(roles: seq<Role>, k: nat, i: nat)
    requires k < |roles| && i < |roles| && i != k
    ensures
      var after := roles[k := roles[k].(members := roles[k].members - {i})];
      var joined := after[k := after[k].(members := after[k].members + after[i].members)];
      joined == Replace(roles, k, i) && NothingBefore(joined, k, 0)
  {
  }

  lemma PassedBy(roles: seq<Role>, k: nat, i: nat)
    requires NothingBefore(roles, k, i) && !(i in roles[k].members && Attrib(roles, i))
    ensures NothingBefore(roles, k, i + 1)
  {
  }

  lemma ReachedEnd(roles0: seq<Role>, roles: seq<Role>, k: nat, n: nat)
    requires OnTheWay(roles0, roles, k) && Attrib(roles0, k) && NothingBefore(roles, k, |roles|)
    ensures RolesOk(roles) && |roles| == |roles0|
    ensures roles == roles0[k := roles0[k].(members := ReachSet(roles0, k))]
    ensures forall a, j :: Reaches(roles, a, j) <==> Reaches(roles0, a, j)
  {
    hide Reaches, Circling;
    FlatReaches(roles, k);
    assert roles[k].members == ReachSet(roles0, k);
  }

  lemma NoneFlattened(roles: seq<Role>, order: seq<nat>)
    ensures Flattened(roles, order[..0]) == roles
  {
  }

  lemma TurnComes(roles: seq<Role>, order: seq<nat>, x: nat)
    requires EndsInOrder(roles, order) && x < |order| && VisitsAll(roles, order)
    ensures order[x] < |roles| && (Expandable(Flattened(roles, order[..x]), order[x]) <==> Expandable(roles, order[x]))
    ensures Expandable(roles, order[x]) ==> !Circling(Flattened(roles, order[..x]), order[x])
  {
    hide Circling, ReachSet;
    assert order[x] in order;
    assert TurnEnds(roles, order, x);
  }

  lemma FlattenedStep(roles0: seq<Role>, before: seq<Role>, after: seq<Role>, order: seq<nat>, x: nat)
    requires x < |order| && order[x] < |roles0| && VisitsAll(roles0, order) && before == Flattened(roles0, order[..x])
    requires |after| == |before| && forall a, j :: Reaches(before, a, j) <==> Reaches(roles0, a, j)
    requires !Expandable(before, order[x]) ==> after == before
    requires Expandable(before, order[x]) ==> after == before[order[x] := before[order[x]].(members := ReachSet(before, order[x]))]
    ensures after == Flattened(roles0, order[..x + 1])
  {
    hide Reaches;
    var k := order[x];
    assert ReachSet(before, k) == ReachSet(roles0, k);
    assert k !in order[..x];
    assert before[k] == roles0[k];
    assert order[..x + 1] == order[..x] + [k];
    hide ReachSet;
    var next := Flattened(roles0, order[..x + 1]);
    forall i | 0 <= i < |after| ensures after[i] == next[i] {
      assert i in order[..x + 1] <==> i in order[..x] || i == k;
    }
  }

  lemma FlattenedFacts(roles: seq<Role>, order: seq<nat>)
    requires RolesOk(roles) && VisitsAll(roles, order)
    ensures forall k: nat :: k < |roles| && !Expandable(roles, k) ==> Flattened(roles, order)[k] == roles[k]
    ensures forall k: nat, j :: k < |roles| && Expandable(roles, k) ==>
      (j in Flattened(roles, order)[k].members <==> Reaches(roles, k, j))
    ensures forall k: nat :: k < |roles| ==> (Expandable(roles, k) <==> roles[k].isAttrib && roles[k].name != "object_r")
    ensures forall k: nat :: k < |roles| ==> Flattened(roles, order)[k] == roles[k].(members := Flattened(roles, order)[k].members)
  {
    hide Reaches;
    forall k: nat, j: nat | k < |roles| && Reaches(roles, k, j) ensures j < |roles| { ReachesDeclared(roles, k, j); }
  }

  lemma ReachesDeclared(roles: seq<Role>, k: nat, j: nat)
    requires Reaches(roles, k, j)
    ensures j < |roles|
  {
    var n: nat :| ReachesIn(roles, k, j, n);
  }
}
