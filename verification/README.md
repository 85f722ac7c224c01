# libsepol: policy decisions, checkers and the structures beneath them

libsepol compiles, links, optimises and checks SELinux policies. A kernel policy holds concrete
types, attributes that stand for sets of types, a table of access-vector rules, and conditionals
that each own a true list and a false list of further rules. Most of the library either
transforms such a policy, and must not change what it permits, or judges it, and must not be
wrong in either direction. This project models that code in Dafny and proves both.

The access decision is one relation. A query names a concrete source, a concrete target, a class
and a question: a permission bit of a kind of rule, an extended permission, the fact that an
extended-permission rule exists, or the type a type rule answers with (module `AccessDecision`).
A policy decides a query when a rule of the unconditional table, or of the active branch of a
conditional under the given boolean assignment, covers the pair and answers the question (module
`PolicyDb`). A "don't audit" mask is read through its complement, so that unions (allow,
auditallow, extended permissions) and intersections (auditdeny) are both "some rule says so".

What is proved, by group:

- **Transformations.** `policydb_optimize` changes no decision under any boolean assignment when
  the rows of the type map are closed, and over any other rows it can; it leaves no access-vector
  rule that repeats a bit of a wider rule it could have found, and, where extended rules have keys
  of their own, no extended rule that repeats another (`Optimize`, `OptimizeCond`).
  `cond_optimize_lists` changes no decision (`CondOrder`), nor does the expansion of attributes
  to concrete types (`Expand`). The access vectors of a pair of types are the decisions, before
  and after the optimiser, and equal over closed rows (`AccessVector`). Those of two contexts are
  these less what constraints, role rules and type bounds prohibit; a clean bounds check leaves
  nothing for the bounds to prohibit (`ContextDecision`).
- **Checkers.** The bounds check reports nothing exactly when the child stays within the parent
  for every choice of branches (`Hierarchy`). The neverallow fast test is exact, and the reporter
  counts a failure exactly when the test fires outside one named family (`Assertion`). The test
  of rules on extended permissions misses no violation under any assignment, and is exact where
  no conditional rule reaches the pair (`NeverXperms`); beside conditional rules a condition on
  the rules says which of its alarms are right (`NeverChoices`). What a violation is and what is
  counted is also told by rows, chains and sets of reports alone (`NeverRules`).
- **Fixpoints.** The optional-block loop reaches the greatest self-supporting set of
  declarations and fails exactly when a mandatory block lies outside it (`Link`). The restart
  loop that flattens role attributes ends exactly when no cycle of other attributes is in reach,
  and leaves exactly the reachable regular roles (`RoleAttr`).
- **Conditionals.** The stack machine, the load check, the infix printer, normalisation with the
  truth table, incremental re-flagging and the rejection of conflicting type rules (`CondExpr`,
  `CondPrint`, `Normalize`, `Conditional`, `CondTypes`).
- **Structures and codecs.** The sparse bitmap, the rule table, the resizing hash table, and MLS
  labels in text and as category ranges (`Words`, `Ebitmap`, `Avtab`, `Hashtab`, `MlsRuns`,
  `Mls`, `MlsParse`, `MlsSemantic`).

## Where the code does less than its promise

In each case the code is modelled as it stands, a lemma gives an input on which the promise
fails, and another says for all inputs when it holds.

- `ebitmap_for_each_bit` (include/sepol/policydb/ebitmap.h:60-81) steps from the last bit of a
  node to the first bit of the next node, so positions in a gap are never visited. The run
  compression of labels takes bits on both sides of a gap for neighbours. A printed label
  parses back to the same range exactly when at no gap the left node has bit 63 set together
  with bit 62, or with bits 0 and 1 of the right node (`MlsParse.RoundTrip`, `MlsRuns.EntriesExactly`,
  `MlsRuns.GapMisprinted`). The conversion to category ranges and back is the identity exactly
  when no node before a gap has bit 63 set (`MlsSemantic.LevelRoundTrip`,
  `MlsSemantic.EdgeMisconverted`).
- `cond_expr_equal` compares the boolean ids of two nodes as sets but their truth tables bit by
  bit, so `b1 && !b2` and `b2 && !b1` compare equal (`Normalize.EqualYetDifferent`). Equal answers
  mean the same condition exactly when the table reads the same in both numberings
  (`Normalize.EqualExactly`), for which the same order of ids suffices.
- The neverallow reporter counts nothing for a rule with `self` that also has explicit targets
  when the entry's pair is reached only through those (`Assertion.SelfWithTargetsMissed`), so
  `check_assertions` accepts the policy although its fast test fired. Outside `Overlooked` the
  two agree (`Assertion.ReportsExactly`). For a rule on extended permissions the reporter, unlike
  the check (src/assertion.c:228 against src/assertion.c:506), takes any rule of a branch with a
  forbidden permission bit for one that allows it. Extended rules carry such bits for the sake of
  neverallow checking (src/avtab.c:115-119), and then a forbidden list on a branch can go uncounted
  (`Assertion.ExtendedMissed`). The rule is caught exactly when, besides, some entry is reported,
  as is certain when the extended rules of the branches carry no bits (`Assertion.CaughtExactly`).
  The count of failures is truncated to a C `int`, so a
  positive multiple of 2^32 failures also reads as none (`Assertion.CheckAssertions`).
- The check of rules on extended permissions asks for an extended rule of the same key on the same
  branch as the rule that allows the permission, whatever the table lists, and counts forbidden
  lists on branches that exclude each other. So it also rejects pairs that no choice of branches
  lets violate the rule (`NeverChoices.FalseAlarm`). Some choice does exactly when a rule that
  allows the permission can be in force together with a forbidden list, or without any list
  (`NeverChoices.ViolableExactly`), and then the check never stays silent
  (`NeverChoices.ViolableFires`).
- The parent side of the bounds check expands conditional rules of every kind, while the child
  side filters on allow rules (src/hierarchy.c:126-143 against src/hierarchy.c:322-346): an
  auditallow rule of the parent covers an allow rule of the child (`Hierarchy.AuditCoversAllow`).
  The verdict is exact for the check as written. The child is bounded by its parent under every
  assignment if the verdict computed with the parent's conditional rules filtered on allow is
  clean (`Hierarchy.BoundsSound`), and only if, when the conditions are independent of each other
  (`Hierarchy.BoundsExactly`); for any conditions it is bounded exactly when it stays within the
  parent under every choice of branches that some assignment takes (`Hierarchy.BoundsTaken`).
  The strict verdict never reports less than the check (`Hierarchy.StrictReportsMore`) and is the
  same where only allow rules reach the parent conditionally (`Hierarchy.OnlyAllowsStrict`).
- The optimiser keeps every decision of every table exactly when the rows of the type map are
  closed: a plain type in another type's row brings its own row along. The loader accepts rows
  that are not (`Optimize.OpenRowsLoad`). Over any such rows the pass takes a decision away from a
  table of two rules, whatever it makes of them: under every hash if the wider rule is on an
  attribute or on a type whose row lacks the narrower one, and otherwise under a hash that puts the
  narrower rule first (`Optimize.OpenRowsLose`, `Optimize.OptimizeOpenRows`). In the same way
  expansion to concrete types keeps every decision exactly when a type in a row brings along the
  attributes it is expanded from (`Expand.ExpandedDecides`, `Expand.OpenRowsGain`). The maps that
  the compiler builds, with rows of attributes, satisfy both.
- The restart loop on a role attribute ends exactly when no cycle of other attributes is reached
  from it without passing through it (`RoleAttr.LoopEndsExactly`). Cycles through the attribute
  itself do no harm (`RoleAttr.MutualEnds`); a self-containing attribute inside another makes the
  loop on the outer one run for ever (`RoleAttr.SelfContainingSpins`). The whole pass ends in every
  visiting order exactly when no attribute reaches such a cycle (`RoleAttr.EveryOrderEnds`).
- `cond_normalize_expr` leaves the booleans overwritten when evaluation is undefined: they hold
  the first failing setting, which for a well-formed expression sets all its booleans to false
  (`Normalize.CondNormalizeExpr`, `Normalize.FailureClears`).
- The 32-bit counter of `ebitmap_not` gets past its bound exactly when the bound is at most
  2^32 - 64 (`Ebitmap.CounterPasses`); above that it wraps for ever.

## Model

| member | source | states |
|---|---|---|
| `AccessDecision.KindUnique` | src/avtab.c:537-545 | a specifier that passes the one-bit check names exactly one kind of rule |
| `AccessDecision.RuleSays` | include/sepol/policydb/avtab.h:54-69 | which rule answers which question, by the literal specifier and datum: the bits set of an allow or auditallow mask, the bits missing from an auditdeny mask, the type of a type rule, and the mere presence of an extended rule |
| `AccessDecision.XpermsSaid` | include/sepol/policydb/avtab.h:70-84 | an extended rule answers for a driver and a function iff its words list the function for that driver, or, as a driver list, the driver |
| `AccessDecision.OneWordLists` | include/sepol/policydb/policydb.h:254-254 | a list whose only word in use is word w, holding bit b alone, lists exactly the number 32 * w + b |
| `PolicyDb.AllowedExactly` | src/services.c:934-972 | a concrete pair is allowed a permission iff an allow rule with the bit, on a chain of the unconditional table or on the list in force of a conditional, has the source and the target in the rows of the pair |
| `TypeMaps.ReadTypeMaps` | src/policydb.c:4451-4480 | reading succeeds iff every other type a row mentions exists; then the attribute map is the transpose of the type map, each row gains its own type, and rows that hold attributes are closed |
| `TypeMaps.ExpandTypeMaps` | src/expand.c:2347-2388 | the callback run over all types in any order builds a valid pair of maps with closed rows in which an attribute that is kept holds exactly its members |
| `Optimize.BuildTypeMap` | src/optimize.c:96-141 | each vector lists, ascending, what applies wherever its own entry applies: for a concrete type its row; for an attribute exactly the attributes that hold all its types, which for one of concrete types means those that every concrete type having the first in its row has in its row too |
| `Optimize.TypeVecContains` | src/optimize.c:77-93 | the binary search finds a value iff it is in the ascending vector |
| `Optimize.SupersetCovers` | src/optimize.c:96-141 | over closed rows, a type or attribute on the superset list of another applies to every concrete type the other applies to |
| `Optimize.ProcessAvtabDatum` | src/optimize.c:151-201 | trimming a rule by a cover leaves exactly what the cover does not say: nothing is added, nothing is lost that the cover does not say, and of the three mask kinds no bit of the cover is left; done iff no bit is left |
| `Optimize.ProcessXpermDatum` | src/optimize.c:151-201 | lists over the same range are reduced word by word to what the second lacks, and done when all words are zero; a function list against a driver list of one bit is done iff that bit is its driver; any other pair is left alone |
| `Optimize.TrimmedReduces` | src/optimize.c:164-246 | trimming by one more cover keeps the fact that what the rule lost is still said by the covers |
| `Optimize.IsAvruleRedundant` | src/optimize.c:204-246 | a rule is trimmed only by what other rules of the table on supersets say, and over closed rows called redundant only if they say all of it; otherwise, with unique keys, it shares no bit with any access-vector rule as wide, and an extended rule lists something, and nothing that the first rule of any as wide key lists; type rules are left as they are |
| `Optimize.FoundStandsForAll` | src/optimize.c:233-239 | with unique keys the one rule a search finds is the only one of its kind on its pair |
| `Optimize.ReduceKeepsTable` | src/optimize.c:300-325 | over closed rows, replacing a rule by its trimmed form, and unlinking it if redundant, leaves every decision of the table unchanged although the trimmed rule serves as a cover afterwards |
| `Optimize.OptimizeRule` | src/optimize.c:300-325 | one step of the pass removes at most the rule it looks at, keeps every decision of the table over closed rows, and leaves it apart from all rules as wide if it survives, without disturbing the rules before it |
| `Optimize.SettledStep` | src/optimize.c:300-325 | trimming or removing the rule under the cursor keeps every rule before it apart from the rules as wide, because covers only shrink |
| `Optimize.OptimizeAvtab` | src/optimize.c:300-325 | the whole pass keeps the table valid, adds nothing, leaves alone type rules and rules no other rule is as wide as, and, over closed rows, changes no decision for any concrete source, target, class and question; with unique keys no surviving access-vector rule repeats a bit that another rule as wide says, and if extended rules have keys of their own too, no surviving extended rule repeats what one as wide lists |
| `Optimize.IrredundantRepeatsNothing` | src/optimize.c:204-325 | what irredundancy means on the rows and masks themselves: no two rules of a class and kind, one of which reaches at least as far on both sides, share a bit, and neither do extended lists over one range |
| `Optimize.OpenRowsLose` | src/optimize.c:300-325 | wherever the rows are not closed, any table that meets what the pass ensures of the two rules given lacks a decision they made |
| `Optimize.OpenSomewhere` | src/policydb.c:4451-4480 | rows are closed iff there is no such place |
| `Optimize.NarrowTable` | src/optimize.c:300-325 | for any such place and any hash the table of the two rules can be built, and under one hash the narrower rule comes first |
| `Optimize.OptimizeOpenRows` | src/optimize.c:300-325 | running the pass on that table takes the decision away |
| `Optimize.OpenRowsLoad` | src/policydb.c:4451-4480 | rows of three types that the loader accepts and that are not closed |
| `OptimizeCond.IsCondRuleRedundant` | src/optimize.c:262-298 | a conditional rule is trimmed only by rules of the list it is given, is redundant over closed rows only if they say all of it, and otherwise repeats none of them, extended rules included |
| `OptimizeCond.ReduceCondRule` | src/optimize.c:328-376 | a rule of a branch that the unconditional table or the surviving attribute rules of the branch say already is trimmed or dropped without changing, over closed rows, what the branch and the table decide together; if it stays it repeats neither |
| `OptimizeCond.OptimizeCondAvList` | src/optimize.c:328-376 | over closed rows a branch decides the same, with the unconditional table, after the pass; surviving and deleted nodes together are the old list, each as often as before; only access-vector and extended rules are deleted, none of them is used as a cover, and no survivor repeats a rule as wide of the table or an attribute rule of the branch, extended rules included |
| `OptimizeCond.SettledRepeatsNothing` | src/optimize.c:328-376 | of an optimised branch no rule repeats a bit of a wider rule of the table or of a wider attribute rule of the branch, by rows and masks |
| `OptimizeCond.BranchKeepsDecisions` | src/optimize.c:378-443 | changing one branch so that it decides the same keeps the whole policy's decisions under every assignment |
| `OptimizeCond.CollectRedundant` | src/optimize.c:386-403 | over all conditionals, surviving and deleted nodes are those on the lists before, empty conditionals are dropped, no decision changes over closed rows, and all surviving branches are irredundant |
| `OptimizeCond.RemoveDeleted` | src/optimize.c:408-442 | the nodes unlinked from the conditional table are exactly those on the deletion list |
| `OptimizeCond.OptimizeCondAvtab` | src/optimize.c:378-443 | over closed rows the conditional pass changes no decision under any assignment; it leaves type rules alone, keeps lists and table in step, keeps flags and recorded states right, and leaves all branches irredundant |
| `OptimizeCond.PolicydbOptimize` | src/optimize.c:445-472 | it succeeds iff the policy is a kernel policy of a supported version; over closed rows all decisions under all boolean assignments are unchanged; type rules are as before, and the policy is in step with its booleans if it was; on success with unique keys nothing redundant is left in the table or in any branch, of extended rules in the table where these have keys of their own |
| `OptimizeCond.OptimalRepeatsNothing` | src/optimize.c:445-472 | so in the optimised policy neither the table nor any branch repeats anything, by rows and masks |
| `AccessVector.AddCondNode` | src/conditional.c:861-887 | an enabled conditional rule adds exactly its bits to the vectors, a disabled one nothing |
| `AccessVector.ComputeAv` | src/services.c:934-972 | the step of the computation that reads the rule tables: the allow, auditallow and auditdeny vectors of a concrete pair grant a bit iff the policy decides it under the current booleans |
| `AccessVector.UnflaggedDecides` | src/services.c:934-972 | what the nested attribute loop finds in the unconditional table is what the table decides |
| `AccessVector.FlaggedDecides` | src/conditional.c:861-887 | in a policy in step with its booleans, the enabled nodes of the conditional table are exactly the active-branch rules, so looking at flags alone gives the conditional decision |
| `AccessVector.VectorsDetermined` | src/services.c:934-972 | two vectors that grant the same bits of every kind are equal words |
| `AccessVector.VectorsAroundOptimize` | src/optimize.c:445-472 | the vectors computed before the optimiser are the decisions of the policy given, those computed after it the decisions of the policy it leaves, and over closed rows they are equal |
| `ContextDecision.EvalConstraint` | src/services.c:386-838 | the stack machine of five answers whether a constraint is satisfied, a malformed program counting as satisfied |
| `ContextDecision.SatisfiedHolds` | src/services.c:443-690 | the postfix form of a constraint is satisfied iff it fits the stack and holds of the two contexts |
| `ContextDecision.OperatorsSatisfied` | src/services.c:480-512 | on subexpressions that fit, AND is satisfied iff both are, OR iff one is, NOT iff its operand is not |
| `ContextDecision.TestsSatisfied` | src/services.c:443-690 | of tests alone up to five fit and the first decides; a sixth makes the constraint fail |
| `ContextDecision.MalformedSatisfied` | src/services.c:480-512 | an operator that lacks operands makes the constraint count as satisfied whatever follows, and an empty one fails |
| `ContextDecision.ApplyConstraints` | src/services.c:984-993 | exactly the permissions remain on which every constraint is satisfied, although each is evaluated only if it concerns what is left |
| `ContextDecision.ApplyRoles` | src/services.c:1006-1016 | a transition permission remains iff the role is kept or a rule allows the change |
| `ContextDecision.LevelAv` | src/services.c:934-1022 | what the rules, the constraints and the role rules leave is what all of them allow, and the reason names the tests that took a requested permission |
| `ContextDecision.LevelParts` | src/services.c:934-1022 | what one level of bounds allows: an allow decision of the policy, every constraint on the permission, and for a transition to another role a rule for the pair |
| `ContextDecision.TypeAttributeBoundsAv` | src/services.c:851-901 | masking leaves exactly what every level of bounds above allows |
| `ContextDecision.ContextStructComputeAv` | src/services.c:907-1027 | a permission is allowed iff the rules, constraints and role rules allow it here and at every level of bounds above; the audit vectors are the decisions, and the reasons are right |
| `ContextDecision.AllowedParts` | src/services.c:851-901 | without a bound a permission is allowed iff this level allows it; with one, iff also the contexts with source, and target if it has a bound, one level up allow it |
| `ContextDecision.BoundsIdle` | src/services.c:851-901 | where every type is bounded by its bound and the constraints do not look at types, the bounds mask nothing |
| `ContextDecision.CleanBoundsIdle` | src/hierarchy.c:413-431 | so a policy whose compile-time bounds check is clean, with parents counted by allow rules, has nothing masked at run time |
| `Hierarchy.BoundsInsertRule` | src/hierarchy.c:56-95 | inserting a permission mask adds exactly its permissions to the table, and to the global table exactly those that the opposite branch holds as well |
| `Hierarchy.BoundsExpandRule` | src/hierarchy.c:97-124 | expanding a rule adds the permissions it gives the parent on every type of its target attribute |
| `Hierarchy.BoundsExpandCondRules` | src/hierarchy.c:126-143 | expanding a branch adds the permissions of all its rules, of any kind |
| `Hierarchy.ExpandTable` | src/hierarchy.c:152-163 | the walk over the unconditional table adds exactly the permissions its allow rules give the parent |
| `Hierarchy.BoundsExpandParentRules` | src/hierarchy.c:185-245 | the global table holds exactly what the parent may do whichever branches are active, and each conditional's two tables what its branches add |
| `Hierarchy.ChosenExactly` | src/hierarchy.c:97-245 | what a type may do under a choice of branches: some linked rule, allow or of a branch chosen, with the type in the row of its source, gives the permission on a member of its target |
| `Hierarchy.BoundsNotCovered` | src/hierarchy.c:247-260 | the bits left over are exactly those of the mask that neither table holds |
| `Hierarchy.BoundsCheckRule` | src/hierarchy.c:281-320 | the report grows by exactly the child's permissions on a target that the parent lacks on the target's bound |
| `Hierarchy.CheckList` | src/hierarchy.c:322-346 | the same for all allow rules of a branch |
| `Hierarchy.BoundsCheckChildRules` | src/hierarchy.c:371-411 | the report holds exactly the uncovered permissions of the unconditional rules and of both branches of each conditional |
| `Hierarchy.Witness` | src/hierarchy.c:371-411 | each reported permission comes with a choice of branches under which the child has it and the parent lacks it on the bound |
| `Hierarchy.CleanIsWithin` | src/hierarchy.c:413-431 | an empty verdict, strict or not, puts the child within the parent for every choice of branches |
| `Hierarchy.ExcessReported` | src/hierarchy.c:371-411 | whatever the child has beyond the parent under some choice of branches is in the verdict |
| `Hierarchy.VerdictExact` | src/hierarchy.c:413-431 | the verdict is empty iff for every choice of branches the child is within the parent, both as the check counts the parent and strictly, with the parent filtered on allow rules |
| `Hierarchy.VerdictExceeds` | src/hierarchy.c:413-431 | the verdict holds exactly the permissions that, under some choice of branches, an allow rule gives the child on a target and no rule gives the parent on the target's bound |
| `Hierarchy.CheckBounds` | src/hierarchy.c:413-431 | building the tables and checking the child against them reports exactly the verdict |
| `Hierarchy.BoundsCheckType` | src/hierarchy.c:413-431 | no bad rule is counted iff for every choice of branches the child is within the parent; the reported rules are exactly the verdict; and these are, told without the verdict, the permissions by which some rule of the child exceeds the parent |
| `Hierarchy.DecidesChosen` | src/hierarchy.c:371-411 | what a type may do by allow rules under an assignment is what it may do under the choice of branches the assignment makes |
| `Hierarchy.BoundedMeans` | src/hierarchy.c:413-431 | bounded means that every permission the policy decides for the child it decides for the parent on the target's bound |
| `Hierarchy.BoundsExactly` | src/hierarchy.c:413-431 | with independent conditions, the child is allowed nothing beyond its parent under any assignment iff the verdict with the parent filtered on allow rules has no permission that can be asked about |
| `Hierarchy.BoundsTaken` | src/hierarchy.c:413-431 | for all policies, the child is bounded under every assignment iff its allow permissions are among the parent's under every choice of branches that some assignment takes |
| `Hierarchy.BoundsSound` | src/hierarchy.c:413-431 | for all policies, if that strict verdict is clean, the child is allowed nothing beyond its parent on the bound, under every assignment with defined conditions |
| `Hierarchy.StrictReportsMore` | src/hierarchy.c:126-143 | what the check reports the strict verdict reports too |
| `Hierarchy.OnlyAllowsStrict` | src/hierarchy.c:126-143 | where only allow rules reach the parent conditionally, the check is the strict one |
| `Hierarchy.AuditCoversAllow` | src/hierarchy.c:126-143 | for a valid policy with a bounded type, nothing is reported, and yet under every assignment the child is allowed what its parent is not, because the parent is only audited |
| `Hierarchy.BuildAuditedParent` | src/hierarchy.c:126-143 | builds that policy |
| `Expand.FindMergeable` | src/expand.c:3229-3251 | the search finds a rule of the same key, and for extended rules the same layout, iff one exists |
| `Expand.MergeInto` | src/expand.c:3259-3278 | merging is union for allow, auditallow and extended permissions, intersection for auditdeny, and refused for type rules |
| `Expand.MergedAnswers` | src/expand.c:3259-3278 | the merged rule answers a question iff one of the two rules does |
| `Expand.ExpandAvtabInsert` | src/expand.c:3221-3281 | inserting a rule adds exactly what it says to what the table says; it fails only when a type rule of its kind speaks for the key already, and then always when enabled flags are uniform |
| `Expand.ExpandTargets` | src/expand.c:3311-3321 | the inner loop adds what the rule says for one source and each of its targets |
| `Expand.ExpandPairs` | src/expand.c:3335-3344 | the two loops add what the rule says for every pair of concrete types |
| `Expand.ExpandAvtabNode` | src/expand.c:3289-3347 | a rule on attributes adds what it says for every pair of types it covers, and fails only when a type rule of its kind speaks for one of them already |
| `Expand.ExpandAvtab` | src/expand.c:3349-3361 | the expanded table says exactly what the rules say pair by pair, with one node for each key and layout when the enabled flag is uniform; expansion then fails iff two type rules of one kind cover a common pair |
| `Expand.ExpandedDecides` | src/expand.c:3349-3361 | when a type in a row brings along the attributes it is expanded from, every decision of the expanded table is a decision of the attribute table and conversely |
| `Expand.ExpandedSpeaks` | src/expand.c:3349-3361 | over any rows, the expanded table decides what some rule, expanded to a pair that is looked up, says |
| `Expand.OpenRowsGain` | src/expand.c:3349-3361 | over any other rows there is a rule that grants more once it is expanded, so that condition is exact |
| `Expand.PlainRowsClosed` | src/expand.c:2347-2388 | maps with rows of attributes and attributes of concrete types, as the compiler builds them, meet that condition |
| `Expand.MaskIsUnion` | src/expand.c:3221-3361 | the mask of an expanded allow or auditallow node is the union of the masks of the covering rules, and of an auditdeny node their intersection |
| `NeverXperms.MatchAnyClassPermissions` | src/assertion.c:74-82 | true iff some permission set of the rule is for the class and shares a bit |
| `NeverXperms.CheckExtendedPermissions` | src/assertion.c:84-117 | true iff the two lists clash: over the same range they share a bit, or one lists the driver of the other; driver lists of one bit list one driver, and no other pair of list kinds clashes |
| `NeverXperms.ClashExactly` | src/assertion.c:94-117 | lists with an extended permission in common clash, and lists that clash have one, unless one is a function list that lists nothing |
| `NeverXperms.ScanBranch` | src/assertion.c:498-524 | the walk over a branch tells whether a rule of the key lists something forbidden, allows the permission, or lists anything |
| `NeverXperms.CheckAssertionExtendedPermissionsAvtab` | src/assertion.c:458-561 | over all keys of a pair it tells whether the pair fails: something forbidden is listed, or the permission is allowed without an extended rule |
| `NeverXperms.ReportAssertionExtendedPermissions` | src/assertion.c:163-329 | the report counts each clashing rule of each key once, and one more when the permission itself is at fault |
| `NeverXperms.XErrorsPositive` | src/assertion.c:163-329 | the count is positive iff the pair fails, with the report's notion of what allows the permission |
| `NeverXperms.ReportSeesMore` | src/assertion.c:228-228 | a pair that fails the check fails the report, if the extended rules of the branches carry no permission bits |
| `NeverXperms.ViolatedFails` | src/assertion.c:563-578 | if under any assignment with defined conditions the pair is allowed the permission and a forbidden extended permission, or no extended rule restricts it, then an entry of a table reaches the pair and fails for it |
| `NeverXperms.FailsExactly` | src/assertion.c:563-578 | for a pair that no conditional rule reaches, an entry fails iff that is so |
| `NeverChoices.ViolableExactly` | src/assertion.c:563-578 | some choice of branches allows the pair the permission with something forbidden, or without any list, iff a rule that allows it can be in force together with a forbidden list or without any |
| `NeverChoices.ViolatedExactly` | src/assertion.c:563-578 | with lists of known kinds that name something, the pair is allowed what the rule is to prevent under an assignment iff it is under the branches the assignment takes |
| `NeverChoices.ViolableFires` | src/assertion.c:458-561 | where some choice violates the rule, an entry fails for the pair |
| `NeverChoices.FalseAlarm` | src/assertion.c:494-561 | an entry on a branch that fails for a pair although no choice violates the rule |
| `Assertion.CheckAssertionNotselfMatch` | src/assertion.c:660-713 | the cardinality test answers whether the entry gives some source of the rule access to a different type among the rule's targets |
| `Assertion.CheckAssertionSelfMatch` | src/assertion.c:715-739 | true iff some source of the rule lies in both the entry's source and target |
| `Assertion.CheckAssertionExtendedPermissions` | src/assertion.c:579-658 | true iff one of the pairs walked for the entry fails the rule |
| `Assertion.CheckAssertionAvtabMatch` | src/assertion.c:741-792 | the fast test fires iff the entry grants a concrete pair a permission that the rule forbids it, for all four flag combinations, and for a rule on extended permissions such a pair fails |
| `NeverRules.FailsMeans` | src/assertion.c:458-561 | what failing means for a pair, in terms of rows, chains and branch lists: some key of the pair has a rule listing something forbidden, or, for a conditional entry, allows the permission on a branch without a list, or, for another entry, no key has any list |
| `NeverRules.ViolatesMeans` | src/assertion.c:741-792 | what violating means for an entry: an allow rule sharing a bit with a permission set of its class that reaches a source of the rule and a target of it, or the source itself for self, another type for notself, and for extended rules a pair walked that fails |
| `Assertion.ReportAssertionAvtabMatches` | src/assertion.c:331-426 | the enumerating reporter adds for each pair walked and each matching permission set one failure, or, for a rule on extended permissions, the failures of the pair |
| `NeverRules.WalkedMeans` | src/assertion.c:331-426 | which pairs are walked, by the flags of the rule and membership alone |
| `NeverRules.PairCounted` | src/assertion.c:163-329 | the count for a pair is the number of its distinct reports: one for each clashing rule of each key on a chain or a branch list, and one for the permission itself |
| `NeverRules.FailuresCounted` | src/assertion.c:331-426 | the count for an allow entry is the number of matching permission sets times the number of its distinct failures, each a pair walked and a report for it; for any other entry it is zero |
| `NeverRules.CountsAdd` | src/assertion.c:331-426 | the counts of a list of entries are those of the single entries added up |
| `NeverRules.ChainsAdd` | src/assertion.c:428-452 | the count of a table is that of its chains added up |
| `Assertion.PairsExactly` | src/assertion.c:331-426 | the reporter's pairs are nonempty iff the entry reaches a forbidden pair and the rule is not of the overlooked family |
| `Assertion.ReportsExactly` | src/assertion.c:331-426 | for a rule on plain permissions an entry has a failure iff the fast test fires for it, apart from `self` rules that are also notself or whose self part does not reach the entry |
| `Assertion.ReportsExtended` | src/assertion.c:331-426 | for a rule on extended permissions an entry has a failure iff a pair fails the report; with no permission bits on extended rules of branches, whenever the fast test fires |
| `Assertion.ReportAssertionFailures` | src/assertion.c:428-452 | both tables are walked and the sum of all failures is returned: itself below 2^31, and always the number congruent to it modulo 2^32 between -2^31 and 2^31 |
| `Assertion.CheckAssertion` | src/assertion.c:794-813 | true iff some entry of either table violates the rule |
| `Assertion.CheckAssertions` | src/assertion.c:815-844 | -1 iff for some neverallow rule the fast test fires for an entry and the number of failures is not a multiple of 2^32 |
| `Assertion.CaughtExactly` | src/assertion.c:815-844 | below 2^32 failures a rule on plain permissions makes the check fail iff some table entry grants what it forbids outside the overlooked family, and without self, or with self alone, iff some entry grants what it forbids; a rule on extended permissions iff some entry violates it and some entry is reported, which without permission bits on extended rules of branches is the former |
| `Assertion.SelfAlone` | src/assertion.c:331-426 | a rule with self and no explicit target is never overlooked where it is violated |
| `Assertion.SelfWithTargetsMissed` | src/assertion.c:331-426 | an entry that violates a rule with self and an explicit target and yields no failure |
| `Assertion.ExtendedMissed` | src/assertion.c:228-231 | an entry that violates a rule on extended permissions, through a list on a branch, and yields no failure |
| `Assertion.ExtendedSound` | src/assertion.c:794-813 | if under any assignment with defined conditions a pair the rule is about is allowed what it is to prevent, some entry violates it |
| `Link.IsPermExistent` | src/avrule_block.c:195-211 | a permission exists iff the class or its common names it |
| `Link.Policy.IsIdEnabled` | src/avrule_block.c:155-190 | a symbol is enabled iff some declaring block is enabled for roles and users, or the last one for other symbols; told without the specification, by the list of declarations itself |
| `Link.Policy.IsDeclRequiresMet` | src/link.c:1927-2014 | met iff every required symbol outside the class table and every class with required permissions is enabled, by the lists of declarations themselves; a recorded missing symbol is a required one that is not available |
| `Link.Policy.MeetsIsEnabled` | src/link.c:1927-2014 | the requirement a self-supporting set meets is that every required symbol is declared by a declaration of the set, the last one of its list, or for roles and users any of it |
| `Link.Policy.MeetsGrows` | src/link.c:1927-2014 | requirements met by a set of declarations are met by every larger set |
| `Link.Policy.EnableMains` | src/link.c:2144-2156 | every main branch is enabled and everything else disabled, unless a block has no branch |
| `Link.Policy.Drop` | src/link.c:2175-2181 | dropping a block removes exactly its main branch, which no self-supporting set contains |
| `Link.Policy.Pass` | src/link.c:2159-2188 | a pass that changes something strictly shrinks the enabled set, one that does not has found all requirements met, and it stops only at a mandatory block outside the greatest self-supporting set |
| `Link.Policy.EnableElse` | src/link.c:2199-2206 | each block ends with its main branch if that is sustainable; a block after the first whose main branch is not ends with its second branch current and enabled if it has one; otherwise none of its branches is |
| `Link.Policy.EnableAvrules` | src/link.c:2132-2213 | whatever the block order, it fails for a missing requirement iff some mandatory block is outside the greatest self-supporting set, and otherwise every block has the branch that set determines and exactly those declarations are enabled; in particular a block after the first whose main branch is not sustainable ends with its second branch, and the first block never does |
| `Link.Policy.GreatestSupport` | src/link.c:2117-2131 | the sustainable declarations support themselves and contain every self-supporting set of main branches |
| `RoleAttr.ReplacedReaches` | src/link.c:2375-2400 | replacing a member attribute by its members changes no reachable regular role of any attribute |
| `RoleAttr.WeightDrops` | src/link.c:2375-2400 | with powers of the walk height as weights, trading an attribute whose walks end for its members weighs less, however many they are |
| `RoleAttr.NeverFlat` | src/link.c:2375-2400 | once a cycle avoiding the attribute is in reach, every turn of the loop leaves one in reach and an attribute among the members |
| `RoleAttr.LoopEndsExactly` | src/link.c:2375-2402 | the loop on an attribute ends iff no cycle of other attributes is reached from it without passing through it |
| `RoleAttr.MutualEnds` | src/link.c:2386-2388 | on two attributes that contain each other the loop ends |
| `RoleAttr.RoleTable.ExpandRoleAttributes` | src/link.c:2351-2403 | where it ends, the restart loop performs the turns of the loop and leaves exactly the regular roles reachable from the attribute, other roles unchanged |
| `RoleAttr.ReachesByChain` | src/link.c:2375-2400 | a role is reachable iff a chain of roles leads to it in which each is a member of the one before and all but the last are attributes |
| `RoleAttr.RoleTable.ExpandAll` | src/link.c:2351-2403 | in any visiting order in which no attribute reaches a cycle when its turn comes, every attribute ends with exactly the regular roles reachable from it at the start, and nothing else changes |
| `RoleAttr.EveryOrderEnds` | src/link.c:2351-2403 | the pass ends in every order that visits each role once iff no attribute reaches a cycle that avoids it |
| `RoleAttr.SelfContainingSpins` | src/link.c:2375-2400 | on an attribute with a self-containing member the loop never ends |
| `CondExpr.CondEvaluateExpr` | src/conditional.c:211-268 | the array stack machine with its depth bound and malformed-program errors computes the evaluation function |
| `CondExpr.BuildsExactly` | src/conditional.c:211-268 | running a program on trees ends in a single tree iff the program is that tree's postfix form |
| `CondExpr.EvaluatePostfix` | src/conditional.c:211-268 | a tree's postfix form evaluates to the tree's value, or to undefined iff it needs more stack than there is |
| `CondExpr.OperatorsEvaluate` | src/conditional.c:221-267 | on two subexpressions that fit the stack an OR is true iff one of them is, an AND iff both are, an XOR or a NEQ iff they differ, and an EQ iff they agree |
| `CondExpr.NotEvaluates` | src/conditional.c:221-267 | a NOT is true iff its operand is false, and undefined iff it is |
| `CondExpr.PushesEvaluate` | src/conditional.c:221-267 | of booleans alone up to ten fit and the first is the value; an eleventh makes it undefined |
| `CondExpr.ValidateCondExpr` | src/policydb_validate.c:1122-1168 | the load check accepts exactly the postfix forms of trees over known booleans that fit the stack |
| `CondExpr.DepthCharacterizes` | src/policydb_validate.c:1122-1168 | counting depth alone characterises those programs |
| `CondPrint.CondExprToStr` | src/kernel_to_conf.c:31-118 | printing succeeds iff the program is the postfix form of a tree, and prints that tree in infix form; for one or two booleans and each operator, literally the text of policy.conf |
| `CondPrint.OperatorTexts` | src/kernel_to_conf.c:53-83 | the text of any tree is made of the texts of its parts, the operator written as in policy.conf, with parentheses around every binary one |
| `CondPrint.BuildDecides` | src/kernel_to_conf.c:31-118 | a program is a postfix form iff the stack never underflows and ends with one value, and then of one tree only |
| `CondPrint.ReadInfix` | src/kernel_to_conf.c:31-118 | with distinct delimiter-free names, a recursive-descent reader recovers the tree and the rest of the text |
| `CondPrint.PrintedFormDetermines` | src/kernel_to_conf.c:31-118 | equal texts come from equal expressions |
| `Normalize.BoolPresent` | src/conditional.c:62-76 | true iff the count is within the limit and the boolean is among the counted ids |
| `Normalize.FindBools` | src/conditional.c:386-402 | the count is the number of distinct booleans when at most five, with their ids in order of first use, and exceeds the limit otherwise |
| `Normalize.IdsInOrder` | src/conditional.c:386-402 | of two ids the earlier one occurs in the expression before the first occurrence of the later one |
| `Normalize.Precompute` | src/conditional.c:412-430 | the table's bit t is set iff setting t makes the expression true; it fails iff some setting is undefined, and then leaves the booleans at the first such setting; booleans outside the expression are untouched |
| `Normalize.SettingDigits` | src/conditional.c:412-430 | setting t gives the k-th boolean the binary digit of weight 2^k of t and leaves the others as they are |
| `Normalize.StripNot` | src/conditional.c:358-384 | a final NOT is removed and both pairs of lists are exchanged, and an expression that is a lone NOT is refused |
| `Normalize.StripKeeps` | src/conditional.c:358-384 | stripping selects the same rules under every assignment and keeps the booleans and the stack needed |
| `Normalize.CondNormalizeExpr` | src/conditional.c:344-438 | on a well-formed expression it succeeds iff evaluation never runs out of stack or there are too many booleans for a table; on success all booleans are restored, the table is right, and the selected branch is kept in every assignment; on failure the booleans hold the first failing setting, or are untouched for a lone NOT; a final NOT is gone and the lists are exchanged, otherwise they are as given |
| `Normalize.TableReads` | src/conditional.c:412-430 | under every assignment the value of the expression is the bit of the table at the number that its booleans spell, the first with weight 1 |
| `Normalize.FailureClears` | src/conditional.c:412-426 | on a well-formed expression a failure leaves all its booleans false and the others as they were |
| `Normalize.SameBools` | src/conditional.c:78-93 | true iff the counts agree and every boolean of the first is among those of the second |
| `Normalize.CondExprEqual` | src/conditional.c:98-135 | of up to five booleans, equal iff counts and tables agree and the ids of the first are among those of the second; beyond that iff counts agree and the programs are the same symbol by symbol, which then have equal values under every assignment |
| `Normalize.SameOrderSound` | src/conditional.c:98-135 | with the same ids in the same order, equal tables mean equal values under every assignment |
| `Normalize.SameFunctionEqual` | src/conditional.c:98-135 | with the same ids in the same order, short nodes that have equal values under every assignment compare equal |
| `Normalize.EqualExactly` | src/conditional.c:98-135 | short nodes that compare equal agree under every assignment iff their table is invariant under renumbering the booleans from one order to the other |
| `Normalize.EqualYetDifferent` | src/conditional.c:78-135 | two nodes that compare equal and differ under an assignment |
| `Conditional.SetListEnabled` | src/conditional.c:320-335 | exactly the nodes of the list get the flag, and nothing else of any node changes |
| `Conditional.EvaluateCondNode` | src/conditional.c:309-338 | a node's recorded state becomes the value of its expression and all lists stay flagged by recorded states, with the work skipped when the state is unchanged |
| `Conditional.EvaluateConds` | src/conditional.c:440-451 | afterwards all recorded states are current and every true-list rule is enabled iff its expression is true, every false-list rule iff it is false |
| `Conditional.AllFollow` | src/conditional.c:309-338 | when flags and states are in step, a rule on a true list has its enabled bit set iff the expression is true, and one on a false list iff it is false |
| `Conditional.BoolUpdate` | src/booleans.c:14-52 | the boolean changes iff the name exists and the value is 0 or 1, and no other changes |
| `Conditional.SepolBoolSet` | src/booleans.c:82-104 | a successful set leaves flags, states and booleans in step; a failed one changes nothing |
| `Conditional.SepolBoolSetRun` | src/booleans.c:82-104 | over any run of sets the policy stays in step with its booleans, so incremental re-flagging equals evaluation from scratch |
| `CondTypes.OppositeAllows` | src/conditional.c:647-672 | the walk that tests a type rule against the opposite list accepts iff every rule with its key is the one on that list, and there is at most one |
| `CondTypes.CondInsertf` | src/conditional.c:619-694 | a rule is inserted iff it is not a type rule in conflict with the base table or with another active rule; it is appended to the list and linked once |
| `CondTypes.CondReadItem` | src/conditional.c:696-731 | an item is accepted iff the table has slots and the item is admitted, and then keeps the whole partly read policy free of conflicting type rules |
| `CondTypes.AdmittedExactly` | src/conditional.c:634-673 | what the searches on the two tables decide about a type rule is what the items read before it say: no competitor but a single one on the true branch of its own conditional |
| `CondTypes.TypeRulesApart` | src/conditional.c:619-731 | in conditionals that are read, two type rules of one key stand on opposite lists of one conditional, and none has a key of the base table |
| `CondTypes.OtherRulesFit` | src/conditional.c:619-731 | conditionals without type rules are read iff their expressions are valid and there are slots for their items |
| `CondTypes.OppositeRulesFit` | src/conditional.c:647-672 | type rules of one key on the two lists of a conditional are accepted when the base table has none |
| `CondTypes.CondReadAvList` | src/conditional.c:696-731 | a list is read iff there is room for its items and each fits the items before it; it then holds the items in order, and no conflict arises |
| `CondTypes.CondReadNode` | src/conditional.c:747-819 | a node is read iff its expression has known operators and boolean numbers in range on all symbols and both lists fit; it then has the expression and lists given; under every assignment the expression does what the stored codes 1 to 7 stand for |
| `CondTypes.StoredMeaning` | include/sepol/policydb/conditional.h:48-54 | an expression of up to two stored booleans and one stored operator evaluates, by the literal code, to the boolean, or the NOT, OR, AND, XOR, EQ or NEQ of them |
| `CondTypes.ValidDecodes` | src/conditional.c:733-745 | an expression that passes the load check has only known operators and booleans in range |
| `CondTypes.CondReadList` | src/conditional.c:821-856 | reading succeeds iff every conditional fits what was read before it; the policy then has all conditionals in order with no conflicting type rules, each expression doing what its stored codes stand for |
| `CondTypes.TypeDecisionUnique` | src/conditional.c:619-731 | after reading, under every assignment at most one active rule answers a type question for a source, target and class, over both tables |
| `CondOrder.CondOptimize` | src/conditional.c:31-49 | the relinking loop yields the specified order |
| `CondOrder.OrderedSame` | src/conditional.c:31-49 | the reordered list has the same nodes, each as often |
| `CondOrder.OrderedWell` | src/conditional.c:31-49 | type rules come first, in the reverse of the order they stood in, and the others keep their order |
| `CondOrder.TypesLead` | src/conditional.c:31-49 | in the reordered list all type rules come before all others |
| `CondOrder.CondOptimizeLists` | src/conditional.c:52-60 | reordering all branches keeps the policy valid and every decision under every assignment |
| `Avtab.Avtab.Alloc` | src/avtab.c:363-392 | the table is empty; for four rules or more its number of slots is a power of two, more than a quarter and at most half the number of rules, capped at 2^20, and no rules get no slots |
| `Avtab.BitLength` | src/avtab.c:373-376 | the shifting loop counts the bits of the number of rules |
| `Avtab.InsertKeepsChain` | src/avtab.c:92-134 | a node placed between smaller-or-equal and greater-or-equal triples keeps the chain sorted and in its slot |
| `Avtab.FreshKeepsUnique` | src/avtab.c:136-174 | a node whose key has no match keeps non-extended keys unique |
| `Avtab.ChainsInOrder` | src/avtab.c:92-174 | along a chain keys are in lexicographic order of source, target and class, and no node comes twice |
| `Avtab.HitMeans` | src/avtab.c:213-243 | a search can find exactly the linked nodes with its source, target and class whose kind bits meet its own |
| `Avtab.SlotUnique` | src/avtab.c:92-134 | a node is on one chain only |
| `Avtab.Avtab.InsertNode` | src/avtab.c:92-134 | the node is linked at the given place, the chains stay sorted and the count goes up by one |
| `Avtab.Avtab.Insert` | src/avtab.c:136-174 | it fails iff the table has no slots or a non-extended key is there already, changes nothing then, and otherwise links the new node once, keeping keys unique and the count right |
| `Avtab.Avtab.InsertNonunique` | src/avtab.c:180-211 | it links the new node whatever is there and keeps the table sorted and counted |
| `Avtab.Avtab.Search` | src/avtab.c:213-243 | the early-exit search finds a node of the key iff there is one |
| `Avtab.Avtab.SearchNode` | src/avtab.c:248-277 | the first matching position of the slot's chain, or its end |
| `Avtab.Avtab.SearchNodeNext` | src/avtab.c:279-305 | the next matching position, none being skipped, despite the early exit |
| `Avtab.Avtab.Enumerate` | src/avtab.c:248-305 | search followed by repeated next visits exactly the nodes with the triple whose specifier overlaps, each once |
| `Avtab.FilterContents` | src/avtab.c:248-305 | what the filtered chain holds are the matching nodes, without repetition |
| `Hashtab.KeyUnique` | src/hashtab.c:106-146 | sorted chains in their slots bind a key at most once |
| `Hashtab.DoublingTwos` | src/hashtab.c:72-73 | doubling a 32-bit size adds a factor of two until it wraps to zero, so the loop takes at most 32 rounds |
| `Hashtab.DoubledFirst` | src/hashtab.c:72-73 | for fewer than 2^31 entries the size is kept if it exceeds them, and otherwise doubled until it first does |
| `Hashtab.Hashtab.NewSize` | src/hashtab.c:72-73 | the doubling loop ends with a size above the number of entries, or at the 32-bit bound |
| `Hashtab.Hashtab.Relink` | src/hashtab.c:89-97 | moving one node into the new table keeps order and placement under the new hash and adds just that entry |
| `Hashtab.Hashtab.MoveAll` | src/hashtab.c:78-103 | relinking every node keeps all bindings, order and placement |
| `Hashtab.Hashtab.CheckResize` | src/hashtab.c:67-104 | resizing keeps all bindings and ends with enough slots or at the 32-bit bound |
| `Hashtab.Hashtab.InsertSized` | src/hashtab.c:116-145 | after the resize, the sorted insertion binds the key unless it is bound |
| `Hashtab.Hashtab.Insert` | src/hashtab.c:106-146 | full, already bound, or exactly one binding added, across a resize |
| `Hashtab.Hashtab.Search` | src/hashtab.c:186-208 | the datum bound to the key, or none iff it is unbound |
| `Hashtab.Hashtab.Remove` | src/hashtab.c:148-184 | exactly the key's binding goes, or nothing changes when there is none |
| `Hashtab.Hashtab.Map` | src/hashtab.c:232-253 | the callback visits each binding exactly once, or stops at the first one it rejects with that value |
| `Words.BitsDetermine` | include/sepol/policydb/ebitmap.h:72-77 | 64-bit words with the same bits are equal |
| `Ebitmap.CanonicalNodes` | src/ebitmap.c:250-269 | canonical node lists with the same words are equal |
| `Ebitmap.SameElements` | src/ebitmap.c:250-269 | two bitmaps have the same elements iff their node lists are equal |
| `Ebitmap.ElementsHeld` | include/sepol/policydb/ebitmap.h:70-75 | a number is an element iff some node within 64 below it has the bit of the difference set |
| `Ebitmap.Bitmap.Or` | src/ebitmap.c:18-57 | canonical, and the union |
| `Ebitmap.Bitmap.Union` | src/ebitmap.c:59-70 | the receiver becomes the union, even with itself |
| `Ebitmap.Bitmap.And` | src/ebitmap.c:72-111 | canonical, and the intersection |
| `Ebitmap.Bitmap.Xor` | src/ebitmap.c:113-160 | canonical, and the symmetric difference |
| `Ebitmap.Bitmap.Not` | src/ebitmap.c:162-207 | canonical, and the complement below maxbit |
| `Ebitmap.CounterPasses` | src/ebitmap.c:173-173 | the 32-bit counter gets past maxbit after some rounds iff maxbit is at most 2^32 - 64 |
| `Ebitmap.Bitmap.AndNot` | src/ebitmap.c:209-222 | the elements of the first below maxbit that the second lacks, so elements from maxbit on are dropped |
| `Ebitmap.Bitmap.Cardinality` | src/ebitmap.c:224-233 | the number of elements |
| `Ebitmap.Bitmap.HammingDistance` | src/ebitmap.c:235-248 | the size of the symmetric difference below 2^31, and always the number congruent to it modulo 2^32 between -2^31 and 2^31 |
| `Ebitmap.Bitmap.Cmp` | src/ebitmap.c:250-269 | equal iff the sets are equal |
| `Ebitmap.Bitmap.Cpy` | src/ebitmap.c:271-297 | the same set, node by node |
| `Ebitmap.Bitmap.Contains` | src/ebitmap.c:299-324 | decides inclusion |
| `Ebitmap.Bitmap.MatchAny` | src/ebitmap.c:326-346 | decides overlap |
| `Ebitmap.Bitmap.GetBit` | src/ebitmap.c:348-367 | decides membership |
| `Ebitmap.Bitmap.SetBit` | src/ebitmap.c:369-441 | adds or removes one element and keeps the form canonical, dropping a node that becomes empty; refuses bits in the last word |
| `Ebitmap.Bitmap.InitRange` | src/ebitmap.c:443-489 | the interval from minbit to maxbit, or the two refusals |
| `Ebitmap.Bitmap.PositiveBits` | include/sepol/policydb/ebitmap.h:60-81 | the iteration yields exactly the elements, ascending |
| `MlsRuns.WalkNext` | include/sepol/policydb/ebitmap.h:60-81 | the iteration visits every position of every node in order and no position in a gap |
| `MlsRuns.ItemsExactly` | src/mls.c:192-237 | over any increasing visit, the emitted items denote the visited set iff no long run is carried over a jump |
| `MlsRuns.GapsExactly` | include/sepol/policydb/ebitmap.h:60-81 | no long run is carried over a jump iff every gap between nodes is harmless, a test on three bits |
| `MlsRuns.EntriesExactly` | src/mls.c:192-237 | the printed items denote the category set iff every gap is harmless |
| `MlsRuns.EntriesAreRuns` | src/mls.c:192-237 | where every gap is harmless the printed items are the maximal runs of the set in ascending order, a run of one as one name, of two as two names, of more as a range |
| `MlsRuns.SingleRunEntries` | src/mls.c:192-237 | a set that is one run prints as one name, two names or one range |
| `MlsRuns.GapMisprinted` | src/mls.c:192-237 | a canonical category set printed as a different one |
| `Mls.LevelLen` | src/mls.c:113-140 | the computed length of a level is that of its text |
| `Mls.EntryTexts` | src/mls.c:192-237 | the text of any list of items: a colon first, commas between, ranges with a dot |
| `Mls.RunText` | src/mls.c:184-237 | the literal text of a level whose categories are one run |
| `Mls.LabelParts` | src/mls.c:167-252 | the range is the low level after a colon, with a dash and the high level if it differs; a level without categories is its name |
| `Mls.MlsLevelEq` | src/mls.c:150-157 | the test that omits the high level is equality of the two levels |
| `Mls.MlsComputeContextLen` | src/mls.c:109-160 | the computed length is the number of characters written, none without MLS |
| `Mls.PutLevel` | src/mls.c:184-237 | the level's text is appended at the write pointer, NUL-terminated, and nothing before it changes |
| `Mls.MlsSidToContext` | src/mls.c:167-252 | exactly the range's text is written, NUL-terminated, within the computed length; without MLS nothing is |
| `Mls.MlsToString` | src/mls.c:42-76 | the text without its leading colon |
| `MlsParse.LevelParses` | src/mls.c:329-448 | parsing a printed level, with anything that may follow it, yields the sensitivity and the set its items denote |
| `MlsParse.RangeParses` | src/mls.c:329-448 | parsing a printed range, with or without the high level, is consumed to its end and yields both sensitivities and the sets the items denote |
| `MlsParse.RoundTrip` | src/mls.c:167-448 | parsing the text printed for a range yields that range iff every gap in both category sets is harmless |
| `MlsParse.LevelsRead` | src/mls.c:329-448 | literal texts of one level name, or two joined by a dash, are read iff the names are known, as those levels |
| `MlsParse.CategoriesRead` | src/mls.c:365-422 | literal texts of a level with one category, two with a comma, or a range with a dot are read iff all names are known, and for the dot in order, as exactly those categories |
| `MlsParse.Cut` | src/mls.c:347-353 | cutting the buffer at a separator leaves the token NUL-terminated before it and the rest intact after it |
| `MlsParse.ReadItem` | src/mls.c:375-417 | an item, single or range, is accepted iff its names are known and in order, and adds exactly its categories |
| `MlsParse.ReadCats` | src/mls.c:365-422 | the category loop over the buffer parses the list as specified |
| `MlsParse.ReadLevel` | src/mls.c:346-422 | one level is parsed from the buffer as specified |
| `MlsParse.MlsContextToSid` | src/mls.c:329-448 | the in-place parser accepts exactly the texts of the grammar, sets both levels accordingly, the low one copied to the high one when there is no second, and returns the position one past what it passed over, which after a dash behind the high level runs to the next colon or the end; without MLS nothing is read or changed |
| `MlsSemantic.MlsLevelToSemantic` | src/policydb.c:1992-2024 | the scan yields the specified list of category ranges |
| `MlsSemantic.FillRange` | src/expand.c:952-964 | a range is filled in iff all its categories are allowed for the level |
| `MlsSemantic.MlsSemanticLevelExpand` | src/expand.c:916-968 | it succeeds iff the sensitivity exists, every range is ordered and all its categories are allowed, and then yields exactly the categories of the ranges; without MLS, or for a level not declared, it succeeds with none |
| `MlsSemantic.EdgesExactly` | src/policydb.c:1992-2024 | no range runs over a gap iff no node before a gap has its last bit set |
| `MlsSemantic.SemanticExactly` | src/policydb.c:1992-2024 | the ranges denote the set iff no node before a gap has its last bit set, and otherwise denote more |
| `MlsSemantic.SemanticAreRuns` | src/policydb.c:1992-2024 | where that test holds the ranges are the maximal runs of the set, last run first, numbered from one |
| `MlsSemantic.LevelRoundTrip` | src/policydb.c:1992-2024 | for a valid level, converting to ranges and expanding again is the identity iff no node before a gap has its last bit set |
| `MlsSemantic.EdgeMisconverted` | src/policydb.c:1992-2024 | a canonical category set that converts to a different one |

## Left out

- Memory and I/O: allocation failure, destroy functions, binary reading and writing, module packages and log output are not modelled; a pointer to a rule node is its index in the table's pool, and linked lists and growable vectors are sequences of such indices.
- `Optimize.OptimizeAvtab`: irredundancy of extended rules after the pass is stated for tables in which no two rules answer one search. Of several extended rules with one key a search compares the first only (`Optimize.IsAvruleRedundant`), and which is first changes as rules are unlinked, so an extended rule survives if all that says it is not first when it is looked up.
- Bitmaps are finite sets outside the bitmap and label modules; `Ebitmap` proves that the operations are the set operations and `PositiveBits` that the iteration yields the elements in ascending order. `expand_role_attributes` edits a bitmap while it iterates over it: it restarts after a replacement, but goes on after dropping a self-reference, from a node that the edit may have freed. The model goes on over the set.
- Type and class numbers are unbounded naturals rather than 16-bit integers.
- `Optimize.IsAvruleRedundant`: in the source the trimmed datum is written in place while the covers are walked; the model writes it back after the walk, which is the same because covers with the rule's own triple are skipped.
- `Hierarchy.BoundsExactly`: where conditions depend on each other the check and the strict verdict also count combinations of branches that no assignment takes; there `Hierarchy.BoundsTaken` gives the exact statement and `Hierarchy.BoundsSound` the verdict's soundness.
- Role and user bounds (src/hierarchy.c:515-596) and the report text are not modelled.
- `ContextDecision.ContextStructComputeAv`: unconditional rules carry no enabled flag; the tests of a constraint are functions of the two contexts; chains of type bounds end, without which the source recurses for ever; the text that explains a constraint is not modelled.
- `Assertion.ExtendedSound`: of a rule with `self` it covers the pairs of a type with itself, the only ones the check walks for it.
- `Assertion.CheckAssertions`: the accumulated error count is unbounded until it is converted to an int on return.
- `Mls.MlsToString`: it is for policies with MLS; without, the source copies from behind its one-byte buffer.
- `Link.Policy.IsDeclRequiresMet`: the permission value of a class requirement is taken to name a permission, which the source asserts; a missing class or permission records nothing in the missing requirement, as in the source.
- `RoleAttr.RoleTable.ExpandAll`: orders in which the loop runs for ever are excluded; `RoleAttr.LoopEndsExactly` says which they are.
- `Ebitmap.Bitmap.Not`: maxbit is at most 2^32 - 64, above which the 32-bit loop counter wraps for ever (`Ebitmap.CounterPasses`).
- `Ebitmap.Bitmap.AndNot`: maxbit is at most 2^32 - 64, as for `Ebitmap.Bitmap.Not`, which it calls.
- `Ebitmap.Bitmap.Cardinality`: the compiler's population count is taken to be the number of set bits.
- `Avtab.Avtab.Alloc`: the hash is an arbitrary function of the key and the number of slots, here and in `Hashtab`; keys of `Hashtab` are compared by a total order.
- `Mls.MlsSidToContext`: names hold no separators and the name tables are inverse, which the printer and parser do not check.
- `Normalize.CondExprEqual`: all operator codes outside 1 to 7 are one symbol, so two different ones compare equal; the loader refuses them, and the source tells them apart.
- `CondTypes.CondReadList`: the items and expressions are given as data instead of being read from a file.
- The sid table, symbol scopes, object contexts, copying of classes and commons, user and role remapping, and the remaining printers are left out: they would add easy members only.
