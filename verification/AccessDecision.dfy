/**
 What a rule says. Every rule node is read as the set of queries it answers: permission bits
 it allows or audits, bits it stops from being audited, extended permissions it lists, the
 fact that an extended-permission rule exists, or the type a type rule names.
 */
module AccessDecision {
  import opened Prelude
  import opened Avtab
  import opened Masks

  datatype Kind =
    | Allow | AuditAllow | AuditDeny
    | Transition | Member | Change
    | XAllow | XAuditAllow | XDontaudit

  function KindBit(k: Kind): bv16 {
    match k
    case Allow => ALLOWED
    case AuditAllow => AUDITALLOW
    case AuditDeny => AUDITDENY
    case Transition => TRANSITION
    case Member => MEMBER
    case Change => CHANGE
    case XAllow => XPERMS_ALLOWED
    case XAuditAllow => XPERMS_AUDITALLOW
    case XDontaudit => XPERMS_DONTAUDIT
  }

  predicate IsAv(k: Kind) {
    k.Allow? || k.AuditAllow? || k.AuditDeny?
  }

  predicate IsType(k: Kind) {
    k.Transition? || k.Member? || k.Change?
  }

  predicate IsX(k: Kind) {
    k.XAllow? || k.XAuditAllow? || k.XDontaudit?
  }

  /** The key names rule kind `k`, with or without the enabled flag. */
  predicate OfKind(specified: bv16, k: Kind) {
    specified & !ENABLED == KindBit(k)
  }

  /** The specifier without the enabled flag. */
  function Specifier(specified: bv16): bv16 {
    specified & 0x7FFF
  }

  lemma SpecifierIs(x: bv16)
    ensures Specifier(x) == x & !ENABLED
  {
  }

  /** The bit of each kind of rule. */
  lemma SpecifierKinds(x: bv16)
    ensures Specifier(x) == 1 <==> OfKind(x, Allow)
    ensures Specifier(x) == 2 <==> OfKind(x, AuditAllow)
    ensures Specifier(x) == 4 <==> OfKind(x, AuditDeny)
    ensures Specifier(x) == 0x10 <==> OfKind(x, Transition)
    ensures Specifier(x) == 0x20 <==> OfKind(x, Member)
    ensures Specifier(x) == 0x40 <==> OfKind(x, Change)
    ensures Specifier(x) == 0x100 <==> OfKind(x, XAllow)
    ensures Specifier(x) == 0x200 <==> OfKind(x, XAuditAllow)
    ensures Specifier(x) == 0x400 <==> OfKind(x, XDontaudit)
  {
    hide Specifier;
    SpecifierIs(x);
  }

  /** Exactly one specifier bit, as avtab_read_item checks. */
  ghost predicate OneKind(specified: bv16) {
    exists k :: OfKind(specified, k)
  }

  lemma KindUnique(specified: bv16, k: Kind, l: Kind)
    requires OfKind(specified, k) && OfKind(specified, l)
    ensures k == l
  {
  }

  lemma KindFacts(specified: bv16, k: Kind)
    requires OfKind(specified, k)
    ensures Has(specified, AV) <==> IsAv(k)
    ensures Has(specified, TYPE_RULES) <==> IsType(k)
    ensures Has(specified, XPERMS) <==> IsX(k)
    ensures IsXperms(specified) <==> IsX(k)
    ensures Has(specified, AUDITDENY) <==> k.AuditDeny?
    ensures Has(specified, ALLOWED) <==> k.Allow?
    ensures Has(specified, AV | XPERMS) <==> IsAv(k) || IsX(k)
  {
  }

  /** Specifiers with one bit each overlap exactly when they are the same bit. */
  lemma OverlapSameKind(a: bv16, b: bv16, k: Kind, l: Kind)
    requires OfKind(a, k) && OfKind(b, l)
    ensures Overlaps(a, b) <==> k == l
  {
  }

  /** Word `i / 32`, bit `i % 32`, as the xperm_test macro selects them. */
  predicate PermBit(perms: seq<bv32>, i: nat)
    requires |perms| == 8 && i < 256
  {
    Meets(perms[i / 32], Single(i % 32))
  }

  /** Permission `i` is bit i % 32 of word i / 32. */
  lemma PermBitTests(perms: seq<bv32>, i: nat)
    requires |perms| == 8 && i < 256
    ensures PermBit(perms, i) <==> Tests(perms[i / 32], i % 32)
  {
    hide *;
    PermBitIs(perms, i);
    BitSetIs(perms[i / 32], i % 32);
    BitTests(perms[i / 32], i % 32);
  }

  /** Eight words with one bit: bit `b` of word `w`. */
  ghost predicate OneWord(perms: seq<bv32>, w: nat, b: nat) {
    && |perms| == 8 && w < 8 && b < 32 && perms[w] == (1 as bv32) << b
    && forall k :: 0 <= k < 8 && k != w ==> perms[k] == 0
  }

  /** A list with one bit lists the permission 32 * w + b and no other. */
  lemma {:induction false} OneWordLists(perms: seq<bv32>, w: nat, b: nat, i: nat)
    requires OneWord(perms, w, b) && i < 256
    ensures PermBit(perms, i) <==> i == 32 * w + b
  {
    OneWordAt(perms, w, b, i / 32);
    hide *;
    PermBitIs(perms, i);
    if i / 32 == w {
      SingleMeets(b, i % 32);
    } else {
      ZeroMeets(0, Single(i % 32));
    }
  }

  lemma OneWordAt(perms: seq<bv32>, w: nat, b: nat, k: nat)
    requires OneWord(perms, w, b) && k < 8
    ensures perms[k] == if k == w then Single(b) else 0
  {
    hide Single;
    SingleShift(b);
  }

  lemma PermBitIs(perms: seq<bv32>, i: nat)
    requires |perms| == 8 && i < 256
    ensures PermBit(perms, i) <==> Meets(perms[i / 32], Single(i % 32))
  {
    hide Meets, Single;
  }

  datatype Query =
    | Bits(kind: Kind, mask: bv32)
    | Ioctl(kind: Kind, driver: nat, function_: nat)
    | Nlmsg(kind: Kind, driver: nat, function_: nat)
    | SomeXperm(kind: Kind)
    | Names(kind: Kind, value: bv32)

  /** A 0 in an auditdeny mask is what the rule asks for, so the mask is read inverted. */
  function Effect(k: Kind, data: bv32): bv32 {
    if k.AuditDeny? then Invert(data) else data
  }

  ghost predicate XAnswers(x: Xperms, q: Query)
    requires q.Ioctl? || q.Nlmsg?
  {
    && q.driver < 256 && q.function_ < 256
    && if q.Ioctl? then
         || (x.specified == IOCTLFUNCTION && x.driver == q.driver && PermBit(x.perms, q.function_))
         || (x.specified == IOCTLDRIVER && PermBit(x.perms, q.driver))
       else
         x.specified == NLMSG && x.driver == q.driver && PermBit(x.perms, q.function_)
  }

  ghost predicate Answers(n: Node, q: Query) {
    && OfKind(n.key.specified, q.kind)
    && match q
       case Bits(k, mask) => IsAv(k) && Meets(Effect(k, n.datum.data), mask)
       case Names(k, value) => IsType(k) && n.datum.data == value
       case SomeXperm(k) => IsX(k)
       case _ => IsX(q.kind) && n.datum.xperms.Some? && XAnswers(n.datum.xperms.value, q)
  }

  // ---------------------------------------------------------------- what rules say, word by word

  lemma MeetsIs(data: bv32, mask: bv32)
    ensures Meets(data, mask) <==> data & mask != 0
    ensures Meets(Invert(data), mask) <==> !data & mask != 0
  {
  }

  /**
     What a rule says, by its specifier: an allow and an auditallow rule the bits of their data,
     an auditdeny rule the bits missing there, a type rule the type it holds, an extended rule
     that there is one.
   */
  lemma RuleSays(n: Node, mask: bv32)
    ensures Answers(n, Bits(Allow, mask)) <==> Specifier(n.key.specified) == 1 && n.datum.data & mask != 0
    ensures Answers(n, Bits(AuditAllow, mask)) <==> Specifier(n.key.specified) == 2 && n.datum.data & mask != 0
    ensures Answers(n, Bits(AuditDeny, mask)) <==> Specifier(n.key.specified) == 4 && !n.datum.data & mask != 0
    ensures Answers(n, Names(Transition, mask)) <==> Specifier(n.key.specified) == 0x10 && n.datum.data == mask
    ensures Answers(n, Names(Member, mask)) <==> Specifier(n.key.specified) == 0x20 && n.datum.data == mask
    ensures Answers(n, Names(Change, mask)) <==> Specifier(n.key.specified) == 0x40 && n.datum.data == mask
    ensures Answers(n, SomeXperm(XAllow)) <==> Specifier(n.key.specified) == 0x100
    ensures Answers(n, SomeXperm(XAuditAllow)) <==> Specifier(n.key.specified) == 0x200
    ensures Answers(n, SomeXperm(XDontaudit)) <==> Specifier(n.key.specified) == 0x400
  {
    SpecifierKinds(n.key.specified);
    MeetsIs(n.datum.data, mask);
    hide OfKind, Specifier, Meets, Invert;
  }

  lemma AllowSays(n: Node, mask: bv32)
    ensures Answers(n, Bits(Allow, mask)) <==> Specifier(n.key.specified) == 1 && Meets(n.datum.data, mask)
  {
    SpecifierKinds(n.key.specified);
    hide OfKind, Specifier, Meets, Invert;
  }

  /** What an extended list says: of an ioctl function or a whole driver, or of a netlink message. */
  predicate ListSays(x: Xperms, ioctl: bool, driver: nat, function_: nat)
    requires driver < 256 && function_ < 256
  {
    if ioctl then
      || (x.specified == 1 && x.driver == driver && Tests(x.perms[function_ / 32], function_ % 32))
      || (x.specified == 2 && Tests(x.perms[driver / 32], driver % 32))
    else
      x.specified == 3 && x.driver == driver && Tests(x.perms[function_ / 32], function_ % 32)
  }

  lemma ListSaysExactly(x: Xperms, k: Kind, driver: nat, function_: nat)
    requires driver < 256 && function_ < 256
    ensures XAnswers(x, Ioctl(k, driver, function_)) <==> ListSays(x, true, driver, function_)
    ensures XAnswers(x, Nlmsg(k, driver, function_)) <==> ListSays(x, false, driver, function_)
  {
    hide PermBit, Tests;
    PermBitTests(x.perms, function_);
    PermBitTests(x.perms, driver);
  }

  /** The extended permissions a rule says, by its specifier. */
  lemma XpermsSaid(n: Node, k: Kind, driver: nat, function_: nat)
    requires driver < 256 && function_ < 256 && n.datum.xperms.Some?
    requires k in [XAllow, XAuditAllow, XDontaudit]
    ensures var own := Specifier(n.key.specified) == (if k == XAllow then 0x100 else if k == XAuditAllow then 0x200 else 0x400);
      && (Answers(n, Ioctl(k, driver, function_)) <==> own && ListSays(n.datum.xperms.value, true, driver, function_))
      && (Answers(n, Nlmsg(k, driver, function_)) <==> own && ListSays(n.datum.xperms.value, false, driver, function_))
  {
    SpecifierKinds(n.key.specified);
    ListSaysExactly(n.datum.xperms.value, k, driver, function_);
    hide OfKind, Specifier, XAnswers, ListSays;
  }

  /** Drivers and functions are bytes; nothing is said beyond, and without a list nothing of either. */
  lemma NothingBeyond(n: Node, k: Kind, driver: nat, function_: nat)
    ensures driver >= 256 || function_ >= 256 || n.datum.xperms.None? ==>
      !Answers(n, Ioctl(k, driver, function_)) && !Answers(n, Nlmsg(k, driver, function_))
  {
    hide OfKind, PermBit;
  }
}
