/**
 MLS labels as text (src/mls.c): printing a range of levels into a buffer and computing the
 length of the text beforehand.
 */
module Mls {
  import opened Prelude
  import opened Words
  import opened Ebitmap
  import opened MlsRuns

  /** Names by value; value `v` has entry `v - 1`. */
  datatype Names = Names(sens: seq<string>, cats: seq<string>)

  /** Values by name, as the symbol tables give them; a table may hold aliases too. */
  datatype Tables = Tables(levels: map<string, nat>, cats: map<string, nat>)

  const NUL: char := '\0'

  predicate Clean(name: string) {
    forall i :: 0 <= i < |name| ==> name[i] !in {':', '-', ',', '.', NUL}
  }

  /** Names hold no separators and the tables invert them; categories fit the bitmap. */
  ghost predicate NamesOk(nm: Names, tb: Tables) {
    && (forall i :: 0 <= i < |nm.sens| ==> Clean(nm.sens[i]) && nm.sens[i] in tb.levels && tb.levels[nm.sens[i]] == i + 1)
    && (forall i :: 0 <= i < |nm.cats| ==> Clean(nm.cats[i]) && nm.cats[i] in tb.cats && tb.cats[nm.cats[i]] == i + 1)
    && TablesOk(tb)
  }

  ghost predicate TablesOk(tb: Tables) {
    forall name :: name in tb.cats ==> 0 < tb.cats[name] <= LIMIT - MAPSIZE
  }

  // ---------------------------------------------------------------- the text of a label

  function CatName(nm: Names, k: nat): string {
    if k < |nm.cats| then nm.cats[k] else ""
  }

  function ItemText(nm: Names, item: Item): string {
    match item
    case One(a) => CatName(nm, a)
    case Range(a, b) => CatName(nm, a) + "." + CatName(nm, b)
  }

  /** Entries separated by commas. */
  function Body(nm: Names, items: seq<Item>): string {
    if items == [] then ""
    else if |items| == 1 then ItemText(nm, items[0])
    else Body(nm, items[..|items| - 1]) + "," + ItemText(nm, items[|items| - 1])
  }

  function CatsText(nm: Names, items: seq<Item>): string {
    if items == [] then "" else ":" + Body(nm, items)
  }

  datatype Level = Level(sens: nat, nodes: seq<BitNode>)

  predicate LevelOk(nm: Names, l: Level) {
    0 < l.sens <= |nm.sens| && Ordered(l.nodes) && forall x :: x in Elements(l.nodes) ==> x < |nm.cats|
  }

  function LevelText(nm: Names, l: Level): string
    requires 0 < l.sens <= |nm.sens|
  {
    nm.sens[l.sens - 1] + CatsText(nm, Entries(l.nodes))
  }

  /** A leading colon, the low level, and the high one if it differs. */
  function RangeText(nm: Names, low: Level, high: Level): string
    requires 0 < low.sens <= |nm.sens| && 0 < high.sens <= |nm.sens|
  {
    ":" + LevelText(nm, low) + if low == high then "" else "-" + LevelText(nm, high)
  }

  /** A list of entries as printed: a colon, then names, ranges with a dot, and commas in between. */
  lemma EntryTexts(nm: Names, items: seq<Item>, a: nat, b: nat)
    requires a < |nm.cats| && b < |nm.cats|
    ensures CatsText(nm, []) == ""
    ensures CatsText(nm, [One(a)]) == ":" + nm.cats[a]
    ensures CatsText(nm, [Range(a, b)]) == ":" + nm.cats[a] + "." + nm.cats[b]
    ensures items != [] ==> CatsText(nm, items + [One(a)]) == CatsText(nm, items) + "," + nm.cats[a]
    ensures items != [] ==> CatsText(nm, items + [Range(a, b)]) == CatsText(nm, items) + "," + nm.cats[a] + "." + nm.cats[b]
  {
    hide *;
    ItemTexts(nm, a, b);
    FirstItem(nm, One(a));
    FirstItem(nm, Range(a, b));
    Regrouped(":", nm.cats[a], nm.cats[b]);
    if items != [] {
      ItemAdded(nm, items, One(a));
      ItemAdded(nm, items, Range(a, b));
      Regrouped(CatsText(nm, items) + ",", nm.cats[a], nm.cats[b]);
    }
  }

  lemma ItemTexts(nm: Names, a: nat, b: nat)
    requires a < |nm.cats| && b < |nm.cats|
    ensures ItemText(nm, One(a)) == nm.cats[a] && ItemText(nm, Range(a, b)) == nm.cats[a] + "." + nm.cats[b]
  {
  }

  lemma FirstItem(nm: Names, x: Item)
    ensures CatsText(nm, []) == "" && CatsText(nm, [x]) == ":" + ItemText(nm, x)
  {
    hide ItemText;
  }

  lemma Regrouped(front: string, x: string, y: string)
    ensures front + (x + "." + y) == front + x + "." + y
  {
  }

  lemma ItemAdded(nm: Names, items: seq<Item>, x: Item)
    requires items != []
    ensures CatsText(nm, items + [x]) == CatsText(nm, items) + "," + ItemText(nm, x)
  {
    hide ItemText;
    assert (items + [x])[..|items|] == items;
    assert ":" + (Body(nm, items) + "," + ItemText(nm, x)) == (":" + Body(nm, items)) + "," + ItemText(nm, x);
  }

  /** What is printed for a set that is one run: one name, two with a comma, or the ends with a dot. */
  lemma {:induction false} RunText(nm: Names, l: Level, a: nat, b: nat)
    requires LevelOk(nm, l) && a <= b && forall x :: x in Elements(l.nodes) <==> a <= x <= b
    ensures b < |nm.cats|
    ensures LevelText(nm, l) == nm.sens[l.sens - 1] + ":" +
      (if a == b then nm.cats[a] else nm.cats[a] + (if b == a + 1 then "," else ".") + nm.cats[b])
  {
    assert b in Elements(l.nodes);
    hide *;
    SingleRunGaps(l.nodes, a, b);
    EntriesAreRuns(l.nodes);
    SingleRunEntries(Elements(l.nodes), Entries(l.nodes), a, b);
    OneRunText(nm, a, b);
    LevelTextIs(nm, l);
    Joined(nm.sens[l.sens - 1], if a == b then nm.cats[a] else nm.cats[a] + (if b == a + 1 then "," else ".") + nm.cats[b]);
  }

  lemma LevelTextIs(nm: Names, l: Level)
    requires 0 < l.sens <= |nm.sens|
    ensures LevelText(nm, l) == nm.sens[l.sens - 1] + CatsText(nm, Entries(l.nodes))
  {
  }

  lemma Joined(x: string, y: string)
    ensures x + (":" + y) == x + ":" + y
  {
  }

  lemma OneRunText(nm: Names, a: nat, b: nat)
    requires a <= b < |nm.cats|
    ensures CatsText(nm, if a == b then [One(a)] else if b == a + 1 then [One(a), One(b)] else [Range(a, b)]) ==
      ":" + (if a == b then nm.cats[a] else nm.cats[a] + (if b == a + 1 then "," else ".") + nm.cats[b])
  {
    hide CatsText;
    EntryTexts(nm, [], a, b);
    EntryTexts(nm, [One(a)], b, b);
    assert [One(a)] + [One(b)] == [One(a), One(b)];
    var x, y := nm.cats[a], nm.cats[b];
    assert ":" + x + "." + y == ":" + (x + "." + y);
    assert ":" + x + "," + y == ":" + (x + "," + y);
  }

  /** A level without categories is its sensitivity; a range is one level or two with a dash. */
  lemma LabelParts(nm: Names, low: Level, high: Level)
    requires 0 < low.sens <= |nm.sens| && 0 < high.sens <= |nm.sens|
    ensures low.nodes == [] ==> LevelText(nm, low) == nm.sens[low.sens - 1]
    ensures low == high ==> RangeText(nm, low, high) == ":" + LevelText(nm, low)
    ensures low != high ==> RangeText(nm, low, high) == ":" + LevelText(nm, low) + "-" + LevelText(nm, high)
  {
    hide LevelText;
    if low.nodes == [] { BareText(nm, low); }
    var a, b := LevelText(nm, low), LevelText(nm, high);
    assert ":" + a + "" == ":" + a;
    assert ":" + a + ("-" + b) == ":" + a + "-" + b;
  }

  lemma BareText(nm: Names, l: Level)
    requires 0 < l.sens <= |nm.sens| && l.nodes == []
    ensures LevelText(nm, l) == nm.sens[l.sens - 1]
  {
    NoCats(nm, l);
    assert nm.sens[l.sens - 1] + "" == nm.sens[l.sens - 1];
  }

  // ---------------------------------------------------------------- how the text grows

  lemma AddText(nm: Names, items: seq<Item>, a: nat)
    ensures CatsText(nm, items + [One(a)]) == CatsText(nm, items) + (if items == [] then ":" else ",") + CatName(nm, a)
  {
    assert (items + [One(a)])[..|items|] == items;
  }

  lemma WidenText(nm: Names, items: seq<Item>, b: nat)
    requires items != [] && items[|items| - 1].One?
    ensures CatsText(nm, items[..|items| - 1] + [Range(items[|items| - 1].a, b)]) == CatsText(nm, items) + "." + CatName(nm, b)
  {
    var n := |items| - 1;
    var wide := items[..n] + [Range(items[n].a, b)];
    assert wide[..n] == items[..n];
    if n > 0 {
      assert Body(nm, wide) == Body(nm, items[..n]) + "," + (CatName(nm, items[n].a) + "." + CatName(nm, b));
    }
  }

  /** Ending a run adds nothing, a comma and its end, or a dot and its end. */
  function CloseText(nm: Names, range: nat, last: nat): string {
    if range > 2 then "." + CatName(nm, last) else if range == 2 then "," + CatName(nm, last) else ""
  }

  lemma ClosedText(nm: Names, sc: Scan, last: nat)
    requires sc.range > 0 ==> sc.items != [] && sc.items[|sc.items| - 1].One?
    ensures CatsText(nm, Close(sc, last).items) == CatsText(nm, sc.items) + CloseText(nm, sc.range, last)
  {
    if sc.range > 2 {
      WidenText(nm, sc.items, last);
    } else if sc.range == 2 {
      AddText(nm, sc.items, last);
    }
    hide CatsText;
  }

  lemma OpenOne(pos: seq<nat>, on: seq<bool>, k: nat)
    requires |pos| == |on| && k <= |pos|
    ensures var sc := ScanUpTo(pos, on, k);
      (sc.range > 0 ==> sc.items != [] && sc.items[|sc.items| - 1].One?) && (sc.range > 1 ==> k > 1 && on[k - 1])
  {
    RunHolds(pos, on, k);
    hide ScanUpTo;
  }

  /** What visiting one position adds to the text. */
  function StepText(nm: Names, sc: Scan, at: nat, on: bool): string {
    if on then (if sc.range > 0 then "" else (if sc.items == [] then ":" else ",") + CatName(nm, at))
    else CloseText(nm, sc.range, if at > 0 then at - 1 else 0)
  }

  lemma SteppedText(nm: Names, pos: seq<nat>, on: seq<bool>, k: nat)
    requires |pos| == |on| && k < |pos|
    ensures CatsText(nm, ScanUpTo(pos, on, k + 1).items) ==
      CatsText(nm, ScanUpTo(pos, on, k).items) + StepText(nm, ScanUpTo(pos, on, k), pos[k], on[k])
  {
    var sc := ScanUpTo(pos, on, k);
    OpenOne(pos, on, k);
    assert ScanUpTo(pos, on, k + 1) == Step(sc, pos[k], on[k]);
    hide ScanUpTo, CatsText, CloseText, Close;
    if on[k] {
      AddText(nm, sc.items, pos[k]);
    } else {
      ClosedText(nm, sc, if pos[k] > 0 then pos[k] - 1 else 0);
    }
  }

  lemma FinalText(nm: Names, pos: seq<nat>, on: seq<bool>)
    requires |pos| == |on| > 0
    ensures CatsText(nm, ItemsOf(pos, on)) ==
      CatsText(nm, ScanUpTo(pos, on, |pos|).items) + CloseText(nm, ScanUpTo(pos, on, |pos|).range, pos[|pos| - 1])
  {
    OpenOne(pos, on, |pos|);
    hide ScanUpTo, CatsText, CloseText, Close;
    ClosedText(nm, ScanUpTo(pos, on, |pos|), pos[|pos| - 1]);
  }

  /** The text of a scan is never longer than the final one. */
  lemma {:induction false} TextGrows(nm: Names, pos: seq<nat>, on: seq<bool>, k: nat)
    requires |pos| == |on| > 0 && k <= |pos|
    ensures |CatsText(nm, ScanUpTo(pos, on, k).items)| <= |CatsText(nm, ItemsOf(pos, on))|
    decreases |pos| - k
  {
    hide *;
    if k < |pos| {
      SteppedText(nm, pos, on, k);
      TextGrows(nm, pos, on, k + 1);
    } else {
      FinalText(nm, pos, on);
    }
  }

  // ---------------------------------------------------------------- mls_compute_context_len

  /** Positions printed are within the names. */
  lemma Printable(nm: Names, l: Level, t: nat)
    requires LevelOk(nm, l) && t <= 64 * |l.nodes|
    ensures t < 64 * |l.nodes| && OnOf(l.nodes)[t] ==> PosOf(l.nodes)[t] < |nm.cats|
    ensures ScanUpTo(PosOf(l.nodes), OnOf(l.nodes), t).range > 1 && t < 64 * |l.nodes| ==> 0 < PosOf(l.nodes)[t] <= |nm.cats|
    ensures ScanUpTo(PosOf(l.nodes), OnOf(l.nodes), t).range > 1 && t == 64 * |l.nodes| ==>
      t > 0 && PosOf(l.nodes)[t - 1] < |nm.cats|
  {
    hide PosOf, OnOf, Ordered, Visited, ScanUpTo, Proper, Elements;
    var pos, on := PosOf(l.nodes), OnOf(l.nodes);
    PosVisited(l.nodes);
    EntriesProper(l.nodes, |nm.cats|);
    RunEnds(pos, on, t, |nm.cats|);
  }

  /** The scan state and its text, both as the loops keep them. */
  ghost predicate Scanned(nm: Names, l: Level, t: nat, range: nat, text: string) {
    && t <= 64 * |l.nodes|
    && range == ScanUpTo(PosOf(l.nodes), OnOf(l.nodes), t).range
    && text == CatsText(nm, ScanUpTo(PosOf(l.nodes), OnOf(l.nodes), t).items)
  }

  lemma ScanStart(nm: Names, l: Level)
    ensures Scanned(nm, l, 0, 0, "")
  {
  }

  lemma ScanUnfold(pos: seq<nat>, on: seq<bool>, t: nat)
    requires |pos| == |on| && t < |pos|
    ensures ScanUpTo(pos, on, t + 1) == Step(ScanUpTo(pos, on, t), pos[t], on[t])
  {
  }

  lemma EmptyText(nm: Names, items: seq<Item>)
    ensures CatsText(nm, items) == "" <==> items == []
  {
  }

  lemma EntriesDef(nodes: seq<BitNode>)
    ensures Entries(nodes) == ItemsOf(PosOf(nodes), OnOf(nodes))
  {
  }

  /** One visited bit: what is added, and that the names are there. */
  lemma ScanBit(nm: Names, l: Level, t: nat, range: nat, text: string)
    requires LevelOk(nm, l) && Scanned(nm, l, t, range, text) && t < 64 * |l.nodes|
    ensures var at, on := PosOf(l.nodes)[t], OnOf(l.nodes)[t];
      && (on && range == 0 ==> at < |nm.cats| && Scanned(nm, l, t + 1, 1, text + (if text == "" then ":" else ",") + CatName(nm, at)))
      && (on && range > 0 ==> Scanned(nm, l, t + 1, range + 1, text))
      && (!on && range > 1 ==> 0 < at <= |nm.cats| && Scanned(nm, l, t + 1, 0, text + CloseText(nm, range, at - 1)))
      && (!on && range <= 1 ==> Scanned(nm, l, t + 1, 0, text))
    ensures |text| + |StepText(nm, ScanUpTo(PosOf(l.nodes), OnOf(l.nodes), t), PosOf(l.nodes)[t], OnOf(l.nodes)[t])|
      <= |CatsText(nm, Entries(l.nodes))|
  {
    hide PosOf, OnOf, ScanUpTo, Ordered, Elements, CatsText, Entries, LevelOk, CatName;
    var pos, on := PosOf(l.nodes), OnOf(l.nodes);
    ScanUnfold(pos, on, t);
    EmptyText(nm, ScanUpTo(pos, on, t).items);
    EntriesDef(l.nodes);
    Printable(nm, l, t);
    SteppedText(nm, pos, on, t);
    TextGrows(nm, pos, on, t + 1);
  }

  lemma ScanEnd(nm: Names, l: Level, range: nat, text: string)
    requires LevelOk(nm, l) && Scanned(nm, l, 64 * |l.nodes|, range, text) && l.nodes != []
    ensures var last := PosOf(l.nodes)[64 * |l.nodes| - 1];
      && (range > 1 ==> last < |nm.cats|)
      && CatsText(nm, Entries(l.nodes)) == text + CloseText(nm, range, last)
  {
    hide PosOf, OnOf, ScanUpTo, Ordered, Elements, CatsText, CloseText;
    var pos, on := PosOf(l.nodes), OnOf(l.nodes);
    Printable(nm, l, |pos|);
    FinalText(nm, pos, on);
  }

  lemma NoCats(nm: Names, l: Level)
    requires l.nodes == []
    ensures CatsText(nm, Entries(l.nodes)) == ""
  {
  }

  method LevelLen(nm: Names, sens: nat, cat: Bitmap) returns (len: nat)
    requires cat.Valid() && LevelOk(nm, Level(sens, cat.nodes))
    ensures len == |LevelText(nm, Level(sens, cat.nodes))|
  {
    hide Scanned, CatsText, PosOf, OnOf, Ordered, Has, Walking, Entries, Elements, ScanUpTo;
    ghost var l := Level(sens, cat.nodes);
    OrderedOf(cat);
    len := |nm.sens[sens - 1]|;
    if cat.nodes == [] { NoCats(nm, l); return; }
    var range, n, i := 0, 0, cat.nodes[0].start;
    ghost var t, text := 0, "";
    ScanStart(nm, l);
    WalkFirst(cat.nodes);
    while i < cat.highbit
      invariant n < |cat.nodes| && Walking(cat.nodes, n, i, t) && t <= 64 * |cat.nodes|
      invariant Scanned(nm, l, t, range, text) && len == |nm.sens[sens - 1]| + |text|
      decreases cat.highbit - i
    {
      WalkNext(cat.nodes, n, i, t);
      ScanBit(nm, l, t, range, text);
      if Has(cat.nodes[n].map_, i - cat.nodes[n].start) {
        if range > 0 {
          range := range + 1;
        } else {
          len := len + |nm.cats[i]| + 1;
          text := text + (if text == "" then ":" else ",") + CatName(nm, i);
          range := range + 1;
        }
      } else {
        if range > 1 {
          len := len + |nm.cats[i - 1]| + 1;
          text := text + CloseText(nm, range, i - 1);
        }
        range := 0;
      }
      t := t + 1;
      if i == cat.nodes[n].start + 63 && n + 1 < |cat.nodes| {
        n := n + 1;
        i := cat.nodes[n].start;
      } else {
        i := i + 1;
      }
    }
    WalkLast(cat.nodes, n, i, t);
    ScanEnd(nm, l, range, text);
    if range > 1 { len := len + |nm.cats[i - 1]| + 1; }
  }

  /** Sensitivities and category sets compared. */
  method MlsLevelEq(sens1: nat, cat1: Bitmap, sens2: nat, cat2: Bitmap) returns (r: bool)
    requires cat1.Valid() && cat2.Valid()
    ensures r <==> Level(sens1, cat1.nodes) == Level(sens2, cat2.nodes)
  {
    SameElements(cat1.nodes, cat2.nodes);
    hide Elements, Ordered;
    if sens1 != sens2 { return false; }
    r := cat1.Cmp(cat2);
  }

  /** The length of the text, leading colon included; a policy without MLS has no text. */
  method MlsComputeContextLen(mls: bool, nm: Names, lowSens: nat, low: Bitmap, highSens: nat, high: Bitmap) returns (len: nat)
    requires mls ==> low.Valid() && high.Valid() && LevelOk(nm, Level(lowSens, low.nodes)) && LevelOk(nm, Level(highSens, high.nodes))
    ensures len == if mls then |RangeText(nm, Level(lowSens, low.nodes), Level(highSens, high.nodes))| else 0
  {
    hide LevelText, Elements, Ordered;
    if !mls { return 0; }
    len := 1;
    var lowLen := LevelLen(nm, lowSens, low);
    len := len + lowLen;
    var same := MlsLevelEq(lowSens, low, highSens, high);
    if same { return; }
    len := len + 1;
    var highLen := LevelLen(nm, highSens, high);
    len := len + highLen;
  }

  // ---------------------------------------------------------------- mls_sid_to_context

  /** The buffer holds `text` between the start and the write pointer. */
  ghost predicate Written(out: array<char>, start: nat, p: nat, text: string)
    reads out
  {
    p == start + |text| && p <= out.Length && out[start..p] == text
  }

  /** The string in the buffer ends at `p`. */
  ghost predicate Ended(out: array<char>, p: nat)
    reads out
  {
    p < out.Length && out[p] == NUL
  }

  method PutChar(out: array<char>, p: nat, c: char, ghost start: nat, ghost text: string) returns (p': nat)
    requires Written(out, start, p, text) && p < out.Length
    modifies out
    ensures Written(out, start, p', text + [c]) && out[..start] == old(out[..start])
  {
    out[p] := c;
    p' := p + 1;
  }

  /** strcpy followed by advancing the pointer to the terminating NUL. */
  method Strcpy(out: array<char>, p: nat, s: string, ghost start: nat, ghost text: string) returns (p': nat)
    requires Written(out, start, p, text) && p + |s| < out.Length
    modifies out
    ensures Written(out, start, p', text + s) && out[..start] == old(out[..start])
    ensures Ended(out, p')
  {
    for k := 0 to |s|
      invariant out[start..p] == text && out[p..p + k] == s[..k] && out[..start] == old(out[..start])
    {
      out[p + k] := s[k];
    }
    p' := p + |s|;
    out[p'] := NUL;
    assert out[start..p'] == out[start..p] + out[p..p'];
  }

  /** The end of a run: a dot after three or more, else a comma, then the position before. */
  method PutEnd(out: array<char>, nm: Names, p: nat, range: nat, last: nat, ghost start: nat, ghost text: string) returns (p': nat)
    requires Written(out, start, p, text) && range > 1 && last < |nm.cats| && p + |CloseText(nm, range, last)| < out.Length
    modifies out
    ensures Written(out, start, p', text + CloseText(nm, range, last)) && out[..start] == old(out[..start]) && Ended(out, p')
  {
    var sep := if range > 2 then '.' else ',';
    p' := PutChar(out, p, sep, start, text);
    p' := Strcpy(out, p', nm.cats[last], start, text + [sep]);
    assert text + [sep] + nm.cats[last] == text + CloseText(nm, range, last);
  }

  method PutCat(out: array<char>, nm: Names, p: nat, first: bool, i: nat, ghost start: nat, ghost text: string) returns (p': nat)
    requires Written(out, start, p, text) && i < |nm.cats| && p + 1 + |nm.cats[i]| < out.Length
    modifies out
    ensures Written(out, start, p', text + (if first then ":" else ",") + CatName(nm, i)) && out[..start] == old(out[..start])
    ensures Ended(out, p')
  {
    p' := PutChar(out, p, if first then ':' else ',', start, text);
    p' := Strcpy(out, p', nm.cats[i], start, text + [if first then ':' else ',']);
  }

  /** Writes one level after `base`; `wroteSep` is whether a category has been written. */
  method PutLevel(nm: Names, sens: nat, cat: Bitmap, out: array<char>, p: nat, ghost start: nat, ghost base: string) returns (p': nat)
    requires cat.Valid() && LevelOk(nm, Level(sens, cat.nodes)) && Written(out, start, p, base)
    requires p + |LevelText(nm, Level(sens, cat.nodes))| < out.Length
    modifies out
    ensures Written(out, start, p', base + LevelText(nm, Level(sens, cat.nodes))) && out[..start] == old(out[..start])
    ensures cat.Valid() && Ended(out, p')
  {
    hide Scanned, CatsText, PosOf, OnOf, Ordered, Has, Walking, Entries, Elements, ScanUpTo, Written, CloseText, CatName, Ended;
    ghost var l := Level(sens, cat.nodes);
    ghost var full := CatsText(nm, Entries(cat.nodes));
    OrderedOf(cat);
    WrittenAt(out, start, p, base);
    p' := Strcpy(out, p, nm.sens[sens - 1], start, base);
    ghost var head := base + nm.sens[sens - 1];
    assert LevelText(nm, l) == nm.sens[sens - 1] + full;
    assert head + "" == head;
    if cat.nodes == [] {
      NoCats(nm, l);
      assert base + LevelText(nm, l) == head;
      return;
    }
    var range, wroteSep, n, i := 0, false, 0, cat.nodes[0].start;
    ghost var t, text := 0, "";
    ScanStart(nm, l);
    WalkFirst(cat.nodes);
    while i < cat.highbit
      invariant n < |cat.nodes| && Walking(cat.nodes, n, i, t) && t <= 64 * |cat.nodes|
      invariant Scanned(nm, l, t, range, text) && (wroteSep <==> text != "") && Written(out, start, p', head + text)
      invariant out[..start] == old(out[..start]) && Ended(out, p')
      decreases cat.highbit - i
    {
      WalkNext(cat.nodes, n, i, t);
      ScanBit(nm, l, t, range, text);
      BitPiece(nm, l, t, range, text);
      WrittenAt(out, start, p', head + text);
      if Has(cat.nodes[n].map_, i - cat.nodes[n].start) {
        if range > 0 {
          range := range + 1;
        } else {
          p' := PutCat(out, nm, p', !wroteSep, i, start, head + text);
          Regroup(head, text, if text == "" then ":" else ",", CatName(nm, i));
          text := text + (if text == "" then ":" else ",") + CatName(nm, i);
          wroteSep := true;
          range := range + 1;
        }
      } else {
        if range > 1 {
          p' := PutEnd(out, nm, p', range, i - 1, start, head + text);
          Append(head, text, CloseText(nm, range, i - 1));
          EndNonempty(nm, range, i - 1);
          text := text + CloseText(nm, range, i - 1);
          wroteSep := true;
        }
        range := 0;
      }
      t := t + 1;
      if i == cat.nodes[n].start + 63 && n + 1 < |cat.nodes| {
        n := n + 1;
        i := cat.nodes[n].start;
      } else {
        i := i + 1;
      }
    }
    WalkLast(cat.nodes, n, i, t);
    ScanEnd(nm, l, range, text);
    WrittenAt(out, start, p', head + text);
    if range > 1 {
      p' := PutEnd(out, nm, p', range, i - 1, start, head + text);
      Append(head, text, CloseText(nm, range, i - 1));
    } else {
      EndNothing(nm, range, i - 1);
      assert text + "" == text;
    }
    assert base + LevelText(nm, l) == head + full;
  }

  lemma WrittenAt(out: array<char>, start: nat, p: nat, text: string)
    requires Written(out, start, p, text)
    ensures p == start + |text| && p <= out.Length
  {
  }

  lemma Regroup(head: string, text: string, a: string, b: string)
    ensures head + text + a + b == head + (text + a + b)
  {
  }

  lemma Append(head: string, text: string, a: string)
    ensures head + text + a == head + (text + a)
  {
  }

  lemma EndNonempty(nm: Names, range: nat, last: nat)
    requires range > 1
    ensures CloseText(nm, range, last) != ""
  {
  }

  lemma EndNothing(nm: Names, range: nat, last: nat)
    requires range <= 1
    ensures CloseText(nm, range, last) == ""
  {
  }

  /** What a position adds, as the writer spells it. */
  lemma BitPiece(nm: Names, l: Level, t: nat, range: nat, text: string)
    requires LevelOk(nm, l) && Scanned(nm, l, t, range, text) && t < 64 * |l.nodes|
    ensures var piece := StepText(nm, ScanUpTo(PosOf(l.nodes), OnOf(l.nodes), t), PosOf(l.nodes)[t], OnOf(l.nodes)[t]);
      && (OnOf(l.nodes)[t] && range == 0 ==> |piece| == 1 + |CatName(nm, PosOf(l.nodes)[t])|)
      && (OnOf(l.nodes)[t] && range == 0 && PosOf(l.nodes)[t] < |nm.cats| ==>
           CatName(nm, PosOf(l.nodes)[t]) == nm.cats[PosOf(l.nodes)[t]])
      && (!OnOf(l.nodes)[t] && PosOf(l.nodes)[t] > 0 ==> piece == CloseText(nm, range, PosOf(l.nodes)[t] - 1))
  {
    hide PosOf, OnOf, ScanUpTo, Ordered, Elements, CatsText, CloseText;
  }

  /** Writes the label at the write pointer and returns the advanced pointer; without MLS there is none. */
  method MlsSidToContext(mls: bool, nm: Names, lowSens: nat, low: Bitmap, highSens: nat, high: Bitmap, out: array<char>, start: nat)
    returns (p: nat)
    requires mls ==> low.Valid() && high.Valid() && LevelOk(nm, Level(lowSens, low.nodes)) && LevelOk(nm, Level(highSens, high.nodes))
    requires mls ==> start + |RangeText(nm, Level(lowSens, low.nodes), Level(highSens, high.nodes))| < out.Length
    modifies out
    ensures mls ==> Written(out, start, p, RangeText(nm, Level(lowSens, low.nodes), Level(highSens, high.nodes)))
    ensures mls ==> out[..start] == old(out[..start]) && Ended(out, p)
    ensures !mls ==> p == start && out[..] == old(out[..])
  {
    hide LevelText, Elements, Ordered, Written, Ended;
    if !mls { return start; }
    ghost var a, b := Level(lowSens, low.nodes), Level(highSens, high.nodes);
    WrittenNothing(out, start);
    p := PutChar(out, start, ':', start, "");
    assert "" + [':'] == ":";
    WrittenAt(out, start, p, ":");
    p := PutLevel(nm, lowSens, low, out, p, start, ":");
    var same := MlsLevelEq(lowSens, low, highSens, high);
    if same {
      assert RangeText(nm, a, b) == ":" + LevelText(nm, a);
      return;
    }
    ghost var so := ":" + LevelText(nm, a);
    WrittenAt(out, start, p, so);
    p := PutChar(out, p, '-', start, so);
    WrittenAt(out, start, p, so + ['-']);
    p := PutLevel(nm, highSens, high, out, p, start, so + ['-']);
    assert so + ['-'] + LevelText(nm, b) == RangeText(nm, a, b);
  }

  lemma WrittenNothing(out: array<char>, start: nat)
    requires start <= out.Length
    ensures Written(out, start, start, "")
  {
  }

  /**
     Prints into a buffer sized by the computed length, terminating NUL included, and cuts off
     the colon. It is for policies with MLS: without, there is no colon to cut off.
   */
  method MlsToString(nm: Names, lowSens: nat, low: Bitmap, highSens: nat, high: Bitmap) returns (str: string)
    requires low.Valid() && high.Valid() && LevelOk(nm, Level(lowSens, low.nodes)) && LevelOk(nm, Level(highSens, high.nodes))
    ensures str == RangeText(nm, Level(lowSens, low.nodes), Level(highSens, high.nodes))[1..]
  {
    hide LevelText, Elements, Ordered, RangeText;
    RangeStarts(nm, Level(lowSens, low.nodes), Level(highSens, high.nodes));
    var len := MlsComputeContextLen(true, nm, lowSens, low, highSens, high);
    len := len + 1;
    var ptr := new char[len];
    var p := MlsSidToContext(true, nm, lowSens, low, highSens, high, ptr, 0);
    assert p - (len - 1) == 0;
    str := ptr[1..p];
    assert ptr[1..p] == ptr[0..p][1..];
  }

  lemma RangeStarts(nm: Names, low: Level, high: Level)
    requires 0 < low.sens <= |nm.sens| && 0 < high.sens <= |nm.sens|
    ensures |RangeText(nm, low, high)| > 0 && RangeText(nm, low, high)[0] == ':'
  {
  }
}
