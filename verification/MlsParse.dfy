/**
 Parsing a label back into a range of levels (src/mls.c): the buffer is cut at separators by
 writing NULs into it, and the pieces are looked up in the symbol tables.
 */
module MlsParse {
  import opened Prelude
  import opened Words
  import opened Ebitmap
  import opened MlsRuns
  import opened Mls

  // ---------------------------------------------------------------- what a label denotes

  /** The first position holding a stop character, or the length. */
  function Find(text: string, stops: set<char>): (i: nat)
    ensures i <= |text| && (i < |text| ==> text[i] in stops)
    ensures forall k :: 0 <= k < i ==> text[k] !in stops
  {
    if text == "" || text[0] in stops then 0 else 1 + Find(text[1..], stops)
  }

  function Token(text: string, stops: set<char>): string {
    text[..Find(text, stops)]
  }

  /** The stop found, NUL at the end of the text. */
  function Delim(text: string, stops: set<char>): char {
    var i := Find(text, stops);
    if i < |text| then text[i] else NUL
  }

  function Rest(text: string, stops: set<char>): string {
    var i := Find(text, stops);
    if i < |text| then text[i + 1..] else ""
  }

  /** One category, or an ascending range of them. */
  function ParseItem(tb: Tables, token: string): Option<set<nat>>
    requires TablesOk(tb)
  {
    var first := Token(token, {'.'});
    if first !in tb.cats then None
    else if Find(token, {'.'}) == |token| then Some({tb.cats[first] - 1})
    else
      var second := Rest(token, {'.'});
      if second !in tb.cats || tb.cats[first] >= tb.cats[second] then None
      else Some(Interval(tb.cats[first] - 1, tb.cats[second]))
  }

  datatype Parsed = Parsed(cats: set<nat>, delim: char, rest: string)

  /** Entries up to the end of a level. */
  function ParseCats(tb: Tables, text: string): Option<Parsed>
    requires TablesOk(tb)
    decreases |text|
  {
    var stops := {',', '-'};
    var item := ParseItem(tb, Token(text, stops));
    if item.None? then None
    else if Delim(text, stops) == ',' then
      var more := ParseCats(tb, Rest(text, stops));
      if more.None? then None else Some(more.value.(cats := item.value + more.value.cats))
    else Some(Parsed(item.value, Delim(text, stops), Rest(text, stops)))
  }

  datatype ParsedLevel = ParsedLevel(sens: nat, cats: set<nat>, delim: char, rest: string)

  function ParseLevel(tb: Tables, text: string, stops: set<char>): Option<ParsedLevel>
    requires TablesOk(tb)
  {
    var name := Token(text, stops);
    if name !in tb.levels then None
    else if Delim(text, stops) == ':' then
      var cats := ParseCats(tb, Rest(text, stops));
      if cats.None? then None else Some(ParsedLevel(tb.levels[name], cats.value.cats, cats.value.delim, cats.value.rest))
    else Some(ParsedLevel(tb.levels[name], {}, Delim(text, stops), Rest(text, stops)))
  }

  datatype MlsRange = MlsRange(lowSens: nat, low: set<nat>, highSens: nat, high: set<nat>)

  /** The low level and, after a dash, the high one; it is the low one otherwise. */
  function ParseRange(tb: Tables, text: string): Option<MlsRange>
    requires TablesOk(tb)
  {
    var low := ParseLevel(tb, text, {':', '-'});
    if low.None? then None
    else if low.value.delim == '-' then
      var high := ParseLevel(tb, low.value.rest, {':'});
      if high.None? then None
      else Some(MlsRange(low.value.sens, low.value.cats, high.value.sens, high.value.cats))
    else Some(MlsRange(low.value.sens, low.value.cats, low.value.sens, low.value.cats))
  }

  /** What follows the levels that were parsed; after a dash behind the high level, what follows the next colon. */
  function RangeRest(tb: Tables, text: string): string
    requires TablesOk(tb)
  {
    var low := ParseLevel(tb, text, {':', '-'});
    if low.None? then ""
    else if low.value.delim == '-' then
      var high := ParseLevel(tb, low.value.rest, {':'});
      if high.None? then ""
      else if high.value.delim == '-' then Rest(high.value.rest, {':'})
      else high.value.rest
    else low.value.rest
  }

  // ---------------------------------------------------------------- printed labels parse

  /** A text without stops is a token. */
  lemma {:induction false} FindPast(token: string, rest: string, stops: set<char>)
    requires (forall k :: 0 <= k < |token| ==> token[k] !in stops) && (rest != "" ==> rest[0] in stops)
    ensures Find(token + rest, stops) == |token|
  {
    if token == "" {
      assert token + rest == rest;
    } else {
      assert (token + rest)[1..] == token[1..] + rest;
      FindPast(token[1..], rest, stops);
    }
  }

  lemma CutAt(token: string, rest: string, stops: set<char>)
    requires (forall k :: 0 <= k < |token| ==> token[k] !in stops) && (rest != "" ==> rest[0] in stops)
    ensures Token(token + rest, stops) == token
    ensures Delim(token + rest, stops) == if rest == "" then NUL else rest[0]
    ensures Rest(token + rest, stops) == if rest == "" then "" else rest[1..]
  {
    FindPast(token, rest, stops);
    hide Find;
    if rest != "" { assert (token + rest)[|token| + 1..] == rest[1..]; }
  }

  lemma ItemClean(nm: Names, tb: Tables, item: Item)
    requires NamesOk(nm, tb) && Proper([item], |nm.cats|)
    ensures forall k :: 0 <= k < |ItemText(nm, item)| ==> ItemText(nm, item)[k] !in {',', '-', ':'}
    ensures ParseItem(tb, ItemText(nm, item)) == Some(Covered(item))
  {
    hide *;
    TablesFine(nm, tb);
    ProperItem(item, |nm.cats|);
    ItemSpelled(nm, item);
    CategoryFacts(nm, tb, item.a);
    match item
    case One(a) =>
      ItemReads(tb, nm.cats[a], "");
    case Range(a, b) =>
      CategoryFacts(nm, tb, b);
      ItemReads(tb, nm.cats[a], nm.cats[b]);
      NoSeparator(nm.cats[a], nm.cats[b]);
      SameAsCovered(a, b, ParseItem(tb, ItemText(nm, item)).value);
  }

  lemma ProperItem(item: Item, n: nat)
    requires Proper([item], n)
    ensures item.a < n && (item.Range? ==> item.a < item.b < n)
  {
    assert item == [item][0];
  }

  lemma ItemSpelled(nm: Names, item: Item)
    requires item.a < |nm.cats| && (item.Range? ==> item.b < |nm.cats|)
    ensures ItemText(nm, item) == if item.One? then nm.cats[item.a] else nm.cats[item.a] + ['.'] + nm.cats[item.b]
    ensures item.One? ==> Covered(item) == {item.a}
    ensures forall name: string :: Plain(name) ==> forall k :: 0 <= k < |name| ==> name[k] !in {',', '-', ':'}
  {
  }

  lemma NoSeparator(x: string, y: string)
    requires Plain(x) && Plain(y)
    ensures var text := x + ['.'] + y; forall k :: 0 <= k < |text| ==> text[k] !in {',', '-', ':'}
  {
  }

  lemma SameAsCovered(a: nat, b: nat, all: set<nat>)
    requires forall k :: k in all <==> a <= k <= b
    ensures Covered(Range(a, b)) == all
  {
  }

  lemma CategoryFacts(nm: Names, tb: Tables, a: nat)
    requires NamesOk(nm, tb) && a < |nm.cats| && TablesOk(tb)
    ensures Plain(nm.cats[a]) && Plain("") && nm.cats[a] in tb.cats && CatNumber(tb, nm.cats[a]) == a
  {
  }

  lemma {:induction false} BodyFront(nm: Names, items: seq<Item>)
    requires |items| > 1
    ensures Body(nm, items) == ItemText(nm, items[0]) + "," + Body(nm, items[1..])
    decreases |items|
  {
    var n := |items| - 1;
    assert items[1..][..n - 1] == items[..n][1..];
    if n > 1 {
      BodyFront(nm, items[..n]);
      assert Body(nm, items[1..]) == Body(nm, items[..n][1..]) + "," + ItemText(nm, items[n]);
      hide ItemText;
      assert Body(nm, items) == ItemText(nm, items[0]) + "," + (Body(nm, items[..n][1..]) + "," + ItemText(nm, items[n]));
    }
  }

  lemma {:induction false} DenoteFront(items: seq<Item>)
    requires items != []
    ensures Denote(items) == Covered(items[0]) + Denote(items[1..])
    decreases |items|
  {
    var n := |items| - 1;
    if n > 0 {
      DenoteFront(items[..n]);
      assert items[1..][..n - 1] == items[..n][1..];
    } else {
      assert items[..0] == [] && items[1..] == [];
    }
  }

  lemma CatsUnfold(tb: Tables, text: string, item: set<nat>)
    requires TablesOk(tb) && ParseItem(tb, Token(text, {',', '-'})) == Some(item)
    ensures Delim(text, {',', '-'}) == ',' && ParseCats(tb, Rest(text, {',', '-'})).Some? ==>
      ParseCats(tb, text) == Some(ParseCats(tb, Rest(text, {',', '-'})).value.(cats := item + ParseCats(tb, Rest(text, {',', '-'})).value.cats))
    ensures Delim(text, {',', '-'}) != ',' ==> ParseCats(tb, text) == Some(Parsed(item, Delim(text, {',', '-'}), Rest(text, {',', '-'})))
  {
    hide Find, ParseItem;
  }

  /** A printed category list parses to what its entries name. */
  lemma {:induction false} BodyParses(nm: Names, tb: Tables, items: seq<Item>, rest: string)
    requires NamesOk(nm, tb) && items != [] && Proper(items, |nm.cats|) && (rest != "" ==> rest[0] == '-')
    ensures ParseCats(tb, Body(nm, items) + rest) ==
      Some(Parsed(Denote(items), if rest == "" then NUL else '-', if rest == "" then "" else rest[1..]))
    decreases |items|
  {
    hide *;
    NulIs();
    TablesFine(nm, tb);
    ProperParts(items, |nm.cats|);
    ItemClean(nm, tb, items[0]);
    var first := ItemText(nm, items[0]);
    if |items| == 1 {
      BodyOne(nm, items);
      CutAt(first, rest, {',', '-'});
      NothingNamed(items);
      CatsUnfold(tb, first + rest, Covered(items[0]));
    } else {
      DenoteFront(items);
      BodyFront(nm, items);
      var more := Body(nm, items[1..]) + rest;
      CutAt(first, "," + more, {',', '-'});
      assert first + ("," + more) == Body(nm, items) + rest;
      assert ("," + more)[1..] == more;
      BodyParses(nm, tb, items[1..], rest);
      CatsUnfold(tb, first + ("," + more), Covered(items[0]));
    }
  }

  lemma NulIs()
    ensures NUL == '\0'
  {
  }

  lemma BodyOne(nm: Names, items: seq<Item>)
    requires |items| == 1
    ensures Body(nm, items) == ItemText(nm, items[0])
  {
  }

  lemma ProperParts(items: seq<Item>, n: nat)
    requires items != [] && Proper(items, n)
    ensures Proper([items[0]], n) && Proper(items[1..], n)
  {
  }

  lemma TablesFine(nm: Names, tb: Tables)
    requires NamesOk(nm, tb)
    ensures TablesOk(tb)
  {
  }

  lemma SensFine(nm: Names, tb: Tables, sens: nat) returns (name: string)
    requires NamesOk(nm, tb) && 0 < sens <= |nm.sens|
    ensures name == nm.sens[sens - 1] && name in tb.levels && tb.levels[name] == sens
    ensures forall k :: 0 <= k < |name| ==> name[k] !in {':', '-'}
  {
    name := nm.sens[sens - 1];
    assert Clean(name);
  }

  lemma NothingNamed(items: seq<Item>)
    requires |items| == 1
    ensures Denote(items) == Covered(items[0])
  {
    assert Denote([]) == {};
    assert items[..0] == [];
  }

  /** A printed level parses to its sensitivity and what its entries name. */
  lemma LevelParses(nm: Names, tb: Tables, l: Level, rest: string, stops: set<char>)
    requires NamesOk(nm, tb) && LevelOk(nm, l) && (rest != "" ==> rest[0] == '-')
    requires stops == {':', '-'} || (stops == {':'} && rest == "")
    ensures ParseLevel(tb, LevelText(nm, l) + rest, stops) ==
      Some(ParsedLevel(l.sens, Denote(Entries(l.nodes)), if rest == "" then NUL else '-', if rest == "" then "" else rest[1..]))
  {
    hide Find, Denote, NamesOk, Entries, Ordered, Elements, Proper, BelowLimit, ParseCats, Body, Token, Delim, Rest, TablesOk;
    var name, items := nm.sens[l.sens - 1], Entries(l.nodes);
    EntriesProper(l.nodes, |nm.cats|);
    var _ := SensFine(nm, tb, l.sens);
    TablesFine(nm, tb);
    if items == [] {
      CutAt(name, rest, stops);
      assert LevelText(nm, l) + rest == name + rest;
      NothingDenoted();
    } else {
      var more := Body(nm, items) + rest;
      CutAt(name, ":" + more, stops);
      assert LevelText(nm, l) + rest == name + (":" + more);
      assert (":" + more)[1..] == more;
      BodyParses(nm, tb, items, rest);
    }
  }

  lemma NothingDenoted()
    ensures Denote([]) == {}
  {
  }

  /** Every printed range parses to its end, to the sensitivities and what the entries name. */
  lemma RangeParses(nm: Names, tb: Tables, low: Level, high: Level)
    requires NamesOk(nm, tb) && LevelOk(nm, low) && LevelOk(nm, high)
    ensures ParseRange(tb, RangeText(nm, low, high)[1..]) ==
      Some(MlsRange(low.sens, Denote(Entries(low.nodes)), high.sens, Denote(Entries(high.nodes))))
    ensures RangeRest(tb, RangeText(nm, low, high)[1..]) == ""
  {
    hide LevelText, ParseLevel, Denote, Entries, NamesOk, Ordered, Elements;
    TablesFine(nm, tb);
    var text := RangeText(nm, low, high)[1..];
    if low == high {
      assert text == LevelText(nm, low) + "";
      LevelParses(nm, tb, low, "", {':', '-'});
    } else {
      var rest := "-" + LevelText(nm, high);
      assert text == LevelText(nm, low) + rest;
      LevelParses(nm, tb, low, rest, {':', '-'});
      assert rest[1..] == LevelText(nm, high) + "";
      LevelParses(nm, tb, high, "", {':'});
    }
  }

  /**
     Printing a range and parsing the text gives the range back if and only if the gaps of
     both category bitmaps are harmless.
   */
  lemma RoundTrip(nm: Names, tb: Tables, low: Level, high: Level)
    requires NamesOk(nm, tb) && LevelOk(nm, low) && LevelOk(nm, high)
    ensures ParseRange(tb, RangeText(nm, low, high)[1..]) ==
        Some(MlsRange(low.sens, Elements(low.nodes), high.sens, Elements(high.nodes)))
      <==> GapsOk(low.nodes) && GapsOk(high.nodes)
  {
    RangeParses(nm, tb, low, high);
    EntriesExactly(low.nodes);
    EntriesExactly(high.nodes);
    hide ParseRange, RangeText, Denote, Entries, GapsOk, Elements, NamesOk, Ordered;
  }

  // ---------------------------------------------------------------- single labels

  /** A name that holds no separator. */
  predicate Plain(name: string) {
    forall i :: 0 <= i < |name| ==> name[i] !in {':', '-', ',', '.'}
  }

  lemma WholeToken(name: string, stops: set<char>)
    requires Plain(name) && stops <= {':', '-', ',', '.'}
    ensures Token(name, stops) == name && Delim(name, stops) == NUL && Rest(name, stops) == "" && Find(name, stops) == |name|
  {
    CutAt(name, "", stops);
    assert name + "" == name;
    FindPast(name, "", stops);
  }

  lemma FirstToken(name: string, c: char, rest: string, stops: set<char>)
    requires Plain(name) && stops <= {':', '-', ',', '.'} && c in stops
    ensures Token(name + [c] + rest, stops) == name && Delim(name + [c] + rest, stops) == c && Rest(name + [c] + rest, stops) == rest
    ensures Find(name + [c] + rest, stops) == |name|
  {
    hide *;
    Spelled(name, c, rest);
    PlainPast(name, stops);
    CutAt(name, [c] + rest, stops);
    FindPast(name, [c] + rest, stops);
  }

  lemma Spelled(name: string, c: char, rest: string)
    ensures name + [c] + rest == name + ([c] + rest) && ([c] + rest)[1..] == rest
  {
  }

  lemma PlainPast(name: string, stops: set<char>)
    requires Plain(name) && stops <= {':', '-', ',', '.'}
    ensures forall k :: 0 <= k < |name| ==> name[k] !in stops
  {
  }

  /** Skips a stretch without stops in front of a text. */
  lemma LongerToken(name: string, c: char, name2: string, stops: set<char>)
    requires Plain(name) && Plain(name2) && stops <= {':', '-', ','} && c == '.'
    ensures Token(name + [c] + name2, stops) == name + [c] + name2 && Delim(name + [c] + name2, stops) == NUL
    ensures Rest(name + [c] + name2, stops) == ""
  {
    var text := name + [c] + name2;
    CutAt(text, "", stops);
    assert text + "" == text;
  }

  /** The number a category name stands for, counted from 0. */
  function CatNumber(tb: Tables, name: string): nat
    requires TablesOk(tb) && name in tb.cats
  {
    tb.cats[name] - 1
  }

  /** One entry: a known category, or two in ascending order for all between them. */
  lemma ItemReads(tb: Tables, x: string, y: string)
    requires TablesOk(tb) && Plain(x) && Plain(y)
    ensures ParseItem(tb, x) == if x in tb.cats then Some({CatNumber(tb, x)}) else None
    ensures ParseItem(tb, x + ['.'] + y).Some? <==> x in tb.cats && y in tb.cats && CatNumber(tb, x) < CatNumber(tb, y)
    ensures ParseItem(tb, x + ['.'] + y).Some? ==>
      forall k :: k in ParseItem(tb, x + ['.'] + y).value <==> CatNumber(tb, x) <= k <= CatNumber(tb, y)
  {
    hide Find, Token, Delim, Rest;
    WholeToken(x, {'.'});
    FirstToken(x, '.', y, {'.'});
  }

  lemma CatsRead(tb: Tables, item: string, more: string)
    requires TablesOk(tb)
    requires Token(item, {',', '-'}) == item && Delim(item, {',', '-'}) == NUL && Rest(item, {',', '-'}) == ""
    ensures ParseCats(tb, item) == if ParseItem(tb, item).Some? then Some(Parsed(ParseItem(tb, item).value, NUL, "")) else None
  {
    hide Find, Token, Delim, Rest, ParseItem;
  }

  lemma TwoRead(tb: Tables, x: string, y: string)
    requires TablesOk(tb) && Plain(x) && Plain(y)
    ensures ParseCats(tb, x + [','] + y).Some? <==> x in tb.cats && y in tb.cats
    ensures ParseCats(tb, x + [','] + y).Some? ==>
      ParseCats(tb, x + [','] + y) == Some(Parsed({CatNumber(tb, x)} + {CatNumber(tb, y)}, NUL, ""))
  {
    FirstToken(x, ',', y, {',', '-'});
    ItemReads(tb, x, "");
    ItemReads(tb, y, "");
    WholeToken(y, {',', '-'});
    CatsRead(tb, y, "");
    hide Find, Token, Delim, Rest, ParseItem;
  }

  lemma BareLevel(tb: Tables, s: string, stops: set<char>)
    requires TablesOk(tb) && Plain(s) && stops <= {':', '-'}
    ensures ParseLevel(tb, s, stops) == if s in tb.levels then Some(ParsedLevel(tb.levels[s], {}, NUL, "")) else None
  {
    WholeToken(s, stops);
    hide Find, Token, Delim, Rest;
  }

  lemma LevelWith(tb: Tables, s: string, cats: string, set_: set<nat>)
    requires TablesOk(tb) && Plain(s)
    ensures ParseCats(tb, cats).None? || s !in tb.levels ==> ParseLevel(tb, s + [':'] + cats, {':', '-'}).None?
    ensures s in tb.levels && ParseCats(tb, cats) == Some(Parsed(set_, NUL, "")) ==>
      ParseLevel(tb, s + [':'] + cats, {':', '-'}) == Some(ParsedLevel(tb.levels[s], set_, NUL, ""))
  {
    FirstToken(s, ':', cats, {':', '-'});
    hide Find, Token, Delim, Rest, ParseCats;
  }

  /** Low and high level are both the one that is given. */
  ghost predicate ReadsAs(tb: Tables, text: string, sens: nat, cats: set<nat>)
    requires TablesOk(tb)
  {
    ParseRange(tb, text) == Some(MlsRange(sens, cats, sens, cats))
  }

  /** A sensitivity alone, and two joined by a dash. */
  lemma {:induction false} LevelsRead(tb: Tables, s: string, h: string)
    requires TablesOk(tb) && Plain(s) && Plain(h)
    ensures ParseRange(tb, s).Some? <==> s in tb.levels
    ensures s in tb.levels ==> ReadsAs(tb, s, tb.levels[s], {})
    ensures ParseRange(tb, s + ['-'] + h).Some? <==> s in tb.levels && h in tb.levels
    ensures s in tb.levels && h in tb.levels ==>
      ParseRange(tb, s + ['-'] + h) == Some(MlsRange(tb.levels[s], {}, tb.levels[h], {}))
  {
    BareLevel(tb, s, {':', '-'});
    BareLevel(tb, h, {':'});
    FirstToken(s, '-', h, {':', '-'});
    hide Find, Token, Delim, Rest;
  }

  /** A sensitivity with one category, with two, and with an ascending range of them. */
  lemma {:induction false} CategoriesRead(tb: Tables, s: string, x: string, y: string)
    requires TablesOk(tb) && Plain(s) && Plain(x) && Plain(y)
    ensures ParseRange(tb, s + [':'] + x).Some? <==> s in tb.levels && x in tb.cats
    ensures s in tb.levels && x in tb.cats ==> ReadsAs(tb, s + [':'] + x, tb.levels[s], {CatNumber(tb, x)})
    ensures ParseRange(tb, s + [':'] + (x + [','] + y)).Some? <==> s in tb.levels && x in tb.cats && y in tb.cats
    ensures s in tb.levels && x in tb.cats && y in tb.cats ==>
      ReadsAs(tb, s + [':'] + (x + [','] + y), tb.levels[s], {CatNumber(tb, x)} + {CatNumber(tb, y)})
    ensures ParseRange(tb, s + [':'] + (x + ['.'] + y)).Some? <==>
      s in tb.levels && x in tb.cats && y in tb.cats && CatNumber(tb, x) < CatNumber(tb, y)
    ensures ParseRange(tb, s + [':'] + (x + ['.'] + y)).Some? ==>
      var r := ParseRange(tb, s + [':'] + (x + ['.'] + y)).value;
      && r.lowSens == r.highSens == tb.levels[s] && r.low == r.high
      && forall k :: k in r.low <==> CatNumber(tb, x) <= k <= CatNumber(tb, y)
  {
    hide *;
    OneCategory(tb, s, x);
    TwoCategories(tb, s, x, y);
    CategoryRange(tb, s, x, y);
  }

  lemma OneCategory(tb: Tables, s: string, x: string)
    requires TablesOk(tb) && Plain(s) && Plain(x)
    ensures ParseRange(tb, s + [':'] + x).Some? <==> s in tb.levels && x in tb.cats
    ensures s in tb.levels && x in tb.cats ==> ReadsAs(tb, s + [':'] + x, tb.levels[s], {CatNumber(tb, x)})
  {
    WholeToken(x, {',', '-'});
    ItemReads(tb, x, "");
    CatsRead(tb, x, "");
    LevelWith(tb, s, x, if x in tb.cats then {CatNumber(tb, x)} else {});
    hide Find, Token, Delim, Rest, ParseCats, ParseLevel, ParseItem;
  }

  lemma TwoCategories(tb: Tables, s: string, x: string, y: string)
    requires TablesOk(tb) && Plain(s) && Plain(x) && Plain(y)
    ensures ParseRange(tb, s + [':'] + (x + [','] + y)).Some? <==> s in tb.levels && x in tb.cats && y in tb.cats
    ensures s in tb.levels && x in tb.cats && y in tb.cats ==>
      ReadsAs(tb, s + [':'] + (x + [','] + y), tb.levels[s], {CatNumber(tb, x)} + {CatNumber(tb, y)})
  {
    TwoRead(tb, x, y);
    LevelWith(tb, s, x + [','] + y, if x in tb.cats && y in tb.cats then {CatNumber(tb, x)} + {CatNumber(tb, y)} else {});
    hide Find, Token, Delim, Rest, ParseCats, ParseLevel, ParseItem;
  }

  lemma CategoryRange(tb: Tables, s: string, x: string, y: string)
    requires TablesOk(tb) && Plain(s) && Plain(x) && Plain(y)
    ensures ParseRange(tb, s + [':'] + (x + ['.'] + y)).Some? <==>
      s in tb.levels && x in tb.cats && y in tb.cats && CatNumber(tb, x) < CatNumber(tb, y)
    ensures ParseRange(tb, s + [':'] + (x + ['.'] + y)).Some? ==>
      var r := ParseRange(tb, s + [':'] + (x + ['.'] + y)).value;
      && r.lowSens == r.highSens == tb.levels[s] && r.low == r.high
      && forall k :: k in r.low <==> CatNumber(tb, x) <= k <= CatNumber(tb, y)
  {
    var item := x + ['.'] + y;
    LongerToken(x, '.', y, {',', '-'});
    ItemReads(tb, x, y);
    CatsRead(tb, item, "");
    LevelWith(tb, s, item, if ParseItem(tb, item).Some? then ParseItem(tb, item).value else {});
    hide Find, Token, Delim, Rest, ParseCats, ParseLevel, ParseItem, CatNumber;
  }

  // ---------------------------------------------------------------- mls_context_to_sid

  /** From `p` the buffer holds a string that ends at `end`. */
  ghost predicate Holds(buf: array<char>, p: nat, end: nat)
    reads buf
  {
    p <= end < buf.Length && buf[end] == NUL && forall k :: p <= k < end ==> buf[k] != NUL
  }

  /** The string from `p`, up to the next NUL. */
  method ReadString(buf: array<char>, p: nat, ghost end: nat) returns (s: string)
    requires Holds(buf, p, end)
    ensures s == buf[p..end]
  {
    s := [];
    var q := p;
    while buf[q] != NUL
      invariant p <= q <= end && s == buf[p..q]
      decreases end - q
    {
      s := s + [buf[q]];
      q := q + 1;
    }
  }

  /** Advances to the next stop or the end, and terminates the piece passed. */
  method Cut(buf: array<char>, p: nat, stops: set<char>, ghost end: nat) returns (q: nat, delim: char, next: nat)
    requires Holds(buf, p, end) && NUL !in stops
    modifies buf
    ensures Holds(buf, p, q) && buf[p..q] == Token(old(buf[p..end]), stops)
    ensures delim == Delim(old(buf[p..end]), stops)
    ensures p <= q <= next <= end && Holds(buf, next, end) && buf[next..end] == Rest(old(buf[p..end]), stops)
  {
    ghost var text := buf[p..end];
    q := p;
    while buf[q] != NUL && buf[q] !in stops
      invariant p <= q <= end && forall k :: p <= k < q ==> buf[k] !in stops
      decreases end - q
    {
      q := q + 1;
    }
    FoundAt(text, stops, q - p);
    delim := buf[q];
    next := q;
    if delim != NUL {
      buf[q] := NUL;
      next := q + 1;
    }
  }

  lemma FoundAt(text: string, stops: set<char>, i: nat)
    requires i <= |text| && (forall k :: 0 <= k < i ==> text[k] !in stops) && (i < |text| ==> text[i] in stops)
    ensures Find(text, stops) == i
  {
    hide Find;
    var f := Find(text, stops);
    assert f < |text| ==> text[f] in stops;
    assert i < |text| ==> text[i] in stops;
  }

  /** Sets the category of an entry, or its range of categories. */
  method ReadItem(buf: array<char>, p: nat, tb: Tables, cat: Bitmap, ghost q: nat) returns (ok: bool)
    requires Holds(buf, p, q) && TablesOk(tb) && cat.Valid()
    modifies buf, cat
    ensures cat.Valid() && forall k :: 0 <= k < buf.Length && !(p <= k < q) ==> buf[k] == old(buf[k])
    ensures ok <==> ParseItem(tb, old(buf[p..q])).Some?
    ensures ok ==> cat.Contents() == old(cat.Contents()) + ParseItem(tb, old(buf[p..q])).value
  {
    hide Elements, Ordered, Find;
    ghost var token := buf[p..q];
    var dot := p;
    while buf[dot] != NUL && buf[dot] != '.'
      invariant p <= dot <= q && forall k :: p <= k < dot ==> buf[k] !in {'.'}
      decreases q - dot
    {
      dot := dot + 1;
    }
    FoundAt(token, {'.'}, dot - p);
    var ranged := buf[dot] != NUL;
    assert buf[p..dot] == token[..dot - p];
    if ranged { buf[dot] := NUL; }
    assert buf[p..dot] == Token(token, {'.'});
    var first := ReadString(buf, p, dot);
    if first !in tb.cats { return false; }
    var rc := cat.SetBit(tb.cats[first] - 1, true);
    if rc == Invalid { return false; }
    if ranged {
      assert buf[dot + 1..q] == Rest(token, {'.'});
      var second := ReadString(buf, dot + 1, q);
      if second !in tb.cats { return false; }
      if tb.cats[first] >= tb.cats[second] { return false; }
      ok := FillUp(cat, tb.cats[first], tb.cats[second]);
      assert {tb.cats[first] - 1} + Interval(tb.cats[first], tb.cats[second]) == Interval(tb.cats[first] - 1, tb.cats[second]);
    } else {
      ok := true;
    }
  }

  method FillUp(cat: Bitmap, low: nat, high: nat) returns (ok: bool)
    requires cat.Valid() && low <= high <= LIMIT - MAPSIZE
    modifies cat
    ensures ok && cat.Valid() && cat.Contents() == old(cat.Contents()) + Interval(low, high)
  {
    hide Elements, Ordered;
    ghost var base := cat.Contents();
    for i := low to high
      invariant cat.Valid() && cat.Contents() == base + Interval(low, i)
    {
      var rc := cat.SetBit(i, true);
      if rc == Invalid { return false; }
      assert Interval(low, i + 1) == Interval(low, i) + {i};
    }
    ok := true;
  }

  /** Entries up to the end of the level. */
  method ReadCats(buf: array<char>, p: nat, tb: Tables, cat: Bitmap, ghost end: nat) returns (ok: bool, delim: char, next: nat)
    requires Holds(buf, p, end) && TablesOk(tb) && cat.Valid()
    modifies buf, cat
    ensures cat.Valid()
    ensures ok <==> ParseCats(tb, old(buf[p..end])).Some?
    ensures ok ==>
      var r := ParseCats(tb, old(buf[p..end])).value;
      && cat.Contents() == old(cat.Contents()) + r.cats && delim == r.delim
      && next <= end && Holds(buf, next, end) && buf[next..end] == r.rest
    decreases end - p
  {
    ghost var text, base := buf[p..end], cat.Contents();
    hide Elements, Ordered, Find, ParseItem, Token, Delim, Rest;
    ghost var named := {};
    next := p;
    PrefixNone(ParseCats(tb, text));
    while true
      invariant p <= next <= end && Holds(buf, next, end) && cat.Valid() && cat.Contents() == base + named
      invariant ParseCats(tb, text) == Prefixed(named, ParseCats(tb, buf[next..end]))
      decreases end - next
    {
      ghost var now := buf[next..end];
      var from := next;
      var q;
      q, delim, next := Cut(buf, next, {',', '-'}, end);
      ghost var token := buf[from..q];
      ok := ReadItem(buf, from, tb, cat, q);
      assert buf[next..end] == Rest(now, {',', '-'});
      PrefixStep(tb, named, now);
      if !ok { return; }
      named := named + ParseItem(tb, token).value;
      if delim != ',' { return; }
      DelimBefore(now, {',', '-'});
    }
  }

  /** What was parsed before is part of the whole. */
  function Prefixed(named: set<nat>, r: Option<Parsed>): Option<Parsed> {
    if r.None? then None else Some(r.value.(cats := named + r.value.cats))
  }

  lemma PrefixNone(r: Option<Parsed>)
    ensures Prefixed({}, r) == r
  {
    if r.Some? { assert {} + r.value.cats == r.value.cats; }
  }

  lemma PrefixStep(tb: Tables, named: set<nat>, text: string)
    requires TablesOk(tb)
    ensures var item := ParseItem(tb, Token(text, {',', '-'}));
      && (item.None? ==> ParseCats(tb, text).None?)
      && (item.Some? && Delim(text, {',', '-'}) == ',' ==>
           Prefixed(named, ParseCats(tb, text)) == Prefixed(named + item.value, ParseCats(tb, Rest(text, {',', '-'}))))
      && (item.Some? && Delim(text, {',', '-'}) != ',' ==>
           Prefixed(named, ParseCats(tb, text)) == Some(Parsed(named + item.value, Delim(text, {',', '-'}), Rest(text, {',', '-'}))))
  {
    hide Find, ParseItem;
    var item := ParseItem(tb, Token(text, {',', '-'}));
    if item.Some? && Delim(text, {',', '-'}) == ',' {
      var more := ParseCats(tb, Rest(text, {',', '-'}));
      if more.Some? { assert named + (item.value + more.value.cats) == named + item.value + more.value.cats; }
    }
  }

  lemma DelimBefore(text: string, stops: set<char>)
    ensures Delim(text, stops) in stops && NUL !in stops ==> |Rest(text, stops)| < |text|
  {
    hide Find;
  }

  /** One round of the loop over the levels: the sensitivity, then any categories. */
  method ReadLevel(buf: array<char>, p: nat, tb: Tables, stops: set<char>, cat: Bitmap, ghost end: nat)
    returns (ok: bool, sens: nat, delim: char, next: nat)
    requires Holds(buf, p, end) && TablesOk(tb) && cat.Valid() && cat.Contents() == {} && NUL !in stops
    modifies buf, cat
    ensures cat.Valid()
    ensures ok <==> ParseLevel(tb, old(buf[p..end]), stops).Some?
    ensures ok ==>
      var r := ParseLevel(tb, old(buf[p..end]), stops).value;
      && sens == r.sens && cat.Contents() == r.cats && delim == r.delim
      && next <= end && Holds(buf, next, end) && buf[next..end] == r.rest
  {
    hide Elements, Ordered, Find, ParseCats, Token, Delim, Rest;
    var q;
    q, delim, next := Cut(buf, p, stops, end);
    var name := ReadString(buf, p, q);
    sens := 0;
    if name !in tb.levels { return false, 0, delim, next; }
    sens := tb.levels[name];
    ok := true;
    if delim == ':' { ok, delim, next := ReadCats(buf, next, tb, cat, end); }
  }

  /**
     Parses a label in place; a context string without a label (`oldc` is NUL) is refused and a
     policy without MLS reads none. The position returned is one past what follows the levels,
     so one past the terminating NUL when they are all there is.
   */
  method MlsContextToSid(mls: bool, tb: Tables, oldc: char, buf: array<char>, p: nat, low: Bitmap, high: Bitmap, ghost end: nat)
    returns (ok: bool, lowSens: nat, highSens: nat, pos: nat)
    requires Holds(buf, p, end) && TablesOk(tb) && low != high
    requires low.Valid() && low.Contents() == {} && high.Valid() && high.Contents() == {}
    modifies buf, low, high
    ensures low.Valid() && high.Valid()
    ensures !mls ==> ok && pos == p && buf[..] == old(buf[..]) && low.Contents() == high.Contents() == {}
    ensures mls ==> (ok <==> oldc != NUL && ParseRange(tb, old(buf[p..end])).Some?)
    ensures mls && !ok ==> pos == p
    ensures mls && ok ==>
      && ParseRange(tb, old(buf[p..end])) == Some(MlsRange(lowSens, low.Contents(), highSens, high.Contents()))
      && pos == end - |RangeRest(tb, old(buf[p..end]))| + 1
  {
    hide Elements, Ordered, ParseLevel;
    lowSens, highSens, pos := 0, 0, p;
    if !mls { return true, 0, 0, p; }
    if oldc == NUL { return false, 0, 0, p; }
    var delim, next;
    ok, lowSens, delim, next := ReadLevel(buf, p, tb, {':', '-'}, low, end);
    if !ok { return; }
    if delim == '-' {
      ok, highSens, delim, next := ReadLevel(buf, next, tb, {':'}, high, end);
      if ok && delim == '-' {
        var _, _, after := Cut(buf, next, {':'}, end);
        next := after;
      }
    } else {
      highSens := lowSens;
      high.Cpy(low);
    }
    if ok { pos := next + 1; }
  }
}
