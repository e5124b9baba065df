/**
 Catch's test-spec parser: one pass over the characters with a mode, an exclusion flag and
 a token start.  Opening a tag or a quoted name skips the character after the delimiter,
 so the first character of such a token is never looked at.

 The class follows the source; `Visit` and `Run` are its specification on values.  Tag
 aliases are taken as expanded before the text gets here.
 */
module SpecParser {
  import opened TestSpec

  datatype Mode = None | Name | QuotedName | Tag

  /** A finished token: what the parser turns into one pattern. */
  datatype Item = Item(negated: bool, isTag: bool, token: string)

  datatype ParseState = ParseState(mode: Mode, exclusion: bool, start: nat, pos: nat,
                                   filter: seq<Item>, spec: seq<seq<Item>>)

  const EXCLUDE: string := "exclude:"

  // ------------------------------------------------------------ specification

  /** `m_arg.substr(m_start, m_pos - m_start)`. */
  function SubString(arg: string, s: ParseState): string
    requires s.start <= s.pos <= |arg|
  {
    arg[s.start..s.pos]
  }

  /** The items (one or none) a token adds. */
  function TokenItems(isTag: bool, exclusion: bool, token: string): (items: seq<Item>)
    ensures |items| <= 1
  {
    var stripped := StartsWith(token, EXCLUDE);
    var t := if stripped then token[|EXCLUDE|..] else token;
    if t == "" then [] else [Item(exclusion || stripped, isTag, t)]
  }

  function PatternAdded(arg: string, s: ParseState, isTag: bool): ParseState
    requires s.start <= s.pos <= |arg|
  {
    s.(filter := s.filter + TokenItems(isTag, s.exclusion, SubString(arg, s)), exclusion := false, mode := None)
  }

  function FilterAdded(s: ParseState): ParseState {
    if s.filter != [] then s.(spec := s.spec + [s.filter], filter := []) else s
  }

  function ModeStarted(s: ParseState, mode: Mode, start: nat): ParseState {
    s.(mode := mode, start := start)
  }

  predicate Sane(arg: string, s: ParseState) {
    (s.mode != None ==> s.start <= s.pos) && (s.mode == Name ==> s.pos <= |arg|)
  }

  predicate Ready(arg: string, s: ParseState) {
    Sane(arg, s) && s.pos < |arg|
  }

  function VisitInName(arg: string, s: ParseState): ParseState
    requires Ready(arg, s) && s.mode == Name
  {
    if arg[s.pos] == ',' then FilterAdded(PatternAdded(arg, s, false))
    else if arg[s.pos] == '[' then
      var t := if SubString(arg, s) == EXCLUDE then s.(exclusion := true) else PatternAdded(arg, s, false);
      ModeStarted(t.(pos := s.pos + 1), Tag, s.pos + 1)
    else s
  }

  /** `visitChar` on the character at `pos`. */
  function Visit(arg: string, s: ParseState): ParseState
    requires Ready(arg, s)
  {
    match s.mode
    case None =>
      (match arg[s.pos]
       case ' ' => s
       case '~' => s.(exclusion := true)
       case '[' => ModeStarted(s.(pos := s.pos + 1), Tag, s.pos + 1)
       case '"' => ModeStarted(s.(pos := s.pos + 1), QuotedName, s.pos + 1)
       case _ => VisitInName(arg, ModeStarted(s, Name, s.pos)))
    case Name => VisitInName(arg, s)
    case QuotedName => if arg[s.pos] == '"' then PatternAdded(arg, s, false) else s
    case Tag => if arg[s.pos] == ']' then PatternAdded(arg, s, true) else s
  }

  /** The character loop from `s` on. */
  function Run(arg: string, s: ParseState): (e: ParseState)
    requires Sane(arg, s)
    ensures Sane(arg, e) && |arg| <= e.pos
    decreases |arg| - s.pos
  {
    if s.pos >= |arg| then s
    else
      var t := Visit(arg, s);
      Run(arg, t.(pos := t.pos + 1))
  }

  lemma RunStep(arg: string, s: ParseState)
    requires Ready(arg, s)
    ensures var t := Visit(arg, s).(pos := Visit(arg, s).pos + 1);
            Sane(arg, t) && t.pos > s.pos && Run(arg, s) == Run(arg, t)
  {
  }

  lemma RunEnd(arg: string, s: ParseState)
    requires Sane(arg, s) && s.pos >= |arg|
    ensures Run(arg, s) == s
  {
  }

  const NPOS: nat := 0xFFFF_FFFF_FFFF_FFFF

  /** `parse`: resets the scan, not the filter or the spec collected so far. */
  function Parsed(arg: string, s: ParseState): ParseState {
    var e := Run(arg, s.(mode := None, exclusion := false, start := NPOS, pos := 0));
    if e.mode == Name then PatternAdded(arg, e, false) else e
  }

  const FRESH: ParseState := ParseState(None, false, NPOS, 0, [], [])

  function ParseItems(arg: string): seq<seq<Item>> {
    FilterAdded(Parsed(arg, FRESH)).spec
  }

  function Build(item: Item): Pattern {
    var p := if item.isTag then MakeTag(item.token) else MakeName(item.token);
    if item.negated then ExcludedPattern(p) else p
  }

  function BuildFilter(items: seq<Item>): (f: Filter)
    ensures |f| == |items|
  {
    seq(|items|, i requires 0 <= i < |items| => Build(items[i]))
  }

  function BuildSpec(filters: seq<seq<Item>>): (spec: Spec)
    ensures |spec| == |filters|
  {
    seq(|filters|, i requires 0 <= i < |filters| => BuildFilter(filters[i]))
  }

  /** `parseTestSpec`. */
  function ParseTestSpec(arg: string): Spec {
    BuildSpec(ParseItems(arg))
  }

  // ---------------------------------------------------------------- the class

  class TestSpecParser {
    var mode: Mode
    var exclusion: bool
    var start: nat
    var pos: nat
    var arg: string
    var currentFilter: Filter
    var testSpec: Spec
    ghost var items: seq<Item>
    ghost var filters: seq<seq<Item>>

    /** The patterns collected are those of the items read. */
    ghost predicate Valid()
      reads this
    {
      currentFilter == BuildFilter(items) && testSpec == BuildSpec(filters)
    }

    ghost function State(): ParseState
      reads this
    {
      ParseState(mode, exclusion, start, pos, items, filters)
    }

    constructor ()
      ensures Valid() && State() == FRESH
    {
      mode, exclusion, start, pos := None, false, NPOS, 0;
      arg, currentFilter, testSpec := "", [], [];
      items, filters := [], [];
    }

    method Parse(text: string)
      requires Valid()
      modifies this
      ensures Valid() && arg == text && State() == Parsed(text, old(State()))
    {
      mode := None;
      exclusion := false;
      start := NPOS;
      arg := text;
      pos := 0;
      ScanAll();
      if mode == Name {
        AddPattern(false);
      }
    }

    /** The character loop of `parse`. */
    method ScanAll()
      requires Valid() && Sane(arg, State())
      modifies this
      ensures Valid() && arg == old(arg) && State() == Run(arg, old(State()))
    {
      hide Visit, BuildSpec, BuildFilter;
      ghost var first := State();
      while pos < |arg|
        invariant Valid() && arg == old(arg) && Sane(arg, State())
        invariant Run(arg, first) == Run(arg, State())
        decreases |arg| - pos
      {
        RunStep(arg, State());
        VisitChar(arg[pos]);
        pos := pos + 1;
      }
      RunEnd(arg, State());
    }

    method TestSpec() returns (spec: Spec)
      requires Valid()
      modifies this
      ensures Valid() && State() == FilterAdded(old(State())) && arg == old(arg)
      ensures spec == BuildSpec(State().spec)
    {
      AddFilter();
      spec := testSpec;
    }

    method VisitChar(c: char)
      requires Valid() && Ready(arg, State()) && c == arg[pos]
      modifies this
      ensures Valid() && arg == old(arg) && State() == Visit(arg, old(State()))
    {
      if mode == None {
        if c == ' ' {
          return;
        } else if c == '~' {
          exclusion := true;
          return;
        } else if c == '[' {
          pos := pos + 1;
          StartNewMode(Tag, pos);
          return;
        } else if c == '"' {
          pos := pos + 1;
          StartNewMode(QuotedName, pos);
          return;
        } else {
          StartNewMode(Name, pos);
        }
      }
      if mode == Name {
        if c == ',' {
          AddPattern(false);
          AddFilter();
        } else if c == '[' {
          if arg[start..pos] == EXCLUDE {
            exclusion := true;
          } else {
            AddPattern(false);
          }
          pos := pos + 1;
          StartNewMode(Tag, pos);
        }
      } else if mode == QuotedName && c == '"' {
        AddPattern(false);
      } else if mode == Tag && c == ']' {
        AddPattern(true);
      }
    }

    method StartNewMode(mode: Mode, start: nat)
      requires Valid()
      modifies this
      ensures Valid() && arg == old(arg) && State() == ModeStarted(old(State()), mode, start)
    {
      this.mode := mode;
      this.start := start;
    }

    method AddPattern(isTag: bool)
      requires Valid() && start <= pos <= |arg|
      modifies this
      ensures Valid() && arg == old(arg) && State() == PatternAdded(arg, old(State()), isTag)
    {
      hide MakeName, MakeTag, BuildSpec;
      var token := arg[start..pos];
      ghost var added := TokenItems(isTag, exclusion, token);
      if StartsWith(token, EXCLUDE) {
        exclusion := true;
        token := token[|EXCLUDE|..];
      }
      if token != "" {
        var pattern := if isTag then MakeTag(token) else MakeName(token);
        if exclusion {
          pattern := ExcludedPattern(pattern);
        }
        assert added == [Item(exclusion, isTag, token)] && pattern == Build(added[0]);
        currentFilter := currentFilter + [pattern];
      }
      items := items + added;
      exclusion := false;
      mode := None;
    }

    method AddFilter()
      requires Valid()
      modifies this
      ensures Valid() && arg == old(arg) && State() == FilterAdded(old(State()))
    {
      if currentFilter != [] {
        testSpec := testSpec + [currentFilter];
        currentFilter := [];
        filters, items := filters + [items], [];
      }
    }
  }

  /** A fresh parser object computes `ParseTestSpec`. */
  method ParseWithClass(arg: string) returns (spec: Spec)
    ensures spec == ParseTestSpec(arg)
  {
    var parser := new TestSpecParser();
    parser.Parse(arg);
    spec := parser.TestSpec();
  }

  // ---------------------------------------------------------------- printing

  function Open(item: Item): string {
    (if item.negated then "~" else "") + (if item.isTag then "[" else "\"")
  }

  function CloseChar(item: Item): char {
    if item.isTag then ']' else '"'
  }

  function PrintItem(item: Item): string {
    Open(item) + item.token + [CloseChar(item)]
  }

  function PrintFilter(items: seq<Item>): string {
    if items == [] then "" else PrintItem(items[0]) + PrintFilter(items[1..])
  }

  function Print(filters: seq<seq<Item>>): string {
    if filters == [] then ""
    else if |filters| == 1 then PrintFilter(filters[0])
    else PrintFilter(filters[0]) + "," + Print(filters[1..])
  }

  /** Tokens that can be printed: not empty, no closing delimiter after the first character,
      and not led by `exclude:`. */
  predicate Printable(item: Item) {
    && item.token != ""
    && (forall i :: 1 <= i < |item.token| ==> item.token[i] != CloseChar(item))
    && !StartsWith(item.token, EXCLUDE)
  }

  predicate PrintableFilter(items: seq<Item>) {
    items != [] && forall i :: 0 <= i < |items| ==> Printable(items[i])
  }

  predicate PrintableSpec(filters: seq<seq<Item>>) {
    forall i :: 0 <= i < |filters| ==> PrintableFilter(filters[i])
  }

  // --------------------------------------------------------------- round trip

  /** Inside a tag or quoted name the scan runs on to the first closing delimiter. */
  lemma {:induction false} ScanToken(arg: string, s: ParseState, close: char, end: nat)
    requires Sane(arg, s) && s.pos <= end < |arg|
    requires (s.mode == Tag && close == ']') || (s.mode == QuotedName && close == '"')
    requires forall i :: s.pos <= i < end ==> arg[i] != close
    ensures Run(arg, s) == Run(arg, s.(pos := end))
    decreases end - s.pos
  {
    if s.pos < end {
      ScanToken(arg, s.(pos := s.pos + 1), close, end);
    }
  }

  /** `text` stands in `arg` at position p. */
  ghost predicate TextAt(arg: string, p: nat, text: string) {
    p + |text| <= |arg| && forall i :: 0 <= i < |text| ==> arg[p + i] == text[i]
  }

  lemma TextAtParts(arg: string, p: nat, a: string, b: string)
    requires TextAt(arg, p, a + b)
    ensures TextAt(arg, p, a) && TextAt(arg, p + |a|, b)
  {
    assert forall i :: 0 <= i < |a| ==> (a + b)[i] == a[i];
    assert forall i :: 0 <= i < |b| ==> (a + b)[|a| + i] == b[i];
  }

  /** Between items: nothing open, nothing negated. */
  predicate Between(s: ParseState) {
    s.mode == None && !s.exclusion
  }

  function ItemMode(item: Item): Mode {
    if item.isTag then Tag else QuotedName
  }

  /** From between items, the scan of the opening delimiter leaves the token unread up to its
      second character. */
  lemma ScanOpen(arg: string, s: ParseState, item: Item)
    requires Between(s) && TextAt(arg, s.pos, Open(item))
    ensures var start := s.pos + |Open(item)|;
            Run(arg, s) == Run(arg, s.(mode := ItemMode(item), exclusion := item.negated,
                                       start := start, pos := start + 1))
  {
    assert arg[s.pos] == Open(item)[0];
    if item.negated {
      assert arg[s.pos + 1] == Open(item)[1];
    }
  }

  lemma ScanClose(arg: string, s: ParseState, item: Item)
    requires s.mode == ItemMode(item) && s.start <= s.pos < |arg| && arg[s.pos] == CloseChar(item)
    ensures Run(arg, s) == Run(arg, s.(mode := None, exclusion := false, pos := s.pos + 1,
              filter := s.filter + TokenItems(item.isTag, s.exclusion, arg[s.start..s.pos])))
  {
    assert Visit(arg, s) == PatternAdded(arg, s, item.isTag);
  }

  /** Scanning an item whose first closing delimiter (from the token's second character on)
      stands `cut` characters after the token starts. */
  lemma ScanItem(arg: string, s: ParseState, item: Item, cut: nat)
    requires Between(s) && 1 <= cut && TextAt(arg, s.pos, Open(item))
    requires s.pos + |Open(item)| + cut < |arg| && arg[s.pos + |Open(item)| + cut] == CloseChar(item)
    requires forall i :: s.pos + |Open(item)| + 1 <= i < s.pos + |Open(item)| + cut ==> arg[i] != CloseChar(item)
    ensures var start := s.pos + |Open(item)|;
            Run(arg, s) == Run(arg, s.(start := start, pos := start + cut + 1,
              filter := s.filter + TokenItems(item.isTag, item.negated, arg[start..start + cut])))
  {
    hide Run;
    var start := s.pos + |Open(item)|;
    ScanOpen(arg, s, item);
    var t := s.(mode := ItemMode(item), exclusion := item.negated, start := start, pos := start + 1);
    ScanToken(arg, t, CloseChar(item), start + cut);
    ScanClose(arg, t.(pos := start + cut), item);
  }

  function AfterItem(s: ParseState, item: Item): ParseState {
    s.(start := s.pos + |Open(item)|, pos := s.pos + |PrintItem(item)|, filter := s.filter + [item])
  }

  lemma ScanPrintedItem(arg: string, s: ParseState, item: Item)
    requires Between(s) && Printable(item) && TextAt(arg, s.pos, PrintItem(item))
    ensures Run(arg, s) == Run(arg, AfterItem(s, item))
  {
    hide Run;
    var start, token := s.pos + |Open(item)|, item.token;
    TextAtParts(arg, s.pos, Open(item) + token, [CloseChar(item)]);
    TextAtParts(arg, s.pos, Open(item), token);
    assert arg[start + |token|] == [CloseChar(item)][0];
    forall i | start + 1 <= i < start + |token| ensures arg[i] != CloseChar(item) {
      assert arg[i] == token[i - start];
    }
    assert arg[start..start + |token|] == token;
    ScanItem(arg, s, item, |token|);
  }

  function AfterFilter(s: ParseState, items: seq<Item>): (e: ParseState)
    ensures e.mode == s.mode && e.exclusion == s.exclusion && e.spec == s.spec
    decreases |items|
  {
    if items == [] then s else AfterFilter(AfterItem(s, items[0]), items[1..])
  }

  lemma {:induction false} AfterFilterShape(s: ParseState, items: seq<Item>)
    ensures var e := AfterFilter(s, items);
            e.pos == s.pos + |PrintFilter(items)| && e.filter == s.filter + items
    decreases |items|
  {
    if items != [] {
      AfterFilterShape(AfterItem(s, items[0]), items[1..]);
    }
  }

  lemma {:induction false} ScanPrintedFilter(arg: string, s: ParseState, items: seq<Item>)
    requires Between(s) && TextAt(arg, s.pos, PrintFilter(items))
    requires forall i :: 0 <= i < |items| ==> Printable(items[i])
    ensures Run(arg, s) == Run(arg, AfterFilter(s, items))
    decreases |items|
  {
    hide Run;
    if items != [] {
      TextAtParts(arg, s.pos, PrintItem(items[0]), PrintFilter(items[1..]));
      ScanPrintedItem(arg, s, items[0]);
      ScanPrintedFilter(arg, AfterItem(s, items[0]), items[1..]);
    }
  }

  /** A comma between items closes the filter. */
  lemma ScanComma(arg: string, s: ParseState)
    requires Between(s) && s.filter != [] && TextAt(arg, s.pos, ",")
    ensures Run(arg, s) == Run(arg, s.(start := s.pos, pos := s.pos + 1, filter := [], spec := s.spec + [s.filter]))
  {
    assert arg[s.pos + 0] == ","[0];
    var t := ModeStarted(s, Name, s.pos);
    assert SubString(arg, t) == "";
    assert PatternAdded(arg, t, false) == s.(start := s.pos);
  }

  /** One printed filter, up to its end. */
  lemma ScanOneFilter(arg: string, s: ParseState, items: seq<Item>) returns (start: nat)
    requires Between(s) && s.filter == [] && PrintableFilter(items) && TextAt(arg, s.pos, PrintFilter(items))
    ensures Run(arg, s) == Run(arg, s.(start := start, pos := s.pos + |PrintFilter(items)|, filter := items))
  {
    hide Run;
    ScanPrintedFilter(arg, s, items);
    AfterFilterShape(s, items);
    start := AfterFilter(s, items).start;
    assert AfterFilter(s, items).filter == items;
  }

  /** One printed filter and the comma after it. */
  lemma ScanFilterAndComma(arg: string, s: ParseState, items: seq<Item>) returns (start: nat)
    requires Between(s) && s.filter == [] && PrintableFilter(items)
    requires TextAt(arg, s.pos, PrintFilter(items) + ",")
    ensures Run(arg, s) == Run(arg, s.(start := start, pos := s.pos + |PrintFilter(items)| + 1, spec := s.spec + [items]))
  {
    hide Run, PrintFilter;
    TextAtParts(arg, s.pos, PrintFilter(items), ",");
    start := ScanOneFilter(arg, s, items);
    ScanComma(arg, s.(start := start, pos := s.pos + |PrintFilter(items)|, filter := items));
    start := s.pos + |PrintFilter(items)|;
  }

  lemma {:induction false} ScanPrintedSpec(arg: string, s: ParseState, filters: seq<seq<Item>>)
    requires Between(s) && s.filter == [] && filters != [] && PrintableSpec(filters)
    requires TextAt(arg, s.pos, Print(filters)) && s.pos + |Print(filters)| == |arg|
    ensures Run(arg, s).mode == None && FilterAdded(Run(arg, s)).spec == s.spec + filters
    decreases |filters|
  {
    hide Run, PrintFilter;
    var items := filters[0];
    if |filters| == 1 {
      var start := ScanOneFilter(arg, s, items);
      RunEnd(arg, s.(start := start, pos := |arg|, filter := items));
      assert filters == [items];
    } else {
      TextAtParts(arg, s.pos, PrintFilter(items) + ",", Print(filters[1..]));
      var start := ScanFilterAndComma(arg, s, items);
      var e := s.(start := start, pos := s.pos + |PrintFilter(items)| + 1, spec := s.spec + [items]);
      ScanPrintedSpec(arg, e, filters[1..]);
      assert s.spec + filters == (s.spec + [items]) + filters[1..];
    }
  }

  /** Printing any list of non-empty filters of printable items and parsing it back gives
      the same items in the same order. */
  lemma RoundTrip(filters: seq<seq<Item>>)
    requires PrintableSpec(filters)
    ensures ParseItems(Print(filters)) == filters
  {
    if filters != [] {
      ScanPrintedSpec(Print(filters), FRESH, filters);
    }
  }

  // ---------------------------------------------------------- exact condition

  /** How often 'x' stands in a text.  Printing adds none, and stripping `exclude:` drops one. */
  function Xs(text: string): nat {
    multiset(text)['x']
  }

  function ItemXs(items: seq<Item>): nat {
    if items == [] then 0 else Xs(items[0].token) + ItemXs(items[1..])
  }

  function SpecXs(spec: seq<seq<Item>>): nat {
    if spec == [] then 0 else ItemXs(spec[0]) + SpecXs(spec[1..])
  }

  lemma XsSplit(text: string, i: nat)
    requires i <= |text|
    ensures Xs(text) == Xs(text[..i]) + Xs(text[i..])
  {
    assert text == text[..i] + text[i..];
  }

  lemma {:induction false} ItemXsConcat(a: seq<Item>, b: seq<Item>)
    ensures ItemXs(a + b) == ItemXs(a) + ItemXs(b)
    decreases |a|
  {
    if a == [] {
      assert a + b == b;
    } else {
      assert (a + b)[1..] == a[1..] + b;
      ItemXsConcat(a[1..], b);
    }
  }

  lemma {:induction false} SpecXsConcat(a: seq<seq<Item>>, b: seq<seq<Item>>)
    ensures SpecXs(a + b) == SpecXs(a) + SpecXs(b)
    decreases |a|
  {
    if a == [] {
      assert a + b == b;
    } else {
      assert (a + b)[1..] == a[1..] + b;
      SpecXsConcat(a[1..], b);
    }
  }

  lemma OneFilterXs(items: seq<Item>)
    ensures SpecXs([items]) == ItemXs(items)
  {
    assert [items][1..] == [];
  }

  lemma ExcludeXs(token: string)
    requires StartsWith(token, EXCLUDE)
    ensures Xs(token) == 1 + Xs(token[|EXCLUDE|..])
  {
    assert Xs(EXCLUDE) == 1;
    XsSplit(token, |EXCLUDE|);
  }

  lemma OneItemXs(item: Item)
    ensures ItemXs([item]) == Xs(item.token)
  {
    assert [item][1..] == [];
  }

  lemma TokenXs(isTag: bool, exclusion: bool, token: string)
    ensures ItemXs(TokenItems(isTag, exclusion, token)) == Xs(token) - if StartsWith(token, EXCLUDE) then 1 else 0
  {
    hide StartsWith;
    var items := TokenItems(isTag, exclusion, token);
    if StartsWith(token, EXCLUDE) {
      ExcludeXs(token);
    }
    if items != [] {
      OneItemXs(items[0]);
    }
  }

  /** The text still to be read, from the start of the open token. */
  function Unread(arg: string, s: ParseState): string {
    var from := if s.mode == None then s.pos else s.start;
    if from <= |arg| then arg[from..] else []
  }

  /** `t` is `s` after at most one more item, and perhaps the end of the filter. */
  ghost predicate Collects(s: ParseState, items: seq<Item>, closes: bool, t: ParseState) {
    var f := s.(filter := s.filter + items);
    && |items| <= 1 && (forall i <- items :: i.token != "")
    && t.filter == (if closes then FilterAdded(f) else f).filter
    && t.spec == (if closes then FilterAdded(f) else f).spec
  }

  lemma SuffixXs(arg: string, i: nat, j: nat)
    requires i <= j <= |arg|
    ensures Xs(arg[i..]) == Xs(arg[i..j]) + Xs(arg[j..])
  {
    assert arg[i..][..j - i] == arg[i..j] && arg[i..][j - i..] == arg[j..];
    XsSplit(arg[i..], j - i);
  }

  /** A token that ends at the current character was unread, and is now an item or nothing. */
  lemma TokenCollects(arg: string, s: ParseState, isTag: bool) returns (items: seq<Item>)
    requires s.start <= s.pos < |arg| && s.mode != None
    ensures items == TokenItems(isTag, s.exclusion, SubString(arg, s)) && |items| <= 1
    ensures forall i <- items :: i.token != ""
    ensures ItemXs(items) + Xs(arg[s.pos + 1..]) <= Xs(Unread(arg, s))
  {
    hide Xs, ItemXs;
    items := TokenItems(isTag, s.exclusion, SubString(arg, s));
    TokenXs(isTag, s.exclusion, SubString(arg, s));
    SuffixXs(arg, s.start, s.pos);
    SuffixXs(arg, s.pos, s.pos + 1);
  }

  lemma NameCollects(arg: string, s: ParseState) returns (items: seq<Item>, closes: bool)
    requires Ready(arg, s) && s.mode == Name
    ensures var t := VisitInName(arg, s).(pos := VisitInName(arg, s).pos + 1);
            Collects(s, items, closes, t) && ItemXs(items) + Xs(Unread(arg, t)) <= Xs(Unread(arg, s))
  {
    hide Xs, TokenItems;
    items, closes := [], arg[s.pos] == ',';
    assert s.filter + [] == s.filter;
    if arg[s.pos] == ',' || arg[s.pos] == '[' {
      var ended := TokenCollects(arg, s, false);
      if closes || SubString(arg, s) != EXCLUDE {
        items := ended;
      }
      SuffixXs(arg, s.pos + 1, if s.pos + 2 <= |arg| then s.pos + 2 else s.pos + 1);
    }
  }

  lemma OpenCollects(arg: string, s: ParseState)
    requires Ready(arg, s) && s.mode == None && arg[s.pos] in " ~[\""
    ensures var t := Visit(arg, s).(pos := Visit(arg, s).pos + 1);
            Collects(s, [], false, t) && Xs(Unread(arg, t)) <= Xs(Unread(arg, s))
  {
    hide VisitInName, Xs;
    assert s.filter + [] == s.filter;
    SuffixXs(arg, s.pos, s.pos + 1);
  }

  lemma CloseCollects(arg: string, s: ParseState) returns (items: seq<Item>)
    requires Ready(arg, s) && (s.mode == Tag || s.mode == QuotedName)
    ensures var t := Visit(arg, s).(pos := Visit(arg, s).pos + 1);
            Collects(s, items, false, t) && ItemXs(items) + Xs(Unread(arg, t)) <= Xs(Unread(arg, s))
  {
    hide VisitInName, Xs, TokenItems;
    items := [];
    assert s.filter + [] == s.filter;
    if arg[s.pos] == (if s.mode == Tag then ']' else '"') {
      items := TokenCollects(arg, s, s.mode == Tag);
    }
  }

  /** One character adds at most one item, whose token was unread before. */
  lemma VisitCollects(arg: string, s: ParseState) returns (items: seq<Item>, closes: bool)
    requires Ready(arg, s)
    ensures var t := Visit(arg, s).(pos := Visit(arg, s).pos + 1);
            Collects(s, items, closes, t) && ItemXs(items) + Xs(Unread(arg, t)) <= Xs(Unread(arg, s))
  {
    hide VisitInName, Xs, TokenItems;
    items, closes := [], false;
    if s.mode == Name {
      items, closes := NameCollects(arg, s);
    } else if s.mode != None {
      items := CloseCollects(arg, s);
    } else if arg[s.pos] in " ~[\"" {
      OpenCollects(arg, s);
    } else {
      items, closes := NameCollects(arg, ModeStarted(s, Name, s.pos));
    }
  }

  /** What holds of the rest of a scan: the items there are stay in place, no filter or token is
      empty, and items and unread text hold at most `limit` times 'x'. */
  ghost predicate Growing(arg: string, spec: seq<seq<Item>>, filter: seq<Item>, limit: nat, s: ParseState) {
    && (|| (s.spec == spec && filter <= s.filter)
        || (|spec| < |s.spec| && spec <= s.spec && filter <= s.spec[|spec|]))
    && (forall i <- s.filter :: i.token != "")
    && (forall f <- s.spec :: f != [] && forall i <- f :: i.token != "")
    && SpecXs(s.spec) + ItemXs(s.filter) + Xs(Unread(arg, s)) <= limit
  }

  lemma CollectsXs(s: ParseState, items: seq<Item>, closes: bool, t: ParseState)
    requires Collects(s, items, closes, t)
    ensures SpecXs(t.spec) + ItemXs(t.filter) == SpecXs(s.spec) + ItemXs(s.filter) + ItemXs(items)
  {
    var f := s.filter + items;
    ItemXsConcat(s.filter, items);
    SpecXsConcat(s.spec, [f]);
    OneFilterXs(f);
  }

  lemma CollectsGrows(arg: string, spec: seq<seq<Item>>, filter: seq<Item>, limit: nat, s: ParseState,
                      items: seq<Item>, closes: bool, t: ParseState)
    requires Growing(arg, spec, filter, limit, s) && Collects(s, items, closes, t)
    requires ItemXs(items) + Xs(Unread(arg, t)) <= Xs(Unread(arg, s))
    ensures Growing(arg, spec, filter, limit, t)
  {
    hide Xs, ItemXs, SpecXs, Unread;
    CollectsXs(s, items, closes, t);
  }

  lemma {:induction false} RunGrows(arg: string, spec: seq<seq<Item>>, filter: seq<Item>, limit: nat, s: ParseState)
    requires Sane(arg, s) && Growing(arg, spec, filter, limit, s)
    ensures Growing(arg, spec, filter, limit, Run(arg, s))
    decreases |arg| - s.pos
  {
    hide Visit, Growing, Collects, Unread;
    if s.pos < |arg| {
      var t := Visit(arg, s).(pos := Visit(arg, s).pos + 1);
      RunStep(arg, s);
      var items, closes := VisitCollects(arg, s);
      CollectsGrows(arg, spec, filter, limit, s, items, closes, t);
      RunGrows(arg, spec, filter, limit, t);
    } else {
      RunEnd(arg, s);
    }
  }

  /** What `parse` and `testSpec` make of the state after the last character. */
  function Finished(arg: string, e: ParseState): ParseState
    requires Sane(arg, e)
  {
    FilterAdded(if e.mode == Name then PatternAdded(arg, e, false) else e)
  }

  lemma FinishedGrows(arg: string, spec: seq<seq<Item>>, filter: seq<Item>, limit: nat, s: ParseState)
    requires Sane(arg, s) && filter != [] && Growing(arg, spec, filter, limit, s)
    ensures var e := Finished(arg, s).spec;
            |spec| < |e| && filter <= e[|spec|] && SpecXs(e) <= limit
  {
    var items, t := [], Finished(arg, s);
    assert s.filter + [] == s.filter;
    if s.mode == Name {
      items := TokenItems(false, s.exclusion, SubString(arg, s));
      TokenXs(false, s.exclusion, SubString(arg, s));
      SuffixXs(arg, s.start, s.pos);
    }
    CollectsXs(s, items, true, t);
    assert t.filter == [];
  }

  lemma FinishedFull(arg: string, s: ParseState)
    requires Sane(arg, s) && Growing(arg, [], [], Xs(arg), s)
    ensures forall f <- Finished(arg, s).spec :: f != [] && forall i <- f :: i.token != ""
  {
  }

  function FirstClose(item: Item, from: nat): (cut: nat)
    requires 1 <= from <= |item.token|
    ensures from <= cut <= |item.token| && (cut < |item.token| ==> item.token[cut] == CloseChar(item))
    ensures forall i :: from <= i < cut ==> item.token[i] != CloseChar(item)
    decreases |item.token| - from
  {
    if from == |item.token| || item.token[from] == CloseChar(item) then from else FirstClose(item, from + 1)
  }

  /** A printed item in the text, up to its first inner delimiter, if any. */
  lemma PrintedAt(arg: string, p: nat, item: Item, cut: nat)
    requires TextAt(arg, p, PrintItem(item)) && item.token != "" && cut == FirstClose(item, 1)
    ensures var start := p + |Open(item)|;
            && TextAt(arg, p, Open(item)) && start + cut < |arg|
            && arg[start..start + cut] == item.token[..cut] && arg[start + cut] == CloseChar(item)
            && (forall i :: start + 1 <= i < start + cut ==> arg[i] != CloseChar(item))
  {
    var start := p + |Open(item)|;
    TextAtParts(arg, p, Open(item) + item.token, [CloseChar(item)]);
    TextAtParts(arg, p, Open(item), item.token);
    assert arg[start + |item.token|] == [CloseChar(item)][0];
    assert forall i :: start <= i < start + |item.token| ==> arg[i] == item.token[i - start];
  }

  /** The first token read off a printed item ends at its first inner delimiter, if any. */
  lemma ScanFirstToken(arg: string, s: ParseState, item: Item, cut: nat) returns (t: ParseState)
    requires Between(s) && TextAt(arg, s.pos, PrintItem(item)) && item.token != "" && cut == FirstClose(item, 1)
    ensures Sane(arg, t) && Run(arg, s) == Run(arg, t) && t.mode == None && t.spec == s.spec
    ensures t.filter == s.filter + TokenItems(item.isTag, item.negated, item.token[..cut])
    ensures t.pos <= |arg| && Xs(item.token[..cut]) + Xs(arg[t.pos..]) <= Xs(arg[s.pos..])
  {
    hide Run, TokenItems, Xs, TextAt, PrintItem, FirstClose;
    var start := s.pos + |Open(item)|;
    PrintedAt(arg, s.pos, item, cut);
    ScanItem(arg, s, item, cut);
    t := s.(start := start, pos := start + cut + 1,
            filter := s.filter + TokenItems(item.isTag, item.negated, item.token[..cut]));
    SuffixXs(arg, s.pos, start);
    SuffixXs(arg, start, start + cut);
    SuffixXs(arg, start + cut, start + cut + 1);
  }

  /** A text led by `exclude:` has no closing delimiter before its end. */
  lemma ExcludeIsWhole(item: Item, cut: nat)
    requires StartsWith(item.token, EXCLUDE) && cut == FirstClose(item, 1)
    ensures StartsWith(item.token[..cut], EXCLUDE)
  {
    assert forall i :: 0 <= i < |EXCLUDE| ==> item.token[i] == item.token[..|EXCLUDE|][i];
    assert forall i :: 0 <= i < |EXCLUDE| ==> EXCLUDE[i] != CloseChar(item);
    assert item.token[..cut][..|EXCLUDE|] == item.token[..|EXCLUDE|];
  }

  lemma StartOfPrefix(text: string, i: nat, prefix: string)
    requires i <= |text|
    ensures StartsWith(text[..i], prefix) ==> StartsWith(text, prefix)
  {
    if |prefix| <= i {
      assert text[..i][..|prefix|] == text[..|prefix|];
    }
  }

  /** What an item that cannot be printed leaves in its place: an item with a shorter token, or
      fewer 'x' in all than the items printed. */
  lemma BadItemLost(arg: string, s: ParseState, item: Item, expected: seq<seq<Item>>)
    requires Between(s) && Growing(arg, s.spec, s.filter, SpecXs(expected), s)
    requires item.token != "" && !Printable(item) && TextAt(arg, s.pos, PrintItem(item))
    requires |s.spec| < |expected| && s.filter + [item] <= expected[|s.spec|]
    ensures Finished(arg, Run(arg, s)).spec != expected
  {
    hide Run, Xs, ItemXs, SpecXs;
    var cut := FirstClose(item, 1);
    var token := item.token[..cut];
    var items := TokenItems(item.isTag, item.negated, token);
    var t := ScanFirstToken(arg, s, item, cut);
    TokenXs(item.isTag, item.negated, token);
    ItemXsConcat(s.filter, items);
    if StartsWith(item.token, EXCLUDE) {
      ExcludeIsWhole(item, cut);
      FewerXs(arg, s, t, SpecXs(expected));
    } else {
      StartOfPrefix(item.token, cut, EXCLUDE);
      assert items == [Item(item.negated, item.isTag, token)];
      RunGrows(arg, s.spec, t.filter, SpecXs(expected), t);
      FinishedGrows(arg, s.spec, t.filter, SpecXs(expected), Run(arg, t));
      var n := |s.filter|;
      assert t.filter[n].token == token && (s.filter + [item])[n] == item;
    }
  }

  lemma FewerXs(arg: string, s: ParseState, t: ParseState, limit: nat)
    requires Sane(arg, s) && Sane(arg, t) && Run(arg, s) == Run(arg, t) && t.mode == None && t.pos <= |arg|
    requires (forall i <- t.filter :: i.token != "") && (forall f <- t.spec :: f != [] && forall i <- f :: i.token != "")
    requires SpecXs(t.spec) + ItemXs(t.filter) + Xs(arg[t.pos..]) < limit
    ensures SpecXs(Finished(arg, Run(arg, s)).spec) < limit
  {
    hide Run, Xs, ItemXs, SpecXs;
    RunGrows(arg, t.spec, [], limit - 1, t);
    FinishedXs(arg, Run(arg, t), t.spec, limit - 1);
  }

  lemma FinishedXs(arg: string, s: ParseState, spec: seq<seq<Item>>, limit: nat)
    requires Sane(arg, s) && Growing(arg, spec, [], limit, s)
    ensures SpecXs(Finished(arg, s).spec) <= limit
  {
    var items, t := [], Finished(arg, s);
    assert s.filter + [] == s.filter;
    if s.mode == Name {
      items := TokenItems(false, s.exclusion, SubString(arg, s));
      TokenXs(false, s.exclusion, SubString(arg, s));
      SuffixXs(arg, s.start, s.pos);
    }
    CollectsXs(s, items, true, t);
  }

  lemma PrintItemXs(item: Item)
    ensures Xs(PrintItem(item)) == Xs(item.token)
  {
    assert Xs(Open(item)) == 0 && Xs([CloseChar(item)]) == 0;
  }

  lemma {:induction false} PrintFilterXs(items: seq<Item>)
    ensures Xs(PrintFilter(items)) == ItemXs(items)
    decreases |items|
  {
    if items != [] {
      PrintItemXs(items[0]);
      PrintFilterXs(items[1..]);
    }
  }

  lemma {:induction false} PrintXs(filters: seq<seq<Item>>)
    ensures Xs(Print(filters)) == SpecXs(filters)
    decreases |filters|
  {
    if filters != [] {
      PrintFilterXs(filters[0]);
      assert Xs(",") == 0;
      PrintXs(filters[1..]);
    }
  }

  /** What stands at position p and what follows it. */
  lemma TextXs(arg: string, p: nat, text: string)
    requires TextAt(arg, p, text)
    ensures Xs(arg[p..]) == Xs(text) + Xs(arg[p + |text|..])
  {
    assert arg[p..p + |text|] == text;
    SuffixXs(arg, p, p + |text|);
  }

  ghost predicate FullFilter(items: seq<Item>) {
    items != [] && forall i <- items :: i.token != ""
  }

  ghost predicate FullSpec(filters: seq<seq<Item>>) {
    forall f <- filters :: FullFilter(f)
  }

  /** Scanning on to the first item of a filter that cannot be printed. */
  lemma {:induction false} BadFilterLost(arg: string, s: ParseState, items: seq<Item>, expected: seq<seq<Item>>)
    requires Between(s) && Growing(arg, s.spec, s.filter, SpecXs(expected), s)
    requires (forall i <- items :: i.token != "") && TextAt(arg, s.pos, PrintFilter(items))
    requires exists i :: 0 <= i < |items| && !Printable(items[i])
    requires |s.spec| < |expected| && s.filter + items == expected[|s.spec|]
    ensures Finished(arg, Run(arg, s)).spec != expected
    decreases |items|
  {
    hide Run, Xs, ItemXs, SpecXs, Printable;
    var item := items[0];
    TextAtParts(arg, s.pos, PrintItem(item), PrintFilter(items[1..]));
    assert s.filter + items == (s.filter + [item]) + items[1..];
    if Printable(item) {
      ScanPrintedItem(arg, s, item);
      var t := AfterItem(s, item);
      TextXs(arg, s.pos, PrintItem(item));
      PrintItemXs(item);
      ItemXsConcat(s.filter, [item]);
      OneItemXs(item);
      BadFilterLost(arg, t, items[1..], expected);
    } else {
      BadItemLost(arg, s, item, expected);
    }
  }

  /** Past a printed filter and its comma. */
  lemma PastFilter(arg: string, s: ParseState, filters: seq<seq<Item>>, limit: nat) returns (t: ParseState)
    requires Between(s) && s.filter == [] && Growing(arg, s.spec, [], limit, s)
    requires |filters| > 1 && PrintableFilter(filters[0]) && FullFilter(filters[0])
    requires TextAt(arg, s.pos, Print(filters))
    ensures Between(t) && t.filter == [] && t.spec == s.spec + [filters[0]] && Growing(arg, t.spec, [], limit, t)
    ensures Run(arg, s) == Run(arg, t) && TextAt(arg, t.pos, Print(filters[1..]))
  {
    hide Run, PrintFilter, Growing, TextAt, PrintableFilter, FullFilter;
    var items := filters[0];
    TextAtParts(arg, s.pos, PrintFilter(items) + ",", Print(filters[1..]));
    var start := ScanFilterAndComma(arg, s, items);
    t := s.(start := start, pos := s.pos + |PrintFilter(items)| + 1, spec := s.spec + [items]);
    FilterRead(arg, s, items, start, limit);
  }

  lemma FirstFilterText(arg: string, p: nat, filters: seq<seq<Item>>)
    requires filters != [] && TextAt(arg, p, Print(filters))
    ensures TextAt(arg, p, PrintFilter(filters[0]))
  {
    hide TextAt, PrintFilter;
    if |filters| > 1 {
      TextAtParts(arg, p, PrintFilter(filters[0]) + ",", Print(filters[1..]));
      TextAtParts(arg, p, PrintFilter(filters[0]), ",");
    }
  }

  /** Scanning on to the first filter that cannot be printed. */
  lemma {:induction false} BadSpecLost(arg: string, s: ParseState, filters: seq<seq<Item>>, expected: seq<seq<Item>>)
    requires Between(s) && s.filter == [] && Growing(arg, s.spec, [], SpecXs(expected), s)
    requires FullSpec(filters) && !PrintableSpec(filters) && expected == s.spec + filters
    requires TextAt(arg, s.pos, Print(filters))
    ensures Finished(arg, Run(arg, s)).spec != expected
    decreases |filters|
  {
    hide Run, SpecXs, Printable, PrintFilter, Print, Growing, TextAt, FullFilter, Finished;
    var items := filters[0];
    assert items in filters;
    if PrintableFilter(items) {
      assert |filters| > 1;
      var t := PastFilter(arg, s, filters, SpecXs(expected));
      assert expected == t.spec + filters[1..];
      BadSpecLost(arg, t, filters[1..], expected);
    } else {
      FirstFilterText(arg, s.pos, filters);
      FullItems(items);
      assert s.filter + items == items == expected[|s.spec|];
      BadFilterLost(arg, s, items, expected);
    }
  }

  lemma FullItems(items: seq<Item>)
    requires FullFilter(items)
    ensures items != [] && forall i <- items :: i.token != ""
  {
  }

  lemma CommaXs(text: string)
    ensures Xs(text + ",") == Xs(text)
  {
    assert Xs(",") == 0;
  }

  /** Reading a printed filter and its comma keeps the number of 'x' in items and unread text. */
  lemma FilterRead(arg: string, s: ParseState, items: seq<Item>, start: nat, limit: nat)
    requires Between(s) && s.filter == [] && FullFilter(items) && Growing(arg, s.spec, [], limit, s)
    requires TextAt(arg, s.pos, PrintFilter(items) + ",")
    ensures var t := s.(start := start, pos := s.pos + |PrintFilter(items)| + 1, spec := s.spec + [items]);
            Growing(arg, t.spec, [], limit, t)
  {
    hide PrintFilter, ItemXs, SpecXs, Xs;
    TextXs(arg, s.pos, PrintFilter(items) + ",");
    PrintFilterXs(items);
    CommaXs(PrintFilter(items));
    SpecXsConcat(s.spec, [items]);
    OneFilterXs(items);
  }

  lemma FreshGrows(arg: string)
    ensures Growing(arg, [], [], Xs(arg), FRESH)
  {
    assert arg[0..] == arg;
  }

  /** A list of filters survives printing and parsing exactly when every filter has an item and
      every token is printable. */
  lemma SpecRoundTripExactly(filters: seq<seq<Item>>)
    ensures ParseItems(Print(filters)) == filters <==> PrintableSpec(filters)
  {
    hide Run, Xs, SpecXs, Printable, Print;
    var arg := Print(filters);
    FreshGrows(arg);
    if PrintableSpec(filters) {
      RoundTrip(filters);
    } else if FullSpec(filters) {
      PrintXs(filters);
      BadSpecLost(arg, FRESH, filters, filters);
    } else {
      RunGrows(arg, [], [], Xs(arg), FRESH);
      FinishedFull(arg, Run(arg, FRESH));
    }
  }

  /** One item survives printing and parsing exactly when its token is printable. */
  lemma ItemRoundTripExactly(item: Item)
    ensures ParseItems(PrintItem(item)) == [[item]] <==> Printable(item)
  {
    assert PrintFilter([item]) == PrintItem(item) + PrintFilter([]) == PrintItem(item);
    assert Print([[item]]) == PrintItem(item);
    SpecRoundTripExactly([[item]]);
  }

  // ------------------------------------------------------------------ meaning

  ghost predicate ItemSelects(item: Item, tc: TestCaseInfo) {
    item.negated != (if item.isTag then exists tag <- tc.tags :: SameText(item.token, tag)
                     else NameMeans(item.token, tc.name))
  }

  ghost predicate AllSelect(items: seq<Item>, tc: TestCaseInfo) {
    forall j :: 0 <= j < |items| ==> ItemSelects(items[j], tc)
  }

  ghost predicate SomeFilterSelects(filters: seq<seq<Item>>, tc: TestCaseInfo) {
    exists i :: 0 <= i < |filters| && AllSelect(filters[i], tc)
  }

  lemma BuildMeans(item: Item, tc: TestCaseInfo)
    ensures PatternMatches(Build(item), tc) <==> ItemSelects(item, tc)
  {
    MakeNameMeans(item.token, tc);
    MakeTagMeans(item.token, tc);
    var p := Build(item.(negated := false));
    assert PatternMatches(ExcludedPattern(p), tc) == !PatternMatches(p, tc);
  }

  lemma BuildFilterMeans(items: seq<Item>, tc: TestCaseInfo)
    ensures FilterSelects(BuildFilter(items), tc) <==> AllSelect(items, tc)
  {
    forall j | 0 <= j < |items| ensures PatternMatches(BuildFilter(items)[j], tc) <==> ItemSelects(items[j], tc) {
      BuildMeans(items[j], tc);
    }
  }

  lemma BuildSpecMeans(filters: seq<seq<Item>>, tc: TestCaseInfo)
    ensures SpecSelects(BuildSpec(filters), tc) <==> SomeFilterSelects(filters, tc)
  {
    var spec := BuildSpec(filters);
    forall i | 0 <= i < |filters| ensures FilterSelects(spec[i], tc) <==> AllSelect(filters[i], tc) {
      BuildFilterMeans(filters[i], tc);
    }
    if SomeFilterSelects(filters, tc) {
      var i :| 0 <= i < |filters| && AllSelect(filters[i], tc);
      assert FilterSelects(spec[i], tc);
    }
  }

  /** The parsed text selects exactly the test cases its items ask for. */
  lemma ParsedSpecSelects(filters: seq<seq<Item>>, tc: TestCaseInfo)
    requires PrintableSpec(filters)
    ensures SpecSelects(ParseTestSpec(Print(filters)), tc) <==> SomeFilterSelects(filters, tc)
  {
    RoundTrip(filters);
    BuildSpecMeans(filters, tc);
  }
}
