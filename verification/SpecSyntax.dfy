/**
 Test specs as they are written on the command line: bare names, quoted names and tags, with
 spaces, `~` and `exclude:` in front, and several arguments for one spec.
 */
module SpecSyntax {
  import opened TestSpec
  import opened SpecParser

  // ------------------------------------------------------------------- syntax

  datatype Form = Bare | Quoted | Tagged | ExcludedTag

  /** `lead` is any mix of spaces and `~`; `exclude` puts `exclude:` before the token. */
  datatype Written = Written(lead: string, form: Form, exclude: bool, token: string)

  function Raw(w: Written): string {
    (if w.exclude then EXCLUDE else "") + w.token
  }

  function Body(w: Written): string {
    match w.form
    case Bare => Raw(w)
    case Quoted => "\"" + Raw(w) + "\""
    case Tagged => "[" + Raw(w) + "]"
    case ExcludedTag => EXCLUDE + ("[" + Raw(w) + "]")
  }

  function Text(w: Written): string {
    w.lead + Body(w)
  }

  function FilterText(ws: seq<Written>): string {
    if ws == [] then "" else Text(ws[0]) + FilterText(ws[1..])
  }

  /** Filters are separated by commas. */
  function SpecText(fs: seq<seq<Written>>): string {
    if fs == [] then ""
    else if |fs| == 1 then FilterText(fs[0])
    else FilterText(fs[0]) + "," + SpecText(fs[1..])
  }

  /** What was meant. */
  function Meant(w: Written): Item {
    Item('~' in w.lead || w.exclude || w.form.ExcludedTag?, w.form.Tagged? || w.form.ExcludedTag?, w.token)
  }

  function AllMeant(ws: seq<Written>): (items: seq<Item>)
    ensures |items| == |ws|
  {
    seq(|ws|, i requires 0 <= i < |ws| => Meant(ws[i]))
  }

  function SpecMeant(fs: seq<seq<Written>>): (spec: seq<seq<Item>>)
    ensures |spec| == |fs|
  {
    seq(|fs|, i requires 0 <= i < |fs| => AllMeant(fs[i]))
  }

  predicate NoClose(raw: string, close: char) {
    raw != "" && forall i :: 1 <= i < |raw| ==> raw[i] != close
  }

  /** A token is not empty, and says `exclude:` only where that is meant.  A bare name has no comma
      and no opening bracket and does not look like a lead or a quote; others have no closing
      delimiter after their first character. */
  predicate WellWritten(w: Written) {
    && (forall c <- w.lead :: c == ' ' || c == '~')
    && w.token != "" && (w.exclude || !StartsWith(w.token, EXCLUDE))
    && match w.form
       case Bare =>
         (forall c <- w.token :: c != ',' && c != '[') && (w.exclude || w.token[0] !in " ~\"")
       case Quoted => NoClose(Raw(w), '"')
       case _ => NoClose(Raw(w), ']')
  }

  /** A bare name ends at a comma, at the end of the text, or where a tag opens. */
  predicate WellJoined(ws: seq<Written>) {
    forall i :: 0 <= i < |ws| - 1 && ws[i].form.Bare? ==> ws[i + 1].form.Tagged? && ws[i + 1].lead == ""
  }

  predicate WellWrittenFilter(ws: seq<Written>) {
    ws != [] && WellJoined(ws) && forall i :: 0 <= i < |ws| ==> WellWritten(ws[i])
  }

  predicate WellWrittenSpec(fs: seq<seq<Written>>) {
    forall i :: 0 <= i < |fs| ==> WellWrittenFilter(fs[i])
  }

  // ------------------------------------------------------------ scanning tokens

  lemma ScanLeadChar(arg: string, s: ParseState)
    requires s.mode == None && s.pos < |arg| && (arg[s.pos] == ' ' || arg[s.pos] == '~')
    ensures Run(arg, s) == Run(arg, s.(exclusion := s.exclusion || arg[s.pos] == '~', pos := s.pos + 1))
  {
  }

  lemma {:induction false} ScanLead(arg: string, s: ParseState, lead: string)
    requires s.mode == None && TextAt(arg, s.pos, lead) && forall c <- lead :: c == ' ' || c == '~'
    ensures Run(arg, s) == Run(arg, s.(exclusion := s.exclusion || '~' in lead, pos := s.pos + |lead|))
    decreases |lead|
  {
    hide Run;
    if lead != "" {
      assert lead == [lead[0]] + lead[1..] && lead[0] in lead && forall c <- lead[1..] :: c in lead;
      TextAtParts(arg, s.pos, [lead[0]], lead[1..]);
      FirstChar(arg, s.pos, [lead[0]]);
      ScanLeadChar(arg, s);
      ScanLead(arg, s.(exclusion := s.exclusion || lead[0] == '~', pos := s.pos + 1), lead[1..]);
    }
  }

  function Opens(isTag: bool): char {
    if isTag then '[' else '"'
  }

  function Closes(isTag: bool): char {
    if isTag then ']' else '"'
  }

  lemma ScanOpening(arg: string, s: ParseState, isTag: bool)
    requires s.mode == None && s.pos < |arg| && arg[s.pos] == Opens(isTag)
    ensures Run(arg, s) == Run(arg, s.(mode := if isTag then Tag else QuotedName, start := s.pos + 1, pos := s.pos + 2))
  {
  }

  /** A quoted name or a tag. */
  lemma ScanDelimited(arg: string, s: ParseState, isTag: bool, raw: string) returns (t: ParseState)
    requires s.mode == None && NoClose(raw, Closes(isTag))
    requires TextAt(arg, s.pos, [Opens(isTag)] + raw + [Closes(isTag)])
    ensures Between(t) && t.pos == s.pos + |raw| + 2 && t.spec == s.spec && Run(arg, s) == Run(arg, t)
    ensures t.filter == s.filter + TokenItems(isTag, s.exclusion, raw)
  {
    hide Run, TokenItems, TextAt;
    var item, start := Item(s.exclusion, isTag, raw), s.pos + 1;
    DelimitedAt(arg, s.pos, isTag, raw);
    ScanOpening(arg, s, isTag);
    var u := s.(mode := ItemMode(item), start := start, pos := start + 1);
    ScanToken(arg, u, Closes(isTag), start + |raw|);
    ScanClose(arg, u.(pos := start + |raw|), item);
    t := u.(mode := None, exclusion := false, pos := start + |raw| + 1,
            filter := s.filter + TokenItems(isTag, s.exclusion, raw));
  }

  lemma DelimitedAt(arg: string, p: nat, isTag: bool, raw: string)
    requires NoClose(raw, Closes(isTag)) && TextAt(arg, p, [Opens(isTag)] + raw + [Closes(isTag)])
    ensures p + 1 + |raw| < |arg| && arg[p] == Opens(isTag) && arg[p + 1 + |raw|] == Closes(isTag)
    ensures arg[p + 1..p + 1 + |raw|] == raw
    ensures forall i :: p + 2 <= i < p + 1 + |raw| ==> arg[i] != Closes(isTag)
  {
    TextAtParts(arg, p, [Opens(isTag)] + raw, [Closes(isTag)]);
    TextAtParts(arg, p, [Opens(isTag)], raw);
    FirstChar(arg, p, [Opens(isTag)]);
    FirstChar(arg, p + 1 + |raw|, [Closes(isTag)]);
    assert forall i :: p + 1 <= i < p + 1 + |raw| ==> arg[i] == raw[i - p - 1];
  }

  lemma StartName(arg: string, s: ParseState)
    requires s.mode == None && s.pos < |arg| && arg[s.pos] !in " ~\"[,"
    ensures Run(arg, s) == Run(arg, s.(mode := Name, start := s.pos, pos := s.pos + 1))
  {
  }

  lemma {:induction false} ScanName(arg: string, s: ParseState, end: nat)
    requires Sane(arg, s) && s.mode == Name && s.pos <= end <= |arg|
    requires forall i :: s.pos <= i < end ==> arg[i] != ',' && arg[i] != '['
    ensures Run(arg, s) == Run(arg, s.(pos := end))
    decreases end - s.pos
  {
    if s.pos < end {
      ScanName(arg, s.(pos := s.pos + 1), end);
    }
  }

  predicate BareText(raw: string) {
    raw != "" && raw[0] !in " ~\"" && forall c <- raw :: c != ',' && c != '['
  }

  lemma ScanBare(arg: string, s: ParseState, raw: string)
    requires s.mode == None && TextAt(arg, s.pos, raw) && BareText(raw)
    ensures Run(arg, s) == Run(arg, s.(mode := Name, start := s.pos, pos := s.pos + |raw|))
    ensures arg[s.pos..s.pos + |raw|] == raw
  {
    hide Run;
    assert forall i :: s.pos <= i < s.pos + |raw| ==> arg[i] == raw[i - s.pos] && raw[i - s.pos] in raw;
    StartName(arg, s);
    ScanName(arg, s.(mode := Name, start := s.pos, pos := s.pos + 1), s.pos + |raw|);
  }

  /** A bare name up to an opening bracket; `exclude:` there belongs to the tag. */
  lemma ScanBareToTag(arg: string, s: ParseState, raw: string) returns (t: ParseState)
    requires s.mode == None && BareText(raw) && TextAt(arg, s.pos, raw)
    requires s.pos + |raw| < |arg| && arg[s.pos + |raw|] == '['
    ensures t.mode == None && t.pos == s.pos + |raw| && t.spec == s.spec && Run(arg, s) == Run(arg, t)
    ensures t.exclusion == (raw == EXCLUDE)
    ensures t.filter == if raw == EXCLUDE then s.filter else s.filter + TokenItems(false, s.exclusion, raw)
  {
    ScanBare(arg, s, raw);
    var end := s.pos + |raw|;
    var u := s.(mode := Name, start := s.pos, pos := end);
    t := if raw == EXCLUDE then s.(exclusion := true, pos := end)
         else s.(exclusion := false, pos := end, filter := s.filter + TokenItems(false, s.exclusion, raw));
    BracketAfterName(arg, u, t);
  }

  lemma BracketAfterName(arg: string, u: ParseState, t: ParseState)
    requires Ready(arg, u) && u.mode == Name && arg[u.pos] == '['
    requires var token := arg[u.start..u.pos];
             t.(start := 0) == (if token == EXCLUDE then u.(exclusion := true) else PatternAdded(arg, u, false)).(mode := None, start := 0)
    ensures Run(arg, u) == Run(arg, t)
  {
    hide TokenItems;
    assert Visit(arg, u) == Visit(arg, t);
  }

  /** A bare name up to a comma, which ends the filter. */
  lemma ScanBareToComma(arg: string, s: ParseState, raw: string) returns (t: ParseState)
    requires s.mode == None && BareText(raw) && TextAt(arg, s.pos, raw + ",")
    requires s.filter + TokenItems(false, s.exclusion, raw) != []
    ensures Between(t) && t.pos == s.pos + |raw| + 1 && t.filter == [] && Run(arg, s) == Run(arg, t)
    ensures t.spec == s.spec + [s.filter + TokenItems(false, s.exclusion, raw)]
  {
    hide TokenItems;
    TextAtParts(arg, s.pos, raw, ",");
    assert arg[s.pos + |raw| + 0] == ","[0];
    ScanBare(arg, s, raw);
    var u := s.(mode := Name, start := s.pos, pos := s.pos + |raw|);
    t := FilterAdded(PatternAdded(arg, u, false)).(pos := s.pos + |raw| + 1);
    assert Visit(arg, u) == FilterAdded(PatternAdded(arg, u, false));
  }

  /** A bare name up to the end of the text, where `parse` adds it. */
  lemma ScanBareToEnd(arg: string, s: ParseState, raw: string)
    requires s.mode == None && BareText(raw) && TextAt(arg, s.pos, raw) && s.pos + |raw| == |arg|
    ensures var e := Run(arg, s);
            && e.mode == Name
            && var f := PatternAdded(arg, e, false);
               f.spec == s.spec && f.filter == s.filter + TokenItems(false, s.exclusion, raw)
  {
    hide Run, TokenItems, TextAt, BareText;
    ScanBare(arg, s, raw);
    RunEnd(arg, s.(mode := Name, start := s.pos, pos := |arg|));
  }

  // ------------------------------------------------------------- scanning items

  /** Stripping `exclude:` negates; the rest of the token is kept. */
  lemma RawItems(w: Written, isTag: bool, exclusion: bool)
    requires WellWritten(w)
    ensures TokenItems(isTag, exclusion, Raw(w)) == [Item(exclusion || w.exclude, isTag, w.token)]
    ensures w.form.Bare? ==> BareText(Raw(w)) && Raw(w) != EXCLUDE
  {
    if w.exclude {
      assert Raw(w)[..|EXCLUDE|] == EXCLUDE && Raw(w)[|EXCLUDE|..] == w.token;
      assert forall c <- EXCLUDE :: c != ',' && c != '[';
    } else {
      assert Raw(w) == w.token;
    }
  }

  /** A written item that is not ended by a comma or the end of the text. */
  lemma ScanWritten(arg: string, s: ParseState, w: Written) returns (t: ParseState)
    requires Between(s) && WellWritten(w) && TextAt(arg, s.pos, Text(w))
    requires w.form.Bare? ==> s.pos + |Text(w)| < |arg| && arg[s.pos + |Text(w)|] == '['
    ensures Between(t) && t.pos == s.pos + |Text(w)| && t.spec == s.spec && Run(arg, s) == Run(arg, t)
    ensures t.filter == s.filter + [Meant(w)]
  {
    hide Run, TokenItems, TextAt, Raw, WellWritten, StartsWith;
    LeadChars(w);
    TextAtParts(arg, s.pos, w.lead, Body(w));
    ScanLead(arg, s, w.lead);
    var u := s.(exclusion := '~' in w.lead, pos := s.pos + |w.lead|);
    match w.form
    case Bare =>
      RawItems(w, false, u.exclusion);
      t := ScanBareToTag(arg, u, Raw(w));
    case Quoted =>
      RawItems(w, false, u.exclusion);
      assert "\"" + Raw(w) + "\"" == [Opens(false)] + Raw(w) + [Closes(false)];
      RawCloses(w);
      t := ScanDelimited(arg, u, false, Raw(w));
    case Tagged =>
      RawItems(w, true, u.exclusion);
      assert "[" + Raw(w) + "]" == [Opens(true)] + Raw(w) + [Closes(true)];
      RawCloses(w);
      t := ScanDelimited(arg, u, true, Raw(w));
    case ExcludedTag =>
      RawItems(w, true, true);
      assert "[" + Raw(w) + "]" == [Opens(true)] + Raw(w) + [Closes(true)];
      RawCloses(w);
      TextAtParts(arg, u.pos, EXCLUDE, "[" + Raw(w) + "]");
      FirstChar(arg, u.pos + |EXCLUDE|, "[" + Raw(w) + "]");
      ExcludeIsBare();
      var v := ScanBareToTag(arg, u, EXCLUDE);
      t := ScanDelimited(arg, v, true, Raw(w));
  }

  lemma LeadChars(w: Written)
    requires WellWritten(w)
    ensures forall c <- w.lead :: c == ' ' || c == '~'
  {
  }

  lemma RawCloses(w: Written)
    requires WellWritten(w)
    ensures w.form.Quoted? ==> NoClose(Raw(w), '"')
    ensures w.form.Tagged? || w.form.ExcludedTag? ==> NoClose(Raw(w), ']')
  {
  }

  lemma FirstChar(arg: string, p: nat, text: string)
    requires text != "" && TextAt(arg, p, text)
    ensures p < |arg| && arg[p] == text[0]
  {
    assert arg[p + 0] == text[0];
  }

  lemma ExcludeIsBare()
    ensures BareText(EXCLUDE)
  {
  }

  // ----------------------------------------------------------- scanning filters

  lemma {:induction false} FilterTextAppend(ws: seq<Written>, w: Written)
    ensures FilterText(ws + [w]) == FilterText(ws) + Text(w)
    decreases |ws|
  {
    if ws == [] {
      assert ws + [w] == [w] && [w][1..] == [];
    } else {
      assert (ws + [w])[1..] == ws[1..] + [w];
      FilterTextAppend(ws[1..], w);
    }
  }

  /** What a filter's text is followed by, if it ends in a bare name. */
  predicate BracketAfter(arg: string, p: nat, ws: seq<Written>) {
    ws != [] && ws[|ws| - 1].form.Bare? ==> p < |arg| && arg[p] == '['
  }

  lemma {:induction false} ScanItems(arg: string, s: ParseState, ws: seq<Written>) returns (t: ParseState)
    requires Between(s) && TextAt(arg, s.pos, FilterText(ws)) && WellJoined(ws)
    requires forall i :: 0 <= i < |ws| ==> WellWritten(ws[i])
    requires BracketAfter(arg, s.pos + |FilterText(ws)|, ws)
    ensures Between(t) && t.pos == s.pos + |FilterText(ws)| && t.spec == s.spec && Run(arg, s) == Run(arg, t)
    ensures t.filter == s.filter + AllMeant(ws)
    decreases |ws|
  {
    hide Run, TextAt, WellWritten, Text, Meant;
    if ws == [] {
      t := s;
    } else {
      var w, rest := ws[0], ws[1..];
      TextAtParts(arg, s.pos, Text(w), FilterText(rest));
      if w.form.Bare? && rest != [] {
        TagOpensText(arg, s.pos + |Text(w)|, rest);
      }
      var u := ScanWritten(arg, s, w);
      assert forall i :: 0 <= i < |rest| ==> rest[i] == ws[i + 1];
      t := ScanItems(arg, u, rest);
      assert AllMeant(ws) == [Meant(w)] + AllMeant(rest);
    }
  }

  lemma TagOpensText(arg: string, p: nat, ws: seq<Written>)
    requires ws != [] && ws[0].form.Tagged? && ws[0].lead == "" && TextAt(arg, p, FilterText(ws))
    ensures p < |arg| && arg[p] == '['
  {
    assert FilterText(ws)[0] == Text(ws[0])[0] == Body(ws[0])[0] == '[';
    FirstChar(arg, p, FilterText(ws));
  }

  /** All but the last item of a filter, and where the last one stands. */
  lemma ScanToLast(arg: string, s: ParseState, ws: seq<Written>) returns (t: ParseState)
    requires Between(s) && WellWrittenFilter(ws) && TextAt(arg, s.pos, FilterText(ws))
    ensures Between(t) && t.spec == s.spec && Run(arg, s) == Run(arg, t)
    ensures TextAt(arg, t.pos, Text(ws[|ws| - 1])) && t.pos + |Text(ws[|ws| - 1])| == s.pos + |FilterText(ws)|
    ensures WellWritten(ws[|ws| - 1]) && t.filter + [Meant(ws[|ws| - 1])] == s.filter + AllMeant(ws)
  {
    hide Run, TextAt, WellWritten, Text, Meant, FilterText;
    var n := |ws| - 1;
    var init, last := ws[..n], ws[n];
    assert ws == init + [last];
    FilterTextAppend(init, last);
    TextAtParts(arg, s.pos, FilterText(init), Text(last));
    if n > 0 && init[n - 1].form.Bare? {
      TagOpens(arg, s.pos + |FilterText(init)|, last);
    }
    t := ScanItems(arg, s, init);
    assert AllMeant(ws) == AllMeant(init) + [Meant(last)];
  }

  lemma TagOpens(arg: string, p: nat, w: Written)
    requires w.form.Tagged? && w.lead == "" && TextAt(arg, p, Text(w))
    ensures p < |arg| && arg[p] == '['
  {
    assert Text(w)[0] == Body(w)[0] == '[';
    FirstChar(arg, p, Text(w));
  }

  /** A filter and the comma after it. */
  lemma ScanFilter(arg: string, s: ParseState, ws: seq<Written>) returns (t: ParseState)
    requires Between(s) && WellWrittenFilter(ws) && TextAt(arg, s.pos, FilterText(ws) + ",")
    ensures Between(t) && t.filter == [] && t.pos == s.pos + |FilterText(ws)| + 1 && Run(arg, s) == Run(arg, t)
    ensures t.spec == s.spec + [s.filter + AllMeant(ws)]
  {
    hide Run, TokenItems, WellWritten, Body, Raw, FilterText, TextAt;
    var last := ws[|ws| - 1];
    TextAtParts(arg, s.pos, FilterText(ws), ",");
    var u := ScanToLast(arg, s, ws);
    if last.form.Bare? {
      LeadChars(last);
      TextAtParts(arg, u.pos, last.lead, Body(last));
      ScanLead(arg, u, last.lead);
      var v := u.(exclusion := '~' in last.lead, pos := u.pos + |last.lead|);
      RawItems(last, false, v.exclusion);
      BareBody(last);
      TextAtJoin(arg, v.pos, Raw(last), ",");
      t := ScanBareToComma(arg, v, Raw(last));
    } else {
      var v := ScanWritten(arg, u, last);
      ScanComma(arg, v);
      t := v.(start := v.pos, pos := v.pos + 1, filter := [], spec := v.spec + [v.filter]);
    }
  }

  lemma BareBody(w: Written)
    requires w.form.Bare?
    ensures Body(w) == Raw(w)
  {
  }

  lemma TextAtJoin(arg: string, p: nat, a: string, b: string)
    requires TextAt(arg, p, a) && TextAt(arg, p + |a|, b)
    ensures TextAt(arg, p, a + b)
  {
    forall i | 0 <= i < |a + b| ensures p + i < |arg| && arg[p + i] == (a + b)[i] {
      if i >= |a| {
        assert arg[p + |a| + (i - |a|)] == b[i - |a|];
      }
    }
  }

  /** The last filter, up to the end of the text. */
  lemma ScanLastFilter(arg: string, s: ParseState, ws: seq<Written>)
    requires Between(s) && WellWrittenFilter(ws)
    requires TextAt(arg, s.pos, FilterText(ws)) && s.pos + |FilterText(ws)| == |arg|
    ensures var e := Run(arg, s);
            var f := if e.mode == Name then PatternAdded(arg, e, false) else e;
            f.spec == s.spec && f.filter == s.filter + AllMeant(ws)
  {
    hide Run, TokenItems, WellWritten, Body, Raw, FilterText, TextAt, PatternAdded, BareText, StartsWith;
    var last := ws[|ws| - 1];
    var u := ScanToLast(arg, s, ws);
    if last.form.Bare? {
      LeadChars(last);
      TextAtParts(arg, u.pos, last.lead, Body(last));
      ScanLead(arg, u, last.lead);
      var v := u.(exclusion := '~' in last.lead, pos := u.pos + |last.lead|);
      RawItems(last, false, v.exclusion);
      BareBody(last);
      ScanBareToEnd(arg, v, Raw(last));
    } else {
      var v := ScanWritten(arg, u, last);
      RunEnd(arg, v);
    }
  }

  /** All filters but the last.  The first one continues the filter at hand. */
  lemma {:induction false} ScanToLastFilter(arg: string, s: ParseState, fs: seq<seq<Written>>) returns (t: ParseState)
    requires Between(s) && fs != [] && WellWrittenSpec(fs) && TextAt(arg, s.pos, SpecText(fs))
    ensures Between(t) && Run(arg, s) == Run(arg, t)
    ensures var last := fs[|fs| - 1];
            && TextAt(arg, t.pos, FilterText(last)) && t.pos + |FilterText(last)| == s.pos + |SpecText(fs)|
            && t.spec + [t.filter + AllMeant(last)] == s.spec + [s.filter + AllMeant(fs[0])] + SpecMeant(fs[1..])
    decreases |fs|
  {
    hide Run, TextAt, FilterText, AllMeant, WellWrittenFilter;
    if |fs| == 1 {
      t := s;
    } else {
      TextAtParts(arg, s.pos, FilterText(fs[0]) + ",", SpecText(fs[1..]));
      var u := ScanFilter(arg, s, fs[0]);
      assert forall i :: 0 <= i < |fs[1..]| ==> fs[1..][i] == fs[i + 1];
      t := ScanToLastFilter(arg, u, fs[1..]);
      assert [] + AllMeant(fs[1]) == AllMeant(fs[1]);
      assert SpecMeant(fs[1..]) == [AllMeant(fs[1])] + SpecMeant(fs[1..][1..]);
    }
  }

  // ---------------------------------------------------------------- whole texts

  /** Filters with the one at hand, if there is one, as the last. */
  function Collected(s: ParseState): seq<seq<Item>> {
    FilterAdded(s).spec
  }

  /** Two specs one after the other: the last filter of the first goes on with the first filter of
      the second. */
  function Join(a: seq<seq<Item>>, b: seq<seq<Item>>): seq<seq<Item>> {
    if a == [] then b
    else if b == [] then a
    else a[..|a| - 1] + [a[|a| - 1] + b[0]] + b[1..]
  }

  /** A parser that has collected only whole arguments has a filter at hand, unless it is empty. */
  predicate AtArgument(s: ParseState) {
    s.filter == [] ==> s.spec == []
  }

  /** Parsing one more argument. */
  lemma ParsedJoins(s: ParseState, fs: seq<seq<Written>>)
    requires AtArgument(s) && WellWrittenSpec(fs)
    ensures var e := Parsed(SpecText(fs), s);
            AtArgument(e) && Collected(e) == Join(Collected(s), SpecMeant(fs))
  {
    hide Run, SpecText, WellWrittenFilter, FilterText, AllMeant, TextAt, PatternAdded;
    var arg := SpecText(fs);
    var from := s.(mode := None, exclusion := false, start := NPOS, pos := 0);
    if fs == [] {
      NoText();
      RunEnd(arg, from);
    } else {
      WholeText(arg);
      var t := ScanToLastFilter(arg, from, fs);
      ScanLastFilter(arg, t, fs[|fs| - 1]);
      MeantFilter(fs[0]);
      MeantFilter(fs[|fs| - 1]);
      assert SpecMeant(fs)[0] == AllMeant(fs[0]) && SpecMeant(fs)[1..] == SpecMeant(fs[1..]);
      assert s.filter == [] ==> s.filter + AllMeant(fs[0]) == AllMeant(fs[0]);
    }
  }

  lemma NoText()
    ensures SpecText([]) == ""
  {
  }

  lemma WholeText(arg: string)
    ensures TextAt(arg, 0, arg)
  {
  }

  lemma MeantFilter(ws: seq<Written>)
    requires WellWrittenFilter(ws)
    ensures AllMeant(ws) != []
  {
  }

  /** A well written spec, with bare names, quotes, tags and negations, parses to what was meant. */
  lemma WrittenMeans(fs: seq<seq<Written>>)
    requires WellWrittenSpec(fs)
    ensures ParseItems(SpecText(fs)) == SpecMeant(fs)
  {
    ParsedJoins(SpecParser.FRESH, fs);
  }

  /** It selects the tests that the meant items ask for. */
  lemma WrittenSelects(fs: seq<seq<Written>>, tc: TestCaseInfo)
    requires WellWrittenSpec(fs)
    ensures SpecSelects(ParseTestSpec(SpecText(fs)), tc) <==> SomeFilterSelects(SpecMeant(fs), tc)
  {
    WrittenMeans(fs);
    BuildSpecMeans(SpecMeant(fs), tc);
  }

  /** A quoted name or tag that is never closed is dropped. */
  lemma UnclosedIsDropped(fs: seq<seq<Written>>, isTag: bool, raw: string)
    requires WellWrittenSpec(fs)
    requires fs != [] ==> var last := fs[|fs| - 1]; last[|last| - 1].form.Bare? ==> isTag
    requires forall i :: 1 <= i < |raw| ==> raw[i] != Closes(isTag)
    ensures ParseItems(SpecText(fs) + ([Opens(isTag)] + raw)) == SpecMeant(fs)
  {
    hide Run, SpecText, WellWrittenFilter, FilterText, AllMeant, TextAt;
    var tail := [Opens(isTag)] + raw;
    var arg := SpecText(fs) + tail;
    WholeText(arg);
    if fs == [] {
      NoText();
      assert arg == tail;
      ScanUnclosed(arg, SpecParser.FRESH, isTag, raw);
    } else {
      var last := fs[|fs| - 1];
      TextAtParts(arg, 0, SpecText(fs), tail);
      var t := ScanToLastFilter(arg, SpecParser.FRESH, fs);
      FirstChar(arg, |SpecText(fs)|, tail);
      FilterParts(last);
      var u := ScanItems(arg, t, last);
      ScanUnclosed(arg, u, isTag, raw);
      MeantFilter(last);
      MeantFilter(fs[0]);
      assert SpecMeant(fs) == [AllMeant(fs[0])] + SpecMeant(fs[1..]);
      assert [] + AllMeant(fs[0]) == AllMeant(fs[0]);
    }
  }

  lemma FilterParts(ws: seq<Written>)
    requires WellWrittenFilter(ws)
    ensures ws != [] && WellJoined(ws) && forall i :: 0 <= i < |ws| ==> WellWritten(ws[i])
  {
  }

  lemma ScanUnclosed(arg: string, s: ParseState, isTag: bool, raw: string)
    requires Between(s) && TextAt(arg, s.pos, [Opens(isTag)] + raw) && s.pos + 1 + |raw| == |arg|
    requires forall i :: 1 <= i < |raw| ==> raw[i] != Closes(isTag)
    ensures var e := Run(arg, s); e.mode != None && e.mode != Name && e.spec == s.spec && e.filter == s.filter
  {
    hide Run;
    TextAtParts(arg, s.pos, [Opens(isTag)], raw);
    FirstChar(arg, s.pos, [Opens(isTag)]);
    ScanOpening(arg, s, isTag);
    var u := s.(mode := if isTag then Tag else QuotedName, start := s.pos + 1, pos := s.pos + 2);
    assert forall i :: s.pos + 2 <= i < |arg| ==> arg[i] == raw[i - s.pos - 1];
    ScanToEnd(arg, u, Closes(isTag));
  }

  lemma {:induction false} ScanToEnd(arg: string, s: ParseState, close: char)
    requires Sane(arg, s) && ((s.mode == Tag && close == ']') || (s.mode == QuotedName && close == '"'))
    requires forall i :: s.pos <= i < |arg| ==> arg[i] != close
    ensures var e := Run(arg, s); e.mode == s.mode && e.spec == s.spec && e.filter == s.filter
    decreases |arg| - s.pos
  {
    if s.pos < |arg| {
      ScanToEnd(arg, s.(pos := s.pos + 1), close);
    }
  }

  // ---------------------------------------------------------- several arguments

  function Joined(specs: seq<seq<seq<Item>>>): seq<seq<Item>> {
    if specs == [] then [] else Join(Joined(specs[..|specs| - 1]), specs[|specs| - 1])
  }

  /** The constructor of `Config`: one parser reads all arguments, each going on with the filter
      that the one before left open. */
  method ParseArguments(args: seq<string>, ghost specs: seq<seq<seq<Written>>>) returns (spec: Spec)
    requires |args| == |specs|
    requires forall i :: 0 <= i < |args| ==> args[i] == SpecText(specs[i]) && WellWrittenSpec(specs[i])
    ensures spec == BuildSpec(Joined(seq(|specs|, i requires 0 <= i < |specs| => SpecMeant(specs[i]))))
  {
    hide SpecText, WellWrittenSpec, Parsed, Join, BuildSpec;
    var parser := new TestSpecParser();
    ghost var meant := seq(|specs|, i requires 0 <= i < |specs| => SpecMeant(specs[i]));
    for i := 0 to |args|
      invariant parser.Valid() && fresh(parser) && AtArgument(parser.State())
      invariant Collected(parser.State()) == Joined(meant[..i])
    {
      ParsedJoins(parser.State(), specs[i]);
      parser.Parse(args[i]);
      assert meant[..i + 1][..i] == meant[..i];
    }
    assert meant[..|args|] == meant;
    spec := parser.TestSpec();
  }
}
