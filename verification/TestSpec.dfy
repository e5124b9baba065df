/**
 Catch test specs: patterns over test case names and tags, filters (all patterns match) and
 specs (any filter matches).
 */
module TestSpec {

  datatype TestCaseInfo = TestCaseInfo(name: string, tags: set<string>)

  datatype WildcardPosition = NoWildcard | WildcardAtStart | WildcardAtEnd | WildcardAtBothEnds

  datatype Pattern =
    | NamePattern(name: string, wildcard: WildcardPosition)
    | TagPattern(tag: string)
    | ExcludedPattern(underlying: Pattern)

  type Filter = seq<Pattern>
  type Spec = seq<Filter>

  function LowerChar(c: char): char {
    if 'A' <= c <= 'Z' then c - 'A' + 'a' else c
  }

  function ToLower(s: string): (l: string)
    ensures |l| == |s|
  {
    seq(|s|, i requires 0 <= i < |s| => LowerChar(s[i]))
  }

  /** `lcaseTags`, which the source fills in when it registers the test. */
  function LcaseTags(tc: TestCaseInfo): set<string> {
    set tag | tag in tc.tags :: ToLower(tag)
  }

  predicate StartsWith(s: string, prefix: string) {
    |s| >= |prefix| && s[..|prefix|] == prefix
  }

  predicate EndsWith(s: string, suffix: string) {
    |s| >= |suffix| && s[|s| - |suffix|..] == suffix
  }

  predicate OccursAt(s: string, infix: string, i: int) {
    0 <= i <= |s| - |infix| && s[i..i + |infix|] == infix
  }

  ghost predicate Contains(s: string, infix: string) {
    exists i :: OccursAt(s, infix, i)
  }

  /** The `NamePattern` constructor: lower case, then strip one star at each end. */
  function MakeName(token: string): Pattern {
    var t := ToLower(token);
    var atStart := StartsWith(t, "*");
    var u := if atStart then t[1..] else t;
    if EndsWith(u, "*")
    then NamePattern(u[..|u| - 1], if atStart then WildcardAtBothEnds else WildcardAtEnd)
    else NamePattern(u, if atStart then WildcardAtStart else NoWildcard)
  }

  function MakeTag(token: string): Pattern {
    TagPattern(ToLower(token))
  }

  ghost predicate PatternMatches(p: Pattern, tc: TestCaseInfo) {
    match p
    case NamePattern(name, w) =>
      (match w
       case NoWildcard => name == ToLower(tc.name)
       case WildcardAtStart => EndsWith(ToLower(tc.name), name)
       case WildcardAtEnd => StartsWith(ToLower(tc.name), name)
       case WildcardAtBothEnds => Contains(ToLower(tc.name), name))
    case TagPattern(tag) => tag in LcaseTags(tc)
    case ExcludedPattern(q) => !PatternMatches(q, tc)
  }

  /** `std::string::find` as a search for the first occurrence. */
  method Find(s: string, infix: string) returns (found: bool)
    ensures found <==> Contains(s, infix)
  {
    var i := 0;
    while i <= |s| - |infix|
      invariant 0 <= i && forall j :: 0 <= j < i ==> !OccursAt(s, infix, j)
    {
      if s[i..i + |infix|] == infix {
        assert OccursAt(s, infix, i);
        return true;
      }
      i := i + 1;
    }
    return false;
  }

  method Matches(p: Pattern, tc: TestCaseInfo) returns (b: bool)
    ensures b <==> PatternMatches(p, tc)
    decreases p
  {
    match p
    case NamePattern(name, w) =>
      if w.WildcardAtBothEnds? {
        b := Find(ToLower(tc.name), name);
      } else {
        b := match w
             case NoWildcard => name == ToLower(tc.name)
             case WildcardAtStart => EndsWith(ToLower(tc.name), name)
             case WildcardAtEnd => StartsWith(ToLower(tc.name), name);
      }
    case TagPattern(tag) => b := tag in LcaseTags(tc);
    case ExcludedPattern(q) =>
      b := Matches(q, tc);
      b := !b;
  }

  ghost predicate FilterSelects(f: Filter, tc: TestCaseInfo) {
    forall i :: 0 <= i < |f| ==> PatternMatches(f[i], tc)
  }

  ghost predicate SpecSelects(spec: Spec, tc: TestCaseInfo) {
    exists i :: 0 <= i < |spec| && FilterSelects(spec[i], tc)
  }

  method FilterMatches(f: Filter, tc: TestCaseInfo) returns (b: bool)
    ensures b <==> FilterSelects(f, tc)
  {
    for i := 0 to |f|
      invariant forall j :: 0 <= j < i ==> PatternMatches(f[j], tc)
    {
      var m := Matches(f[i], tc);
      if !m {
        return false;
      }
    }
    return true;
  }

  method SpecMatches(spec: Spec, tc: TestCaseInfo) returns (b: bool)
    ensures b <==> SpecSelects(spec, tc)
  {
    for i := 0 to |spec|
      invariant forall j :: 0 <= j < i ==> !FilterSelects(spec[j], tc)
    {
      var m := FilterMatches(spec[i], tc);
      if m {
        return true;
      }
    }
    return false;
  }

  // ---------------------------------------------------------- what patterns mean

  /** The same character, or one letter of the Latin alphabet in either case. */
  predicate SameChar(c: char, d: char) {
    || c == d
    || ('A' <= c <= 'Z' && d as int == c as int + 32)
    || ('A' <= d <= 'Z' && c as int == d as int + 32)
  }

  /** The same text, but for the case of letters. */
  predicate SameText(a: string, b: string) {
    |a| == |b| && forall i :: 0 <= i < |a| ==> SameChar(a[i], b[i])
  }

  /** The lower case has no capital, keeps all other characters and pairs 'A'..'Z' with 'a'..'z'. */
  lemma LowerCharIs(c: char)
    ensures !('A' <= LowerChar(c) <= 'Z') && LowerChar(LowerChar(c)) == LowerChar(c)
    ensures !('A' <= c <= 'Z') ==> LowerChar(c) == c
    ensures 'A' <= c <= 'Z' ==> LowerChar(c) as int == c as int + 32 && 'a' <= LowerChar(c) <= 'z'
  {
  }

  lemma ToLowerIs(s: string)
    ensures ToLower(ToLower(s)) == ToLower(s) && SameText(s, ToLower(s))
    ensures forall i :: 0 <= i < |s| ==> !('A' <= ToLower(s)[i] <= 'Z')
  {
    forall i | 0 <= i < |s|
      ensures !('A' <= ToLower(s)[i] <= 'Z') && ToLower(ToLower(s))[i] == ToLower(s)[i] && SameChar(s[i], ToLower(s)[i])
    {
      LowerCharIs(s[i]);
    }
  }

  /** Lower cases are equal exactly when the texts differ in the case of letters only. */
  lemma LowerTexts(a: string, b: string)
    ensures ToLower(a) == ToLower(b) <==> SameText(a, b)
  {
    assert forall c: char, d: char :: LowerChar(c) == LowerChar(d) <==> SameChar(c, d);
    if ToLower(a) == ToLower(b) {
      assert |a| == |ToLower(a)| == |b|;
      assert forall i :: 0 <= i < |a| ==> ToLower(a)[i] == LowerChar(a[i]) && ToLower(b)[i] == LowerChar(b[i]);
    }
  }

  ghost predicate Joins(x: string, pre: string, body: string, post: string) {
    x == pre + body + post
  }

  /** `name` holds `body`, but for case, with anything before it if `before`, and anything after
      it if `after`. */
  ghost predicate Glob(name: string, body: string, before: bool, after: bool) {
    exists pre: string, mid: string, post: string ::
      Joins(name, pre, mid, post) && SameText(mid, body) && (before || pre == "") && (after || post == "")
  }

  /** What a name token asks for: one star at either end stands for any text. */
  ghost predicate NameMeans(token: string, name: string) {
    var before := StartsWith(token, "*");
    var rest := if before then token[1..] else token;
    var after := EndsWith(rest, "*");
    Glob(name, if after then rest[..|rest| - 1] else rest, before, after)
  }

  ghost predicate LowerGlob(x: string, low: string, before: bool, after: bool) {
    exists pre: string, post: string ::
      Joins(x, pre, low, post) && (before || pre == "") && (after || post == "")
  }

  lemma ToLowerJoins(pre: string, mid: string, post: string)
    ensures ToLower(pre + mid + post) == ToLower(pre) + ToLower(mid) + ToLower(post)
  {
  }

  lemma GlobIsLower(name: string, body: string, before: bool, after: bool)
    requires Glob(name, body, before, after)
    ensures LowerGlob(ToLower(name), ToLower(body), before, after)
  {
    var pre: string, mid: string, post: string :|
      Joins(name, pre, mid, post) && SameText(mid, body) && (before || pre == "") && (after || post == "");
    hide SameText;
    ToLowerJoins(pre, mid, post);
    LowerTexts(mid, body);
    assert Joins(ToLower(name), ToLower(pre), ToLower(body), ToLower(post));
  }

  lemma LowerSlice(s: string, i: nat, j: nat)
    requires i <= j <= |s|
    ensures ToLower(s[i..j]) == ToLower(s)[i..j]
  {
  }

  lemma LowerIsGlob(name: string, body: string, before: bool, after: bool)
    requires LowerGlob(ToLower(name), ToLower(body), before, after)
    ensures Glob(name, body, before, after)
  {
    hide SameText, ToLower;
    var x, low := ToLower(name), ToLower(body);
    var pre: string, post: string :| Joins(x, pre, low, post) && (before || pre == "") && (after || post == "");
    var i, j := |pre|, |pre| + |low|;
    assert x[i..j] == low;
    LowerSlice(name, i, j);
    LowerTexts(name[i..j], body);
    assert Joins(name, name[..i], name[i..j], name[j..]);
  }

  /** Ignoring case is comparing lower cases. */
  lemma GlobLower(name: string, body: string, before: bool, after: bool)
    ensures Glob(name, body, before, after) <==> LowerGlob(ToLower(name), ToLower(body), before, after)
  {
    if Glob(name, body, before, after) {
      GlobIsLower(name, body, before, after);
    }
    if LowerGlob(ToLower(name), ToLower(body), before, after) {
      LowerIsGlob(name, body, before, after);
    }
  }

  lemma GlobNone(x: string, body: string)
    ensures LowerGlob(x, body, false, false) <==> x == body
  {
    assert x == body ==> Joins(x, "", body, "");
  }

  lemma GlobStart(x: string, body: string)
    ensures LowerGlob(x, body, true, false) <==> EndsWith(x, body)
  {
    if EndsWith(x, body) {
      assert Joins(x, x[..|x| - |body|], body, "");
    }
  }

  lemma GlobEnd(x: string, body: string)
    ensures LowerGlob(x, body, false, true) <==> StartsWith(x, body)
  {
    if StartsWith(x, body) {
      assert Joins(x, "", body, x[|body|..]);
    }
  }

  lemma GlobBoth(x: string, body: string)
    ensures LowerGlob(x, body, true, true) <==> Contains(x, body)
  {
    if Contains(x, body) {
      var i :| OccursAt(x, body, i);
      assert Joins(x, x[..i], body, x[i + |body|..]);
    }
    if LowerGlob(x, body, true, true) {
      var pre: string, post: string :| Joins(x, pre, body, post);
      assert OccursAt(x, body, |pre|);
    }
  }

  /** The parts of a token and of its lower case. */
  lemma StripLower(token: string)
    ensures StartsWith(ToLower(token), "*") <==> StartsWith(token, "*")
    ensures StartsWith(token, "*") ==> ToLower(token)[1..] == ToLower(token[1..])
    ensures EndsWith(ToLower(token), "*") <==> EndsWith(token, "*")
    ensures EndsWith(token, "*") ==> ToLower(token)[..|token| - 1] == ToLower(token[..|token| - 1])
  {
    assert forall c: char :: LowerChar(c) == '*' <==> c == '*';
    if |token| >= 1 {
      assert token[..1] == "*" <==> token[0] == '*';
      assert token[|token| - 1..] == "*" <==> token[|token| - 1] == '*';
      assert ToLower(token)[..1] == "*" <==> ToLower(token)[0] == '*';
      assert ToLower(token)[|token| - 1..] == "*" <==> ToLower(token)[|token| - 1] == '*';
    }
  }

  /** The stripped pattern with its wildcard position means what the token says. */
  lemma MakeNameMeans(token: string, tc: TestCaseInfo)
    ensures PatternMatches(MakeName(token), tc) <==> NameMeans(token, tc.name)
  {
    var before := StartsWith(token, "*");
    var rest := if before then token[1..] else token;
    var after := EndsWith(rest, "*");
    var body := if after then rest[..|rest| - 1] else rest;
    StripLower(token);
    StripLower(rest);
    var x := ToLower(tc.name);
    GlobLower(tc.name, body, before, after);
    GlobNone(x, ToLower(body));
    GlobStart(x, ToLower(body));
    GlobEnd(x, ToLower(body));
    GlobBoth(x, ToLower(body));
  }

  /** A tag pattern asks for a tag of the test, but for case. */
  lemma MakeTagMeans(token: string, tc: TestCaseInfo)
    ensures PatternMatches(MakeTag(token), tc) <==> exists tag <- tc.tags :: SameText(token, tag)
  {
    forall tag | tag in tc.tags ensures ToLower(token) == ToLower(tag) <==> SameText(token, tag) {
      LowerTexts(token, tag);
    }
  }

  /** Names and tokens that differ only in the case of letters get the same answer. */
  lemma CaseIsIgnored(token: string, token': string, tc: TestCaseInfo, tc': TestCaseInfo)
    requires SameText(token, token') && SameText(tc.name, tc'.name)
    ensures PatternMatches(MakeName(token), tc) <==> PatternMatches(MakeName(token'), tc')
    ensures tc.tags == tc'.tags ==> (PatternMatches(MakeTag(token), tc) <==> PatternMatches(MakeTag(token'), tc'))
  {
    LowerTexts(token, token');
    LowerTexts(tc.name, tc'.name);
  }

  /** A token without stars at its ends matches exactly the names that differ from it in the case
      of letters only; any other difference is a miss. */
  lemma PlainNameMeans(token: string, tc: TestCaseInfo)
    requires !StartsWith(token, "*") && !EndsWith(token, "*")
    ensures PatternMatches(MakeName(token), tc) <==> SameText(token, tc.name)
  {
    StripLower(token);
    LowerTexts(token, tc.name);
  }
}
