/**
 Catch's test case tracker, and what one run of a test does to it.

 The tracker owns a tree of tracked sections and points at the current one; here the
 pointer is the path from the root, so `getParent` drops its last key.
 */
module SectionTracker {
  import opened Sections

  // -------------------------------------------------------- places in the tree

  predicate PathIn(t: TrackedSection, p: Path)
    decreases |p|
  {
    p == [] || (p[0] in t.children && PathIn(t.children[p[0]], p[1..]))
  }

  function NodeAt(t: TrackedSection, p: Path): TrackedSection
    requires PathIn(t, p)
    decreases |p|
  {
    if p == [] then t else NodeAt(t.children[p[0]], p[1..])
  }

  function Put(t: TrackedSection, p: Path, n: TrackedSection): TrackedSection
    requires PathIn(t, p)
    decreases |p|
  {
    if p == [] then n else t.(children := t.children[p[0] := Put(t.children[p[0]], p[1..], n)])
  }

  lemma {:induction false} GetPut(t: TrackedSection, p: Path, n: TrackedSection)
    requires PathIn(t, p)
    ensures PathIn(Put(t, p, n), p) && NodeAt(Put(t, p, n), p) == n
    decreases |p|
  {
    if p != [] {
      GetPut(t.children[p[0]], p[1..], n);
    }
  }

  lemma {:induction false} PutPut(t: TrackedSection, p: Path, a: TrackedSection, b: TrackedSection)
    requires PathIn(t, p)
    ensures PathIn(Put(t, p, a), p) && Put(Put(t, p, a), p, b) == Put(t, p, b)
    decreases |p|
  {
    if p != [] {
      PutPut(t.children[p[0]], p[1..], a, b);
      assert t.children[p[0] := Put(t.children[p[0]], p[1..], a)][p[0] := Put(t.children[p[0]], p[1..], b)]
          == t.children[p[0] := Put(t.children[p[0]], p[1..], b)];
    }
  }

  lemma {:induction false} PutGet(t: TrackedSection, p: Path)
    requires PathIn(t, p)
    ensures Put(t, p, NodeAt(t, p)) == t
    decreases |p|
  {
    if p != [] {
      PutGet(t.children[p[0]], p[1..]);
      assert t.children[p[0] := t.children[p[0]]] == t.children;
    }
  }

  /** A child of the section at p sits at p + [k]. */
  lemma {:induction false} ChildPlace(t: TrackedSection, p: Path, k: string, n: TrackedSection)
    requires PathIn(t, p) && k in NodeAt(t, p).children
    ensures PathIn(t, p + [k]) && NodeAt(t, p + [k]) == NodeAt(t, p).children[k]
    ensures Put(t, p + [k], n) == Put(t, p, NodeAt(t, p).(children := NodeAt(t, p).children[k := n]))
    decreases |p|
  {
    if p != [] {
      assert (p + [k])[1..] == p[1..] + [k];
      ChildPlace(t.children[p[0]], p[1..], k, n);
    } else {
      assert p + [k] == [k] && [k][1..] == [];
    }
  }

  // ------------------------------------------------------------ specification

  datatype Tracker = Tracker(testCase: TrackedSection, current: Path, completedASection: bool)

  ghost predicate Placed(s: Tracker) {
    PathIn(s.testCase, s.current)
  }

  function SectionEntered(s: Tracker, key: string): (Tracker, bool)
    requires PathIn(s.testCase, s.current)
  {
    var node := AcquireChild(NodeAt(s.testCase, s.current), key);
    var child := node.children[key];
    if s.completedASection || child.runState == Completed then
      (s.(testCase := Put(s.testCase, s.current, node)), false)
    else
      (s.(testCase := Put(s.testCase, s.current, node.(children := node.children[key := Enter(child)])),
          current := s.current + [key]), true)
  }

  function SectionLeft(s: Tracker): Tracker
    requires PathIn(s.testCase, s.current) && s.current != []
  {
    Tracker(Put(s.testCase, s.current, Leave(NodeAt(s.testCase, s.current))), s.current[..|s.current| - 1], true)
  }

  function TestCaseEntered(s: Tracker): Tracker {
    Tracker(Enter(s.testCase), [], false)
  }

  function TestCaseLeft(s: Tracker): Tracker {
    s.(testCase := Leave(s.testCase))
  }

  /** Running the sections of the current body, as `ExecBody` describes it locally. */
  function AfterBody(s: Tracker, secs: seq<Section>): Tracker
    requires PathIn(s.testCase, s.current)
  {
    var r := ExecBody(NodeAt(s.testCase, s.current), s.completedASection, s.current, secs);
    s.(testCase := Put(s.testCase, s.current, r.node), completedASection := r.completedASection)
  }

  function Entered(s: Tracker, secs: seq<Section>): seq<Path>
    requires PathIn(s.testCase, s.current)
  {
    ExecBody(NodeAt(s.testCase, s.current), s.completedASection, s.current, secs).entered
  }

  function AfterRun(s: Tracker, body: seq<Section>): Tracker {
    TestCaseLeft(AfterBody(TestCaseEntered(s), body))
  }

  // ------------------------------------------------------- the local view is right

  lemma BodySkips(s: Tracker, secs: seq<Section>)
    requires Placed(s) && secs != [] && !SectionEntered(s, secs[0].key).1
    ensures var s1 := SectionEntered(s, secs[0].key).0;
            Placed(s1) && AfterBody(s1, secs[1..]) == AfterBody(s, secs) && Entered(s1, secs[1..]) == Entered(s, secs)
  {
    var n1 := AcquireChild(NodeAt(s.testCase, s.current), secs[0].key);
    GetPut(s.testCase, s.current, n1);
    PutPut(s.testCase, s.current, n1, ExecBody(n1, s.completedASection, s.current, secs[1..]).node);
  }

  /** Entering the first section, running its body and leaving it, in place. */
  lemma BodyEnters(s: Tracker, secs: seq<Section>)
    requires Placed(s) && secs != [] && SectionEntered(s, secs[0].key).1
    ensures var s1 := SectionEntered(s, secs[0].key).0;
            && Placed(s1) && s1.current != []
            && Placed(AfterBody(s1, secs[0].body))
            && var s3 := SectionLeft(AfterBody(s1, secs[0].body));
               && Placed(s3) && s3.current == s.current
               && AfterBody(s3, secs[1..]) == AfterBody(s, secs)
               && [s.current + [secs[0].key]] + Entered(s1, secs[0].body) + Entered(s3, secs[1..]) == Entered(s, secs)
  {
    var k, p, t := secs[0].key, s.current, s.testCase;
    var n1 := AcquireChild(NodeAt(t, p), k);
    var c := Enter(n1.children[k]);
    var nc := n1.(children := n1.children[k := c]);
    var t1 := Put(t, p, nc);
    GetPut(t, p, nc);
    ChildPlace(t1, p, k, c);
    var inner := ExecBody(c, false, p + [k], secs[0].body);
    ChildPlace(t1, p, k, inner.node);
    GetPut(t1, p + [k], inner.node);
    PutPut(t1, p + [k], inner.node, Leave(inner.node));
    ChildPlace(t1, p, k, Leave(inner.node));
    var n2 := n1.(children := n1.children[k := Leave(inner.node)]);
    assert nc.(children := nc.children[k := Leave(inner.node)]) == n2;
    PutPut(t, p, nc, n2);
    GetPut(t, p, n2);
    PutPut(t, p, n2, ExecBody(n2, true, p, secs[1..]).node);
    assert (p + [k])[..|p + [k]| - 1] == p;
  }

  /** While a section is entered it is executing, or executing children once it was left with
      children to go; the test case likewise. */
  lemma EnteredState(s: Tracker, key: string)
    requires Placed(s) && SectionEntered(s, key).1
    ensures var s' := SectionEntered(s, key).0;
            var before := NodeAt(s.testCase, s.current).children;
            && Placed(s') && s'.current == s.current + [key]
            && NodeAt(s'.testCase, s'.current).runState
               == if key in before && before[key].runState != NotStarted then before[key].runState else Executing
    ensures TestCaseEntered(s).testCase.runState
         == if s.testCase.runState == NotStarted then Executing else s.testCase.runState
  {
    var node := AcquireChild(NodeAt(s.testCase, s.current), key);
    var entered := node.(children := node.children[key := Enter(node.children[key])]);
    GetPut(s.testCase, s.current, entered);
    ChildPlace(Put(s.testCase, s.current, entered), s.current, key, FRESH);
  }

  // ---------------------------------------------------------------- whole runs

  /** Between runs: the tree has its first m leaves done. */
  ghost predicate Covered(s: Tracker, body: seq<Section>, m: nat) {
    Done(s.testCase, body, m)
  }

  /** One run of the test with m < |leaves| leaves covered enters exactly one root-to-leaf
      path, the one to leaf m in document order, and covers it. */
  lemma RunCoversNextLeaf(s: Tracker, body: seq<Section>, m: nat)
    requires Distinct(body) && Covered(s, body, m) && m < Count(body)
    ensures Covered(AfterRun(s, body), body, m + 1)
    ensures Entered(TestCaseEntered(s), body) == Chain([], Leaves([], body)[m])
    ensures AfterRun(s, body).testCase.runState == Completed <==> m + 1 == Count(body)
  {
    var r := ExecEntered(s.testCase, [], body, m);
    assert TestCaseLeft(AfterBody(TestCaseEntered(s), body)).testCase == Leave(r.node);
  }

  lemma {:induction false} ExecCompleted(n: TrackedSection, p: Path, secs: seq<Section>)
    requires AllCompleted(n.children) && Keys(secs) <= n.children.Keys
    ensures ExecBody(n, false, p, secs) == Outcome(n, false, [])
    decreases secs
  {
    if secs != [] {
      KeysSplit(secs);
      assert secs[0].key in Keys(secs);
      ExecCompleted(n, p, secs[1..]);
    }
  }

  /** A completed test that is run again (as the generator loop does) enters no section and
      stays completed. */
  lemma CompletedRunIsQuiet(s: Tracker, body: seq<Section>)
    requires Covered(s, body, Count(body))
    ensures Entered(TestCaseEntered(s), body) == []
    ensures AfterRun(s, body).testCase == s.testCase
  {
    ExecCompleted(s.testCase, [], body);
  }

  /** A leaf below p passes through one of the sections listed. */
  lemma {:induction false} LeafUnderKey(p: Path, secs: seq<Section>, m: nat)
    requires m < |LeavesOf(p, secs)|
    ensures |p| < |LeavesOf(p, secs)[m]| && LeavesOf(p, secs)[m][|p|] in Keys(secs)
    decreases secs
  {
    var q := p + [secs[0].key];
    var first := Leaves(q, secs[0].body);
    KeysSplit(secs);
    if m < |first| {
      LeavesExtend(q, secs[0].body, m);
      assert first[m][|p|] == q[|p|];
    } else {
      LeafUnderKey(p, secs[1..], m - |first|);
    }
  }

  /** No leaf lies on the way to another. */
  lemma {:induction false} LeavesApart(p: Path, body: seq<Section>, i: nat, j: nat)
    requires Distinct(body) && i < |Leaves(p, body)| && j < |Leaves(p, body)| && i != j
    ensures !(Leaves(p, body)[i] <= Leaves(p, body)[j])
    decreases body, 1
  {
    LeavesOfApart(p, body, i, j);
  }

  lemma {:induction false} LeavesOfApart(p: Path, secs: seq<Section>, i: nat, j: nat)
    requires Distinct(secs) && i < |LeavesOf(p, secs)| && j < |LeavesOf(p, secs)| && i != j
    ensures !(LeavesOf(p, secs)[i] <= LeavesOf(p, secs)[j])
    decreases secs, 0
  {
    var q := p + [secs[0].key];
    var first := Leaves(q, secs[0].body);
    DistinctSplits(secs);
    if i < |first| && j < |first| {
      LeavesApart(q, secs[0].body, i, j);
    } else if i >= |first| && j >= |first| {
      LeavesOfApart(p, secs[1..], i - |first|, j - |first|);
    } else {
      var inner, later := Min(i, j), if i < j then j else i;
      LeavesExtend(q, secs[0].body, inner);
      LeafUnderKey(p, secs[1..], later - |first|);
      assert first[inner][|p|] == q[|p|];
    }
  }

  /** Each leaf section is entered in exactly one run, the one with its own number. */
  lemma LeafEnteredInOneRun(body: seq<Section>, i: nat, j: nat)
    requires Distinct(body) && body != [] && i < Count(body) && j < Count(body)
    ensures Leaves([], body)[i] in Chain([], Leaves([], body)[j]) <==> i == j
  {
    var leaf, run := Leaves([], body)[i], Leaves([], body)[j];
    LeafUnderKey([], body, i);
    if i == j {
      assert Chain([], run)[|run| - 1] == run[..|run|] == run;
    } else {
      LeavesApart([], body, i, j);
    }
  }

  lemma BodyPlaced(s: Tracker, body: seq<Section>)
    requires Placed(s)
    ensures Placed(AfterBody(s, body))
  {
    GetPut(s.testCase, s.current, ExecBody(NodeAt(s.testCase, s.current), s.completedASection, s.current, body).node);
  }

  lemma {:induction false} PrefixPlace(t: TrackedSection, p: Path, n: nat)
    requires PathIn(t, p) && n <= |p|
    ensures PathIn(t, p[..n])
    decreases |p|
  {
    if n > 0 {
      PrefixPlace(t.children[p[0]], p[1..], n - 1);
      assert p[..n][1..] == p[1..][..n - 1];
    }
  }

  // ---------------------------------------------------------------- the class

  /** The loop of `TrackedSection::leave` over the children. */
  method ChildrenCompleted(children: map<string, TrackedSection>) returns (all: bool)
    ensures all == AllCompleted(children)
  {
    var rest := children.Keys;
    while rest != {}
      invariant rest <= children.Keys
      invariant forall k :: k in children && k !in rest ==> children[k].runState == Completed
      decreases |rest|
    {
      var k :| k in rest;
      if children[k].runState != Completed {
        return false;
      }
      rest := rest - {k};
    }
    return true;
  }

  class TestCaseTracker {
    var testCase: TrackedSection
    var currentSection: Path
    var completedASectionThisRun: bool

    ghost predicate Valid()
      reads this
    {
      PathIn(testCase, currentSection)
    }

    ghost function State(): Tracker
      reads this
    {
      Tracker(testCase, currentSection, completedASectionThisRun)
    }

    constructor ()
      ensures Valid() && State() == Tracker(FRESH, [], false)
    {
      testCase, currentSection, completedASectionThisRun := FRESH, [], false;
    }

    method EnterSection(name: string) returns (entered: bool)
      requires Valid()
      modifies this
      ensures Valid() && State() == SectionEntered(old(State()), name).0
      ensures entered == SectionEntered(old(State()), name).1
    {
      ghost var start := testCase;
      var node := AcquireChild(NodeAt(testCase, currentSection), name);
      GetPut(testCase, currentSection, node);
      testCase := Put(testCase, currentSection, node);
      var child := node.children[name];
      if completedASectionThisRun || child.runState == Completed {
        return false;
      }
      ChildPlace(testCase, currentSection, name, Enter(child));
      PutPut(start, currentSection, node, node.(children := node.children[name := Enter(child)]));
      GetPut(testCase, currentSection + [name], Enter(child));
      currentSection := currentSection + [name];
      testCase := Put(testCase, currentSection, Enter(child));
      return true;
    }

    method LeaveSection()
      requires Valid() && currentSection != []
      modifies this
      ensures Valid() && State() == SectionLeft(old(State()))
    {
      var node := NodeAt(testCase, currentSection);
      var all := ChildrenCompleted(node.children);
      var left := node.(runState := if all then Completed else ExecutingChildren);
      GetPut(testCase, currentSection, left);
      testCase := Put(testCase, currentSection, left);
      PrefixPlace(testCase, currentSection, |currentSection| - 1);
      currentSection := currentSection[..|currentSection| - 1];
      completedASectionThisRun := true;
    }

    method EnterTestCase()
      modifies this
      ensures Valid() && State() == TestCaseEntered(old(State()))
    {
      currentSection := [];
      completedASectionThisRun := false;
      testCase := Enter(testCase);
    }

    method LeaveTestCase()
      requires currentSection == []
      modifies this
      ensures Valid() && State() == TestCaseLeft(old(State()))
    {
      var all := ChildrenCompleted(testCase.children);
      testCase := testCase.(runState := if all then Completed else ExecutingChildren);
    }

    /** The test's own code: each SECTION asks to be entered, and leaves when its block ends. */
    method RunBody(body: seq<Section>) returns (entered: seq<Path>)
      requires Valid()
      modifies this
      ensures Valid() && State() == AfterBody(old(State()), body)
      ensures entered == Entered(old(State()), body)
      decreases body
    {
      entered := [];
      if body == [] {
        PutGet(testCase, currentSection);
        return;
      }
      ghost var s := State();
      var included := EnterSection(body[0].key);
      if included {
        BodyEnters(s, body);
        var here := currentSection;
        var inner := RunBody(body[0].body);
        LeaveSection();
        var rest := RunBody(body[1..]);
        entered := [here] + inner + rest;
      } else {
        BodySkips(s, body);
        entered := RunBody(body[1..]);
      }
      BodyPlaced(s, body);
    }

    /** `runCurrentTest`, with the tracker's guard around the test. */
    method RunCurrentTest(body: seq<Section>) returns (entered: seq<Path>)
      modifies this
      ensures Valid() && State() == AfterRun(old(State()), body)
      ensures entered == Entered(TestCaseEntered(old(State())), body)
    {
      EnterTestCase();
      entered := RunBody(body);
      LeaveTestCase();
    }
  }
}
