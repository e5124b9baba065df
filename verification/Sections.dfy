/**
 Test bodies as trees of sections, and the state Catch keeps of each section it has met.
 */
module Sections {

  datatype RunState = NotStarted | Executing | ExecutingChildren | Completed

  /** A tracked section holds its children by value, like the source's `std::map`. */
  datatype TrackedSection = TrackedSection(runState: RunState, children: map<string, TrackedSection>)

  /** A section of the test's source, with its sub-sections in document order. */
  datatype Section = Section(key: string, body: seq<Section>)

  type Path = seq<string>

  const FRESH: TrackedSection := TrackedSection(NotStarted, map[])

  // --------------------------------------------------- operations of one section

  function AcquireChild(n: TrackedSection, key: string): TrackedSection {
    if key in n.children then n else n.(children := n.children[key := FRESH])
  }

  function Enter(n: TrackedSection): TrackedSection {
    if n.runState == NotStarted then n.(runState := Executing) else n
  }

  predicate AllCompleted(children: map<string, TrackedSection>) {
    forall k <- children :: children[k].runState == Completed
  }

  function Leave(n: TrackedSection): TrackedSection {
    n.(runState := if AllCompleted(n.children) then Completed else ExecutingChildren)
  }

  // ------------------------------------------------------------ shape of a test

  /** Paths of the leaves below p, in document order; a body without sections is a leaf. */
  function Leaves(p: Path, body: seq<Section>): (ls: seq<Path>)
    ensures |ls| >= 1
    decreases body, 1
  {
    if body == [] then [p] else LeavesOf(p, body)
  }

  function LeavesOf(p: Path, secs: seq<Section>): (ls: seq<Path>)
    ensures secs != [] ==> |ls| >= 1
    decreases secs, 0
  {
    if secs == [] then [] else Leaves(p + [secs[0].key], secs[0].body) + LeavesOf(p, secs[1..])
  }

  function Count(body: seq<Section>): nat {
    |Leaves([], body)|
  }

  function CountOf(secs: seq<Section>): nat {
    |LeavesOf([], secs)|
  }

  lemma {:induction false} LeafCount(p: Path, q: Path, body: seq<Section>)
    ensures |Leaves(p, body)| == |Leaves(q, body)|
    decreases body, 1
  {
    LeafCountOf(p, q, body);
  }

  lemma {:induction false} LeafCountOf(p: Path, q: Path, secs: seq<Section>)
    ensures |LeavesOf(p, secs)| == |LeavesOf(q, secs)|
    decreases secs, 0
  {
    if secs != [] {
      LeafCount(p + [secs[0].key], q + [secs[0].key], secs[0].body);
      LeafCountOf(p, q, secs[1..]);
    }
  }

  function Keys(secs: seq<Section>): set<string> {
    set i | 0 <= i < |secs| :: secs[i].key
  }

  /** Sibling sections have distinct keys (name and line), at every level. */
  predicate Distinct(secs: seq<Section>) {
    && (forall i, j :: 0 <= i < j < |secs| ==> secs[i].key != secs[j].key)
    && (forall i :: 0 <= i < |secs| ==> Distinct(secs[i].body))
  }

  /** The sections entered on the way from p down to a leaf. */
  function Chain(p: Path, leaf: Path): seq<Path>
    requires |p| <= |leaf|
  {
    seq(|leaf| - |p|, i requires 0 <= i < |leaf| - |p| => leaf[..|p| + 1 + i])
  }

  lemma {:induction false} LeavesExtend(p: Path, body: seq<Section>, m: nat)
    requires m < |Leaves(p, body)|
    ensures p <= Leaves(p, body)[m]
    decreases body, 1
  {
    if body != [] {
      LeavesOfExtend(p, body, m);
    }
  }

  lemma {:induction false} LeavesOfExtend(p: Path, secs: seq<Section>, m: nat)
    requires m < |LeavesOf(p, secs)|
    ensures p < LeavesOf(p, secs)[m]
    decreases secs, 0
  {
    var first := Leaves(p + [secs[0].key], secs[0].body);
    if m < |first| {
      LeavesExtend(p + [secs[0].key], secs[0].body, m);
    } else {
      LeavesOfExtend(p, secs[1..], m - |first|);
    }
  }

  // ------------------------------------------------------ running a body, locally

  datatype Outcome = Outcome(node: TrackedSection, completedASection: bool, entered: seq<Path>)

  /** What running the sections of a body does to the section at path p that contains it. */
  function ExecBody(n: TrackedSection, flag: bool, p: Path, secs: seq<Section>): Outcome
    decreases secs
  {
    if secs == [] then Outcome(n, flag, [])
    else
      var k, n1 := secs[0].key, AcquireChild(n, secs[0].key);
      if flag || n1.children[k].runState == Completed then ExecBody(n1, flag, p, secs[1..])
      else
        var inner := ExecBody(Enter(n1.children[k]), false, p + [k], secs[0].body);
        var n2 := n1.(children := n1.children[k := Leave(inner.node)]);
        var rest := ExecBody(n2, true, p, secs[1..]);
        Outcome(rest.node, rest.completedASection, [p + [k]] + inner.entered + rest.entered)
  }

  // ----------------------------------------------------------- progress invariant

  function Child(children: map<string, TrackedSection>, k: string): TrackedSection {
    if k in children then children[k] else FRESH
  }

  function Min(a: nat, b: nat): nat {
    if a <= b then a else b
  }

  /** The first m leaves below this section are done, and no other. */
  ghost predicate Done(n: TrackedSection, body: seq<Section>, m: nat)
    decreases body, 1
  {
    if m == 0 then n == FRESH
    else if m == Count(body) then
      n.runState == Completed && n.children.Keys == Keys(body) && AllCompleted(n.children)
    else
      n.runState == ExecutingChildren && n.children.Keys == Keys(body) && KidsDone(n.children, body, m)
  }

  ghost predicate KidsDone(children: map<string, TrackedSection>, secs: seq<Section>, m: nat)
    decreases secs, 0
  {
    if secs == [] then m == 0
    else
      var first := Min(m, Count(secs[0].body));
      Done(Child(children, secs[0].key), secs[0].body, first) && KidsDone(children, secs[1..], m - first)
  }

  lemma CountSplits(secs: seq<Section>)
    requires secs != []
    ensures CountOf(secs) == Count(secs[0].body) + CountOf(secs[1..])
    ensures Count(secs) == CountOf(secs)
  {
    LeafCount([] + [secs[0].key], [], secs[0].body);
  }

  lemma KeysSplit(secs: seq<Section>)
    requires secs != []
    ensures Keys(secs) == {secs[0].key} + Keys(secs[1..])
  {
    forall k | k in Keys(secs) ensures k in {secs[0].key} + Keys(secs[1..]) {
      var i :| 0 <= i < |secs| && secs[i].key == k;
      if i > 0 {
        assert secs[1..][i - 1].key == k;
      }
    }
    forall k | k in Keys(secs[1..]) ensures k in Keys(secs) {
      var i :| 0 <= i < |secs[1..]| && secs[1..][i].key == k;
      assert secs[i + 1].key == k;
    }
  }

  lemma DistinctSplits(secs: seq<Section>)
    requires secs != [] && Distinct(secs)
    ensures Distinct(secs[0].body) && Distinct(secs[1..]) && secs[0].key !in Keys(secs[1..])
  {
    assert forall i :: 0 <= i < |secs[1..]| ==> secs[1..][i] == secs[i + 1];
  }

  /** Progress of a list of sections looks only at their own children. */
  lemma {:induction false} KidsDoneFrame(c: map<string, TrackedSection>, c': map<string, TrackedSection>,
                                         secs: seq<Section>, m: nat)
    requires KidsDone(c, secs, m) && forall k <- Keys(secs) :: Child(c, k) == Child(c', k)
    ensures KidsDone(c', secs, m)
    decreases secs
  {
    if secs != [] {
      KeysSplit(secs);
      KidsDoneFrame(c, c', secs[1..], m - Min(m, Count(secs[0].body)));
    }
  }

  lemma {:induction false} NothingDone(c: map<string, TrackedSection>, secs: seq<Section>)
    requires c == map[]
    ensures KidsDone(c, secs, 0)
    decreases secs
  {
    if secs != [] {
      NothingDone(c, secs[1..]);
    }
  }

  /** All children are completed exactly when all leaves are done. */
  lemma {:induction false} AllKidsCompleted(c: map<string, TrackedSection>, secs: seq<Section>, m: nat)
    requires KidsDone(c, secs, m)
    ensures m <= CountOf(secs)
    ensures (forall k <- Keys(secs) :: Child(c, k).runState == Completed) <==> m == CountOf(secs)
    decreases secs
  {
    if secs != [] {
      var first := Min(m, Count(secs[0].body));
      CountSplits(secs);
      KeysSplit(secs);
      AllKidsCompleted(c, secs[1..], m - first);
      assert secs[0].key in Keys(secs);
      assert Child(c, secs[0].key).runState == Completed <==> first == Count(secs[0].body);
    }
  }

  /** Once a section completed in this run, the rest is only acquired. */
  lemma {:induction false} ExecFlagged(n: TrackedSection, p: Path, secs: seq<Section>)
    ensures var r := ExecBody(n, true, p, secs);
            && r.completedASection && r.entered == [] && r.node.runState == n.runState
            && r.node.children.Keys == n.children.Keys + Keys(secs)
            && forall k :: Child(r.node.children, k) == Child(n.children, k)
    decreases secs
  {
    if secs != [] {
      KeysSplit(secs);
      ExecFlagged(AcquireChild(n, secs[0].key), p, secs[1..]);
    }
  }

  /** A fresh or partly done section, entered. */
  lemma EnteredKids(n: TrackedSection, body: seq<Section>, m: nat)
    requires Done(n, body, m) && m < Count(body)
    ensures n.runState != Completed
    ensures Enter(n).children == n.children && n.children.Keys <= Keys(body)
    ensures body == [] ==> n == FRESH && m == 0
    ensures body != [] ==> KidsDone(n.children, body, m) && m < CountOf(body)
  {
    if body != [] {
      CountSplits(body);
      if m == 0 {
        NothingDone(n.children, body);
      }
    }
  }

  /** Leaving after one more leaf. */
  lemma LeaveDone(n: TrackedSection, body: seq<Section>, m: nat)
    requires n.children.Keys == Keys(body) && 1 <= m
    requires if body == [] then m == 1 else KidsDone(n.children, body, m)
    ensures Done(Leave(n), body, m) && m <= Count(body)
  {
    if body != [] {
      CountSplits(body);
      AllKidsCompleted(n.children, body, m);
      assert AllCompleted(n.children) <==> forall k <- Keys(body) :: Child(n.children, k).runState == Completed;
    }
  }

  lemma ChainStep(p: Path, k: string, leaf: Path)
    requires p + [k] <= leaf
    ensures Chain(p, leaf) == [p + [k]] + Chain(p + [k], leaf)
  {
    assert leaf[..|p| + 1] == p + [k];
  }

  /** `entered` lists exactly the sections on the way to leaf m. */
  ghost predicate EntersLeaf(p: Path, secs: seq<Section>, m: nat, entered: seq<Path>) {
    m < |LeavesOf(p, secs)| && p <= LeavesOf(p, secs)[m] && entered == Chain(p, LeavesOf(p, secs)[m])
  }

  /** From n to n', one more than m leaves are done and nothing else changed. */
  ghost predicate OneMore(n: TrackedSection, secs: seq<Section>, m: nat, n': TrackedSection) {
    && n'.runState == n.runState
    && n'.children.Keys == n.children.Keys + Keys(secs)
    && KidsDone(n'.children, secs, m + 1)
    && (forall k :: k !in Keys(secs) ==> Child(n'.children, k) == Child(n.children, k))
  }

  /** The outcome r of running `secs` in n enters exactly the sections down to leaf m, and
      afterwards m + 1 leaves are done. */
  ghost predicate RanLeaf(n: TrackedSection, p: Path, secs: seq<Section>, m: nat, r: Outcome) {
    r.completedASection && OneMore(n, secs, m, r.node) && EntersLeaf(p, secs, m, r.entered)
  }

  lemma AcquireKeepsChild(n: TrackedSection, k: string)
    ensures AcquireChild(n, k).runState == n.runState && AcquireChild(n, k).children.Keys == n.children.Keys + {k}
    ensures forall j :: Child(AcquireChild(n, k).children, j) == Child(n.children, j)
  {
  }

  lemma LaterLeaf(p: Path, secs: seq<Section>, m: nat, entered: seq<Path>)
    requires secs != [] && m >= Count(secs[0].body)
    requires EntersLeaf(p, secs[1..], m - Count(secs[0].body), entered)
    ensures EntersLeaf(p, secs, m, entered)
  {
    hide Chain;
    LeafCount(p + [secs[0].key], [], secs[0].body);
    assert LeavesOf(p, secs)[m] == LeavesOf(p, secs[1..])[m - Count(secs[0].body)];
  }

  lemma OneMoreLater(n: TrackedSection, secs: seq<Section>, m: nat, n': TrackedSection)
    requires secs != [] && secs[0].key !in Keys(secs[1..]) && m >= Count(secs[0].body)
    requires Done(Child(n.children, secs[0].key), secs[0].body, Count(secs[0].body))
    requires OneMore(AcquireChild(n, secs[0].key), secs[1..], m - Count(secs[0].body), n')
    ensures OneMore(n, secs, m, n')
  {
    hide Done, AcquireChild, Count;
    KeysSplit(secs);
    AcquireKeepsChild(n, secs[0].key);
    assert Min(m + 1, Count(secs[0].body)) == Count(secs[0].body);
  }

  /** The first section is completed: the run goes on with the others. */
  lemma SkippedFirst(n: TrackedSection, p: Path, secs: seq<Section>, m: nat, r: Outcome)
    requires secs != [] && Distinct(secs) && m >= Count(secs[0].body)
    requires Done(Child(n.children, secs[0].key), secs[0].body, Count(secs[0].body))
    requires RanLeaf(AcquireChild(n, secs[0].key), p, secs[1..], m - Count(secs[0].body), r)
    ensures RanLeaf(n, p, secs, m, r)
  {
    hide OneMore, EntersLeaf;
    DistinctSplits(secs);
    OneMoreLater(n, secs, m, r.node);
    LaterLeaf(p, secs, m, r.entered);
  }

  lemma FirstLeaf(p: Path, secs: seq<Section>, m: nat)
    requires secs != [] && m < Count(secs[0].body)
    requires var q := p + [secs[0].key]; m < |Leaves(q, secs[0].body)| && q <= Leaves(q, secs[0].body)[m]
    ensures var q := p + [secs[0].key];
            EntersLeaf(p, secs, m, [q] + Chain(q, Leaves(q, secs[0].body)[m]))
  {
    var q := p + [secs[0].key];
    ChainStep(p, secs[0].key, Leaves(q, secs[0].body)[m]);
    assert LeavesOf(p, secs)[m] == Leaves(q, secs[0].body)[m];
  }

  /** The first section was entered and left: the others are only acquired. */
  lemma OneMoreFirst(n: TrackedSection, p: Path, secs: seq<Section>, m: nat, left: TrackedSection)
    requires secs != [] && secs[0].key !in Keys(secs[1..])
    requires m < Count(secs[0].body) && KidsDone(n.children, secs, m) && Done(left, secs[0].body, m + 1)
    ensures var r := ExecBody(n.(children := n.children[secs[0].key := left]), true, p, secs[1..]);
            r.completedASection && r.entered == [] && OneMore(n, secs, m, r.node)
  {
    hide Done, Count;
    KeysSplit(secs);
    var n2 := n.(children := n.children[secs[0].key := left]);
    ExecFlagged(n2, p, secs[1..]);
    KidsDoneFrame(n.children, ExecBody(n2, true, p, secs[1..]).node.children, secs[1..], 0);
  }

  lemma EnteredFirst(n: TrackedSection, p: Path, secs: seq<Section>, m: nat, left: TrackedSection, inner: seq<Path>)
    requires secs != [] && Distinct(secs) && m < Count(secs[0].body) && KidsDone(n.children, secs, m)
    requires Done(left, secs[0].body, m + 1)
    requires var q := p + [secs[0].key];
             && m < |Leaves(q, secs[0].body)| && q <= Leaves(q, secs[0].body)[m]
             && inner == Chain(q, Leaves(q, secs[0].body)[m])
    ensures var k := secs[0].key;
            var rest := ExecBody(n.(children := n.children[k := left]), true, p, secs[1..]);
            RanLeaf(n, p, secs, m, Outcome(rest.node, rest.completedASection, [p + [k]] + inner + rest.entered))
  {
    hide OneMore, EntersLeaf, Chain;
    var q := p + [secs[0].key];
    DistinctSplits(secs);
    OneMoreFirst(n, p, secs, m, left);
    FirstLeaf(p, secs, m);
    assert [q] + inner + [] == [q] + inner;
  }

  /** Acquiring a child of the body first makes no difference to the claim. */
  lemma AcquiredFirst(n: TrackedSection, p: Path, secs: seq<Section>, m: nat, r: Outcome)
    requires secs != [] && RanLeaf(AcquireChild(n, secs[0].key), p, secs, m, r)
    ensures RanLeaf(n, p, secs, m, r)
  {
    KeysSplit(secs);
  }

  /** Running a body that has m of its leaves done enters the sections down to leaf m and no
      other, and leaves m + 1 done. */
  lemma {:induction false} ExecOneLeaf(n: TrackedSection, p: Path, secs: seq<Section>, m: nat)
    requires Distinct(secs) && KidsDone(n.children, secs, m) && m < CountOf(secs)
    ensures RanLeaf(n, p, secs, m, ExecBody(n, false, p, secs))
    decreases secs, 0
  {
    hide RanLeaf;
    var k, body := secs[0].key, secs[0].body;
    var n1, done := AcquireChild(n, k), Min(m, Count(body));
    CountSplits(secs);
    DistinctSplits(secs);
    KidsDoneFrame(n.children, n1.children, secs, m);
    if done == Count(body) {
      ExecOneLeaf(n1, p, secs[1..], m - done);
      SkippedFirst(n, p, secs, m, ExecBody(n1, false, p, secs[1..]));
    } else {
      var inner := ExecEntered(n1.children[k], p + [k], body, m);
      EnteredFirst(n1, p, secs, m, Leave(inner.node), inner.entered);
      AcquiredFirst(n, p, secs, m, ExecBody(n, false, p, secs));
    }
  }

  /** Entering, running and leaving one section that is not completed. */
  lemma {:induction false} ExecEntered(n: TrackedSection, p: Path, body: seq<Section>, m: nat) returns (r: Outcome)
    requires Distinct(body) && Done(n, body, m) && m < Count(body)
    ensures n.runState != Completed && r == ExecBody(Enter(n), false, p, body)
    ensures Done(Leave(r.node), body, m + 1)
    ensures m < |Leaves(p, body)| && p <= Leaves(p, body)[m] && r.entered == Chain(p, Leaves(p, body)[m])
    decreases body, 1
  {
    r := ExecBody(Enter(n), false, p, body);
    EnteredKids(n, body, m);
    if body != [] {
      ExecOneLeaf(Enter(n), p, body, m);
    }
    LeaveDone(r.node, body, m + 1);
  }
}
