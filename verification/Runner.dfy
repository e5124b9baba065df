/**
 Catch's `runTest`: the loop over sections inside the loop over generators.

 Every run of the test enters sections and evaluates generators, which registers those it
 meets for the first time.  `uses` gives the generators that a block evaluates before its
 sections, the block of the test itself being at path [].  Whether the runner is aborting
 after a run depends on the assertions that failed, so it is a parameter.
 */
module Runner {
  import opened Sections
  import opened SectionTracker
  import opened Generators

  type Uses = Path -> seq<Use>

  // ------------------------------------------------- what the whole loop does

  datatype Run = Run(entered: seq<Path>, indices: seq<nat>)

  /** The sections run i enters: those down to leaf i, then none. */
  function RunEnters(body: seq<Section>, i: nat): seq<Path> {
    if i < Count(body) then LeafChain(body, i) else []
  }

  function LeafChain(body: seq<Section>, i: nat): seq<Path>
    requires i < Count(body)
  {
    Chain([], Leaves([], body)[i])
  }

  function UsesOn(uses: Uses, paths: seq<Path>): seq<Use>
    decreases |paths|
  {
    if paths == [] then [] else uses(paths[0]) + UsesOn(uses, paths[1..])
  }

  /** The generators a run evaluates. */
  function Evaluated(uses: Uses, entered: seq<Path>): seq<Use> {
    UsesOn(uses, [[]] + entered)
  }

  /** The generators registered before run i, in order, when `known` are at the start. */
  function KnownBefore(body: seq<Section>, uses: Uses, known: seq<Use>, i: nat): seq<Use> {
    if i == 0 then known
    else Met(KnownBefore(body, uses, known, i - 1), Evaluated(uses, RunEnters(body, i - 1)))
  }

  /** The sizes of all generators that any block of the test evaluates. */
  function AllSizes(body: seq<Section>, uses: Uses, known: seq<Use>): seq<Size> {
    SizesMet(KnownBefore(body, uses, known, Count(body)))
  }

  /** One run for each leaf, and one for each further combination of generator values. */
  function RunCount(body: seq<Section>, uses: Uses, known: seq<Use>): nat {
    Count(body) + Total(AllSizes(body, uses, known)) - 1
  }

  function Zeros(n: nat): seq<nat> {
    seq(n, _ => 0)
  }

  /** While there are leaves left, run i covers leaf i with all generators at their first value;
      every later run enters no section and shows the next combination. */
  ghost predicate Shows(body: seq<Section>, uses: Uses, known: seq<Use>, i: nat, indices: seq<nat>) {
    if i < Count(body) then indices == Zeros(|KnownBefore(body, uses, known, i + 1)|)
    else i < RunCount(body, uses, known)
         && indices == Combinations(AllSizes(body, uses, known))[i + 1 - Count(body)]
  }

  // ------------------------------------------------------- registered generators

  lemma KnownFirst(body: seq<Section>, uses: Uses, known: seq<Use>)
    ensures KnownBefore(body, uses, known, 0) == known
  {
  }

  lemma KnownStep(body: seq<Section>, uses: Uses, known: seq<Use>, i: nat)
    ensures KnownBefore(body, uses, known, i + 1)
         == Met(KnownBefore(body, uses, known, i), Evaluated(uses, RunEnters(body, i)))
  {
  }

  lemma NamesConcat(a: seq<Use>, b: seq<Use>)
    ensures Names(a) <= Names(a + b)
  {
    assert forall i :: 0 <= i < |a| ==> (a + b)[i] == a[i];
  }

  lemma NamesSum(a: seq<Use>, b: seq<Use>)
    ensures forall name :: name in Names(a + b) <==> name in Names(a) || name in Names(b)
  {
    NamesConcat(a, b);
    assert forall i :: 0 <= i < |b| ==> (a + b)[|a| + i] == b[i];
    forall name | name in Names(a + b) ensures name in Names(a) || name in Names(b) {
      var i :| 0 <= i < |a + b| && (a + b)[i].fileInfo == name;
      assert i < |a| ==> a[i].fileInfo == name;
      assert i >= |a| ==> b[i - |a|].fileInfo == name;
    }
  }

  /** A run evaluates the generators of the test itself and of every section it enters, those of
      an outer block before those of an inner one.  At each evaluation it has met those of the
      blocks and of the places before. */
  lemma {:induction false} BlockUses(uses: Uses, paths: seq<Path>, d: nat, i: nat) returns (p: nat)
    requires d < |paths| && i < |uses(paths[d])|
    ensures p < |UsesOn(uses, paths)| && UsesOn(uses, paths)[p] == uses(paths[d])[i]
    ensures forall name :: name in Names(UsesOn(uses, paths)[..p]) <==>
                             (exists e: nat :: e < d && name in Names(uses(paths[e]))) || name in Names(uses(paths[d])[..i])
    decreases |paths|
  {
    hide Names;
    var own, rest := uses(paths[0]), UsesOn(uses, paths[1..]);
    if d == 0 {
      p := i;
      assert (own + rest)[..p] == own[..i];
    } else {
      var q := BlockUses(uses, paths[1..], d - 1, i);
      p := |own| + q;
      assert (own + rest)[..p] == own + rest[..q];
      NamesSum(own, rest[..q]);
      assert forall e: nat :: e < d - 1 ==> paths[1..][e] == paths[e + 1];
      forall name ensures (exists e: nat :: e < d && name in Names(uses(paths[e])))
                     <==> name in Names(own) || exists e: nat :: e < d - 1 && name in Names(uses(paths[1..][e]))
      {
        if e: nat :| e < d && name in Names(uses(paths[e])) && e > 0 {
          assert paths[1..][e - 1] == paths[e];
        }
      }
    }
  }

  lemma {:induction false} UsedNames(uses: Uses, paths: seq<Path>)
    ensures forall name :: name in Names(UsesOn(uses, paths)) <==>
                             exists e: nat :: e < |paths| && name in Names(uses(paths[e]))
    decreases |paths|
  {
    hide Names;
    if paths == [] {
      NoNames();
    } else {
      var own, rest := uses(paths[0]), UsesOn(uses, paths[1..]);
      UsedNames(uses, paths[1..]);
      NamesSum(own, rest);
      forall name ensures name in Names(own + rest) <==> exists e: nat :: e < |paths| && name in Names(uses(paths[e])) {
        if e: nat :| e < |paths| && name in Names(uses(paths[e])) && e > 0 {
          assert paths[1..][e - 1] == paths[e];
        }
        if e: nat :| e < |paths[1..]| && name in Names(uses(paths[1..][e])) {
          assert paths[e + 1] == paths[1..][e];
        }
      }
    }
  }

  lemma NoNames()
    ensures Names([]) == {}
  {
  }

  /** The blocks of the run to leaf l, from the test itself inward. */
  function Blocks(body: seq<Section>, l: nat): seq<Path>
    requires l < Count(body)
  {
    [[]] + LeafChain(body, l)
  }

  lemma BlocksOfRun(body: seq<Section>, uses: Uses, l: nat)
    requires l < Count(body)
    ensures Evaluated(uses, RunEnters(body, l)) == UsesOn(uses, Blocks(body, l))
  {
    LeafRunEnters(body, l);
  }

  /** After i runs exactly the generators are registered that were before, or that some block
      entered so far evaluates. */
  lemma {:induction false} RegisteredNames(body: seq<Section>, uses: Uses, known: seq<Use>, i: nat, name: string)
    requires i <= Count(body)
    ensures name in Names(KnownBefore(body, uses, known, i)) <==>
              name in Names(known) || exists l: nat, e: nat ::
                l < i && e < |Blocks(body, l)| && name in Names(uses(Blocks(body, l)[e]))
    decreases i
  {
    hide Names, LeafChain, Met, KnownBefore, Blocks, UsesOn;
    KnownFirst(body, uses, known);
    if i > 0 {
      KnownStep(body, uses, known, i - 1);
      BlocksOfRun(body, uses, i - 1);
      RegisteredNames(body, uses, known, i - 1, name);
      UsedNames(uses, Blocks(body, i - 1));
      MetNames(KnownBefore(body, uses, known, i - 1), UsesOn(uses, Blocks(body, i - 1)));
    }
  }

  /** The order of registration: at the i-th evaluation of block d of the run to leaf l, exactly
      those are registered that earlier runs, outer blocks and earlier places evaluate, and a new
      one comes next. */
  lemma RegisteredAt(body: seq<Section>, uses: Uses, known: seq<Use>, l: nat, d: nat, i: nat) returns (m: nat)
    requires l < Count(body) && d < |Blocks(body, l)| && i < |uses(Blocks(body, l)[d])|
    ensures var before, after := KnownBefore(body, uses, known, l), KnownBefore(body, uses, known, l + 1);
            var use := uses(Blocks(body, l)[d])[i];
            && m <= |after|
            && (forall name :: name in Names(after[..m]) <==>
                  || name in Names(before)
                  || (exists e: nat :: e < d && name in Names(uses(Blocks(body, l)[e])))
                  || name in Names(uses(Blocks(body, l)[d])[..i]))
            && (use.fileInfo !in Names(after[..m]) ==> m < |after| && after[m] == use)
  {
    hide Names, LeafChain, Met;
    LeafRunEnters(body, l);
    var p := BlockUses(uses, Blocks(body, l), d, i);
    m := MetAt(KnownBefore(body, uses, known, l), UsesOn(uses, Blocks(body, l)), p);
  }

  lemma OwnUses(uses: Uses, entered: seq<Path>)
    ensures Names(uses([])) <= Names(Evaluated(uses, entered))
    ensures Evaluated(uses, []) == uses([])
  {
    var own: seq<Path> := [[]];
    assert (own + entered)[1..] == entered && own + [] == own;
    NamesConcat(uses([]), UsesOn(uses, entered));
  }

  lemma EvaluatedNames(known: seq<Use>, uses: Uses, entered: seq<Path>)
    ensures forall name :: name in Names(Met(known, Evaluated(uses, entered))) <==>
                             || name in Names(known) || name in Names(uses([]))
                             || exists q <- entered :: name in Names(uses(q))
  {
    hide Names, Met;
    var own: seq<Path> := [[]];
    var paths := own + entered;
    MetNames(known, UsesOn(uses, paths));
    UsedNames(uses, paths);
    forall name ensures (exists e: nat :: e < |paths| && name in Names(uses(paths[e])))
                   <==> name in Names(uses([])) || exists q <- entered :: name in Names(uses(q))
    {
      if name in Names(uses([])) {
        assert paths[0] == [];
      }
      if q :| q in entered && name in Names(uses(q)) {
        var e: nat :| e < |entered| && entered[e] == q;
        assert paths[e + 1] == q;
      }
    }
  }

  lemma {:induction false} OwnUsesKnown(body: seq<Section>, uses: Uses, known: seq<Use>, i: nat)
    requires i >= 1
    ensures Names(uses([])) <= Names(KnownBefore(body, uses, known, i))
    decreases i
  {
    var before, now := KnownBefore(body, uses, known, i - 1), Evaluated(uses, RunEnters(body, i - 1));
    MetNames(before, now);
    OwnUses(uses, RunEnters(body, i - 1));
  }

  lemma QuietRunMeetsNothing(body: seq<Section>, uses: Uses, known: seq<Use>, i: nat)
    requires i >= Count(body)
    ensures KnownBefore(body, uses, known, i + 1) == KnownBefore(body, uses, known, i)
  {
    hide Met, Names;
    OwnUsesKnown(body, uses, known, i);
    OwnUses(uses, []);
    MetNames(KnownBefore(body, uses, known, i), uses([]));
  }

  /** Once every leaf has been run, no new generator is met. */
  lemma {:induction false} KnownSettles(body: seq<Section>, uses: Uses, known: seq<Use>, i: nat)
    requires i >= Count(body)
    ensures KnownBefore(body, uses, known, i) == KnownBefore(body, uses, known, Count(body))
    decreases i
  {
    hide KnownBefore;
    if i > Count(body) {
      KnownSettles(body, uses, known, i - 1);
      QuietRunMeetsNothing(body, uses, known, i - 1);
    }
  }

  // ------------------------------------------------------------ between the runs

  /** Before run i: i leaves are covered, and the generators show what the run will see. */
  ghost predicate Before(body: seq<Section>, uses: Uses, known: seq<Use>, i: nat,
                         tree: TrackedSection, met: seq<Use>, indices: seq<nat>) {
    && Done(tree, body, Min(i, Count(body))) && met == KnownBefore(body, uses, known, i)
    && |indices| == |met|
    && if i < Count(body) then AllZero(indices) else Shows(body, uses, known, i, indices)
  }

  ghost predicate After(body: seq<Section>, uses: Uses, known: seq<Use>, i: nat,
                        tree: TrackedSection, met: seq<Use>, indices: seq<nat>) {
    && Done(tree, body, Min(i + 1, Count(body))) && met == KnownBefore(body, uses, known, i + 1)
    && Shows(body, uses, known, i, indices)
  }

  /** Run i, on the tracker. */
  lemma RunTracks(s: Tracker, body: seq<Section>, i: nat)
    requires Distinct(body) && Covered(s, body, Min(i, Count(body)))
    ensures Covered(AfterRun(s, body), body, Min(i + 1, Count(body)))
    ensures Entered(TestCaseEntered(s), body) == RunEnters(body, i)
    ensures AfterRun(s, body).testCase.runState == Completed <==> i + 1 >= Count(body)
  {
    if i < Count(body) {
      RunCoversNextLeaf(s, body, i);
    } else {
      CompletedRunIsQuiet(s, body);
    }
  }

  /** Run i, on the generators: new ones are registered at their first value. */
  lemma RunShows(body: seq<Section>, uses: Uses, known: seq<Use>, i: nat, met: seq<Use>, indices: seq<nat>)
    requires met == KnownBefore(body, uses, known, i) && |indices| == |met|
    requires if i < Count(body) then AllZero(indices) else Shows(body, uses, known, i, indices)
    ensures var met' := Met(met, Evaluated(uses, RunEnters(body, i)));
            && |met| <= |met'| && met' == KnownBefore(body, uses, known, i + 1)
            && Shows(body, uses, known, i, indices + Zeros(|met'| - |met|))
  {
    hide Met, Names, Evaluated, RunEnters;
    MetNames(met, Evaluated(uses, RunEnters(body, i)));
    if i >= Count(body) {
      QuietRunMeetsNothing(body, uses, known, i);
      assert indices + Zeros(0) == indices;
    }
  }

  lemma ShownDigits(body: seq<Section>, uses: Uses, known: seq<Use>, i: nat, indices: seq<nat>)
    requires i + 1 >= Count(body) && Shows(body, uses, known, i, indices)
    ensures var sizes, n := AllSizes(body, uses, known), i + 1 - Count(body);
            n < Total(sizes) && indices == Digits(sizes, n)
  {
    hide KnownBefore, Total, Digits;
    if i + 1 == Count(body) {
      ZeroIsFirst(AllSizes(body, uses, known), indices);
    }
  }

  /** From the run of the last leaf on, each combination of values is shown in exactly one run. */
  lemma CombinationInOneRun(body: seq<Section>, uses: Uses, known: seq<Use>, i: nat, indices: seq<nat>)
    requires InRange(AllSizes(body, uses, known), indices)
    requires Count(body) <= i + 1 <= RunCount(body, uses, known)
    ensures Shows(body, uses, known, i, indices) <==> i + 1 == Count(body) + Number(AllSizes(body, uses, known), indices)
  {
    hide KnownBefore, Total, Digits, Number;
    var sizes, n := AllSizes(body, uses, known), i + 1 - Count(body);
    DigitsNumber(sizes, indices);
    NumberDigits(sizes, n);
    if Shows(body, uses, known, i, indices) {
      ShownDigits(body, uses, known, i, indices);
    } else if n == 0 {
      ZeroIsFirst(sizes, Zeros(|sizes|));
    }
  }

  /** The sections are covered: the generators move on, or have shown every combination. */
  lemma AdvanceShows(body: seq<Section>, uses: Uses, known: seq<Use>, i: nat, met: seq<Use>, indices: seq<nat>)
    requires met == KnownBefore(body, uses, known, i + 1) && i + 1 >= Count(body)
    requires Shows(body, uses, known, i, indices) && |indices| == |met|
    ensures var (next, more) := Advance(SizesMet(met), indices);
            && (more ==> Shows(body, uses, known, i + 1, next))
            && (!more ==> i + 1 == RunCount(body, uses, known) && AllZero(next))
  {
    hide KnownBefore, Total, Digits, Advance;
    KnownSettles(body, uses, known, i + 1);
    ShownDigits(body, uses, known, i, indices);
    AdvanceDigits(SizesMet(met), i + 1 - Count(body));
  }

  /** Run i, as a whole. */
  lemma RunStep(body: seq<Section>, uses: Uses, known: seq<Use>, i: nat, s: Tracker, met: seq<Use>, indices: seq<nat>)
    requires Distinct(body) && Before(body, uses, known, i, s.testCase, met, indices)
    ensures Entered(TestCaseEntered(s), body) == RunEnters(body, i)
    ensures AfterRun(s, body).testCase.runState == Completed <==> i + 1 >= Count(body)
    ensures var met' := Met(met, Evaluated(uses, RunEnters(body, i)));
            && |met| <= |met'|
            && After(body, uses, known, i, AfterRun(s, body).testCase, met', indices + Zeros(|met'| - |met|))
  {
    hide Done, Shows, Met, Evaluated, RunEnters, AfterRun, Entered;
    RunTracks(s, body, i);
    RunShows(body, uses, known, i, met, indices);
  }

  lemma NextLeaf(body: seq<Section>, uses: Uses, known: seq<Use>, i: nat,
                 tree: TrackedSection, met: seq<Use>, indices: seq<nat>)
    requires After(body, uses, known, i, tree, met, indices) && i + 1 < Count(body)
    ensures Before(body, uses, known, i + 1, tree, met, indices)
  {
  }

  /** After the sections are covered: what `moveNext` answers, and the state it leaves. */
  lemma NextCombination(body: seq<Section>, uses: Uses, known: seq<Use>, i: nat,
                        tree: TrackedSection, met: seq<Use>, indices: seq<nat>)
    requires After(body, uses, known, i, tree, met, indices) && i + 1 >= Count(body) && |indices| == |met|
    ensures var (next, more) := Advance(SizesMet(met), indices);
            && (more ==> Before(body, uses, known, i + 1, tree, met, next) && i + 1 < RunCount(body, uses, known))
            && (!more ==> i + 1 == RunCount(body, uses, known) && tree.runState == Completed && AllZero(next))
  {
    hide Advance, KnownBefore, SizesMet, Total;
    AdvanceShows(body, uses, known, i, met, indices);
  }

  /** The runs so far are the first ones, and none but the last left the runner aborting. */
  ghost predicate Ran(body: seq<Section>, uses: Uses, known: seq<Use>, aborting: nat -> bool, runs: seq<Run>) {
    && |runs| <= RunCount(body, uses, known)
    && (forall i :: 0 <= i < |runs| ==>
          runs[i].entered == RunEnters(body, i) && Shows(body, uses, known, i, runs[i].indices))
    && (forall i :: 0 <= i < |runs| - 1 ==> !aborting(i))
  }

  lemma RanMore(body: seq<Section>, uses: Uses, known: seq<Use>, aborting: nat -> bool, runs: seq<Run>, run: Run)
    requires Ran(body, uses, known, aborting, runs) && (runs != [] ==> !aborting(|runs| - 1))
    requires run.entered == RunEnters(body, |runs|) && Shows(body, uses, known, |runs|, run.indices)
    ensures Ran(body, uses, known, aborting, runs + [run])
  {
    hide AllSizes, Total, RunEnters, KnownBefore;
  }

  /** The loop ended: after all runs, with every section completed and every generator back at
      its first value, or earlier because the last run left the runner aborting. */
  ghost predicate Stopped(body: seq<Section>, uses: Uses, known: seq<Use>, aborting: nat -> bool, runs: nat,
                          tree: TrackedSection, indices: seq<nat>) {
    && runs >= 1
    && (runs < RunCount(body, uses, known) ==> aborting(runs - 1))
    && (runs == RunCount(body, uses, known) ==> tree.runState == Completed && AllZero(indices))
  }

  /** The generators were advanced once more after the last run, aborting or not. */
  ghost predicate AdvancedFrom(runs: seq<Run>, sizes: seq<Size>, indices: seq<nat>) {
    && runs != [] && |runs[|runs| - 1].indices| == |sizes|
    && indices == Advance(sizes, runs[|runs| - 1].indices).0
  }

  /** What the outer loop decides after run i. */
  lemma AfterSections(body: seq<Section>, uses: Uses, known: seq<Use>, aborting: nat -> bool, i: nat,
                      tree: TrackedSection, met: seq<Use>, indices: seq<nat>)
    requires After(body, uses, known, i, tree, met, indices) && |indices| == |met|
    requires i + 1 >= Count(body) || aborting(i)
    ensures var (next, advanced) := Advance(SizesMet(met), indices);
            if advanced && !aborting(i)
            then Before(body, uses, known, i + 1, tree, met, next) && i + 1 < RunCount(body, uses, known)
            else Stopped(body, uses, known, aborting, i + 1, tree, next)
  {
    hide After, Before, Advance, SizesMet, AllZero;
    if i + 1 >= Count(body) {
      NextCombination(body, uses, known, i, tree, met, indices);
    }
  }

  // ------------------------------------- do sections and generators combine?

  /** Some run enters leaf l and shows the generators it has met at their values of combination n. */
  ghost predicate Pairs(body: seq<Section>, uses: Uses, known: seq<Use>, l: nat, n: nat)
    requires l < Count(body) && n < Total(AllSizes(body, uses, known))
  {
    exists i: nat, indices: seq<nat> ::
      && i < RunCount(body, uses, known) && RunEnters(body, i) == LeafChain(body, l)
      && Shows(body, uses, known, i, indices) && indices <= Combinations(AllSizes(body, uses, known))[n]
  }

  lemma PairedBy(body: seq<Section>, uses: Uses, known: seq<Use>, l: nat, n: nat, i: nat, indices: seq<nat>)
    requires l < Count(body) && n < Total(AllSizes(body, uses, known)) && i < RunCount(body, uses, known)
    requires RunEnters(body, i) == LeafChain(body, l)
    requires Shows(body, uses, known, i, indices) && indices <= Combinations(AllSizes(body, uses, known))[n]
    ensures Pairs(body, uses, known, l, n)
  {
  }

  lemma {:induction false} KnownGrows(body: seq<Section>, uses: Uses, known: seq<Use>, i: nat, j: nat)
    requires i <= j
    ensures KnownBefore(body, uses, known, i) <= KnownBefore(body, uses, known, j)
    decreases j
  {
    hide KnownBefore;
    if i < j {
      hide Met, Names, Evaluated, RunEnters;
      KnownGrows(body, uses, known, i, j - 1);
      KnownStep(body, uses, known, j - 1);
      MetNames(KnownBefore(body, uses, known, j - 1), Evaluated(uses, RunEnters(body, j - 1)));
    }
  }

  /** Every leaf is run with the first combination. */
  lemma FirstCombinationPairs(body: seq<Section>, uses: Uses, known: seq<Use>, l: nat)
    requires l < Count(body)
    ensures Pairs(body, uses, known, l, 0)
  {
    hide KnownBefore, Total, Digits, RunEnters, LeafChain;
    var sizes, indices := AllSizes(body, uses, known), Zeros(|KnownBefore(body, uses, known, l + 1)|);
    KnownGrows(body, uses, known, l + 1, Count(body));
    ZeroIsFirst(sizes, Zeros(|sizes|));
    assert indices <= Zeros(|sizes|);
    LeafRunEnters(body, l);
    PairedBy(body, uses, known, l, 0, l, indices);
  }

  lemma LeafRunEnters(body: seq<Section>, l: nat)
    requires l < Count(body)
    ensures RunEnters(body, l) == LeafChain(body, l)
  {
  }

  /** A test without sections is run with every combination. */
  lemma PlainTestPairs(uses: Uses, known: seq<Use>, n: nat)
    requires n < Total(AllSizes([], uses, known))
    ensures Pairs([], uses, known, 0, n)
  {
    hide KnownBefore, Total, Digits;
    if n == 0 {
      FirstCombinationPairs([], uses, known, 0);
    } else {
      assert LeafChain([], 0) == [];
      PairedBy([], uses, known, 0, n, n, Combinations(AllSizes([], uses, known))[n]);
    }
  }

  /** A leaf's sections are entered in the run with its number only. */
  lemma LeafRunIs(body: seq<Section>, l: nat, i: nat)
    requires Distinct(body) && body != [] && l < Count(body) && RunEnters(body, i) == LeafChain(body, l)
    ensures i == l
  {
    LeafEnteredInOneRun(body, l, l);
    if i < Count(body) {
      LeafEnteredInOneRun(body, l, i);
    }
  }

  lemma NotPrefix(a: seq<nat>, b: seq<nat>)
    requires |a| == |b| && a != b
    ensures !(a <= b)
  {
    assert b[..|b|] == b;
  }

  /** The last leaf is not run with the second combination. */
  lemma SecondCombinationMissesLastLeaf(body: seq<Section>, uses: Uses, known: seq<Use>)
    requires Distinct(body) && body != [] && Total(AllSizes(body, uses, known)) >= 2
    ensures !Pairs(body, uses, known, Count(body) - 1, 1)
  {
    hide KnownBefore, Total, Digits, RunEnters, LeafChain, Number;
    var sizes, l := AllSizes(body, uses, known), Count(body) - 1;
    forall i: nat, indices: seq<nat> |
      RunEnters(body, i) == LeafChain(body, l) && Shows(body, uses, known, i, indices)
      ensures !(indices <= Combinations(sizes)[1])
    {
      LeafRunIs(body, l, i);
      ShownDigits(body, uses, known, i, indices);
      NumberDigits(sizes, 0);
      NumberDigits(sizes, 1);
      var second := Combinations(sizes)[1];
      assert second == Digits(sizes, 1);
      NotPrefix(indices, second);
    }
  }

  /** Every leaf is run with every combination of generator values exactly when the test has no
      sections or there is only one combination. */
  lemma CombineExactly(body: seq<Section>, uses: Uses, known: seq<Use>)
    requires Distinct(body)
    ensures (forall l: nat, n: nat :: l < Count(body) && n < Total(AllSizes(body, uses, known)) ==>
               Pairs(body, uses, known, l, n))
       <==> body == [] || Total(AllSizes(body, uses, known)) == 1
  {
    hide Pairs, Total;
    if body == [] {
      assert Count(body) == 1;
      forall n: nat | n < Total(AllSizes(body, uses, known)) ensures Pairs(body, uses, known, 0, n) {
        PlainTestPairs(uses, known, n);
      }
    } else if Total(AllSizes(body, uses, known)) == 1 {
      forall l: nat | l < Count(body) ensures Pairs(body, uses, known, l, 0) {
        FirstCombinationPairs(body, uses, known, l);
      }
    } else {
      SecondCombinationMissesLastLeaf(body, uses, known);
    }
  }

  /** There is one combination exactly when every generator has one value. */
  lemma {:induction false} OneCombination(sizes: seq<Size>)
    ensures Total(sizes) == 1 <==> forall i :: 0 <= i < |sizes| ==> sizes[i] == 1
    decreases |sizes|
  {
    if sizes != [] {
      var r, t := Radix(sizes[0]), Total(sizes[1..]);
      OneCombination(sizes[1..]);
      assert forall i :: 0 < i < |sizes| ==> sizes[i] == sizes[1..][i - 1];
      if r * t == 1 {
        StepBelow(r, 0, t);
        StepBelow(t, 0, r);
      }
    }
  }

  /** One section and, outside it, one generator of two values. */
  const ONE_SECTION: seq<Section> := [Section("section", [])]

  lemma OneSectionRun()
    ensures Count(ONE_SECTION) == 1 && RunEnters(ONE_SECTION, 0) == [["section"]]
  {
    var section: Path := ["section"];
    assert ONE_SECTION[1..] == [] && [] + ["section"] == section;
    assert LeavesOf([], ONE_SECTION[1..]) == [];
    assert Leaves(section, []) == [section];
    assert Leaves([], ONE_SECTION) == [section];
    assert section[..1] == section;
  }

  function TwoValues(p: Path): seq<Use> {
    if p == [] then [Use("generator", 2)] else []
  }

  lemma OneUse(use: Use)
    ensures Met([], [use]) == [use] && SizesMet([use]) == [use.size]
  {
    assert [use][1..] == [] && [] + [use] == [use];
  }

  /** The single run over the section meets the generators of both blocks. */
  lemma OneSectionKnown(uses: Uses, use: Use)
    requires uses([]) + uses(["section"]) == [use]
    ensures AllSizes(ONE_SECTION, uses, []) == [use.size]
  {
    hide Met;
    OneSectionRun();
    OneUse(use);
    var section: Path, own: seq<Path> := ["section"], [[]];
    assert (own + [section])[1..] == [section] && [section][1..] == [];
    assert UsesOn(uses, [section]) == uses(section);
    KnownStep(ONE_SECTION, uses, [], 0);
    KnownFirst(ONE_SECTION, uses, []);
  }

  lemma OneWheel(size: Size)
    requires size > 0
    ensures Total([size]) == size
    ensures forall n: nat :: n < size ==> Digits([size], n) == [n]
  {
    assert [size][1..] == [] && Total([]) == 1;
    forall n: nat | n < size ensures Digits([size], n) == [n] {
      assert Digits([size], n) == [n % Radix(size)] + Digits([], n / Radix(size));
    }
  }

  /** The section is never run with the second value. */
  lemma SecondValueMissesSection()
    ensures Count(ONE_SECTION) == 1 && AllSizes(ONE_SECTION, TwoValues, []) == [2]
    ensures Total([2]) == 2 && !Pairs(ONE_SECTION, TwoValues, [], 0, 1)
  {
    hide AllSizes, Pairs, Digits;
    OneSectionRun();
    OneSectionKnown(TwoValues, Use("generator", 2));
    OneWheel(2);
    SecondCombinationMissesLastLeaf(ONE_SECTION, TwoValues, []);
  }

  function ThreeValuesInside(p: Path): seq<Use> {
    if p == ["section"] then [Use("generator", 3)] else []
  }

  /** The generator is inside the section: still three runs, the last two outside the section. */
  lemma GeneratorInsideSection()
    ensures AllSizes(ONE_SECTION, ThreeValuesInside, []) == [3] && RunCount(ONE_SECTION, ThreeValuesInside, []) == 3
    ensures RunEnters(ONE_SECTION, 0) == [["section"]] && RunEnters(ONE_SECTION, 1) == RunEnters(ONE_SECTION, 2) == []
    ensures forall i: nat :: i < 3 ==> Shows(ONE_SECTION, ThreeValuesInside, [], i, [i])
  {
    hide KnownBefore, Digits, Total;
    OneSectionRun();
    OneSectionKnown(ThreeValuesInside, Use("generator", 3));
    OneWheel(3);
    assert |AllSizes(ONE_SECTION, ThreeValuesInside, [])| == |KnownBefore(ONE_SECTION, ThreeValuesInside, [], 1)|;
    assert Zeros(1) == [0];
  }

  lemma ZerosGrow(indices: seq<nat>, n: nat)
    ensures indices + Zeros(n) + [0] == indices + Zeros(n + 1)
    ensures indices + Zeros(0) == indices
  {
  }

  // ------------------------------------------------------------------ the class

  class RunContext {
    var tracker: TestCaseTracker
    const generators: GeneratorsForTest

    constructor ()
      ensures fresh(tracker) && fresh(generators)
      ensures generators.Valid() && generators.known == [] && generators.inOrder == []
    {
      tracker := new TestCaseTracker();
      generators := new GeneratorsForTest();
    }

    /** The generator expressions of one run, in the order they are reached. */
    method EvaluateGenerators(uses: seq<Use>)
      requires generators.Valid()
      modifies generators
      ensures generators.Valid() && generators.known == Met(old(generators.known), uses)
      ensures |old(generators.inOrder)| <= |generators.inOrder|
      ensures generators.Indices()
           == old(generators.Indices()) + Zeros(|generators.inOrder| - |old(generators.inOrder)|)
      ensures forall g <- generators.inOrder :: g in old(generators.inOrder) || fresh(g)
    {
      hide Met, Names, Number, Zeros, InRange, SizesMet;
      ghost var start := generators.Indices();
      ghost var n := |generators.inOrder|;
      ZerosGrow(start, 0);
      for i := 0 to |uses|
        invariant generators.Valid() && Met(generators.known, uses[i..]) == Met(old(generators.known), uses)
        invariant n <= |generators.inOrder| && generators.Indices() == start + Zeros(|generators.inOrder| - n)
        invariant forall g <- generators.inOrder :: g in old(generators.inOrder) || fresh(g)
      {
        MetFirst(generators.known, uses[i..]);
        assert uses[i..][1..] == uses[i + 1..];
        ZerosGrow(start, |generators.inOrder| - n);
        var info := generators.GetGeneratorInfo(uses[i].fileInfo, uses[i].size);
      }
      MetNothing(generators.known);
    }

    /** One run of the test.  Tracker and generators share no state, so the generators are
        evaluated here after the sections, in the order the sections were entered. */
    method RunCurrentTest(body: seq<Section>, uses: Uses) returns (run: Run)
      requires generators.Valid()
      modifies tracker, generators
      ensures generators.Valid() && tracker.State() == AfterRun(old(tracker.State()), body)
      ensures run.entered == Entered(TestCaseEntered(old(tracker.State())), body)
      ensures |old(generators.inOrder)| <= |generators.inOrder|
      ensures run.indices == generators.Indices()
           == old(generators.Indices()) + Zeros(|generators.inOrder| - |old(generators.inOrder)|)
      ensures generators.known == Met(old(generators.known), Evaluated(uses, run.entered))
      ensures forall name :: name in Names(generators.known) <==>
                               || name in Names(old(generators.known)) || name in Names(uses([]))
                               || exists q <- run.entered :: name in Names(uses(q))
      ensures forall g <- generators.inOrder :: g in old(generators.inOrder) || fresh(g)
    {
      hide Met, UsesOn, Names, Zeros, AfterRun, Entered;
      var entered := tracker.RunCurrentTest(body);
      EvaluateGenerators(UsesOn(uses, [[]] + entered));
      EvaluatedNames(old(generators.known), uses, entered);
      var indices := generators.CurrentIndices();
      run := Run(entered, indices);
    }

    /** The inner loop: run the test until its sections are covered or the runner aborts. */
    method RunSections(body: seq<Section>, uses: Uses, aborting: nat -> bool, before: seq<Run>, ghost known: seq<Use>)
      returns (runs: seq<Run>)
      requires generators.Valid() && Distinct(body)
      requires Ran(body, uses, known, aborting, before) && (before != [] ==> !aborting(|before| - 1))
      requires Before(body, uses, known, |before|, tracker.testCase, generators.known, generators.Indices())
      modifies tracker, generators
      ensures generators.Valid() && Ran(body, uses, known, aborting, runs) && |before| < |runs|
      ensures After(body, uses, known, |runs| - 1, tracker.testCase, generators.known, generators.Indices())
      ensures |runs| >= Count(body) || aborting(|runs| - 1)
      ensures runs[|runs| - 1].indices == generators.Indices()
      ensures forall g <- generators.inOrder :: g in old(generators.inOrder) || fresh(g)
    {
      hide Before, After, Ran, Met, Evaluated, RunEnters, AfterRun, Entered, Zeros, Names, RunCount, Count, InRange;
      runs := before;
      var pending := true;
      while pending
        invariant generators.Valid() && Ran(body, uses, known, aborting, runs)
        invariant |before| <= |runs| && (!pending ==> |before| < |runs|)
        invariant pending ==>
                    && Before(body, uses, known, |runs|, tracker.testCase, generators.known, generators.Indices())
                    && (runs != [] ==> !aborting(|runs| - 1))
        invariant !pending ==>
                    && runs[|runs| - 1].indices == generators.Indices()
                    && After(body, uses, known, |runs| - 1, tracker.testCase, generators.known, generators.Indices())
                    && (|runs| >= Count(body) || aborting(|runs| - 1))
        invariant forall g <- generators.inOrder :: g in old(generators.inOrder) || fresh(g)
        decreases RunCount(body, uses, known) - |runs|, pending
      {
        ghost var i := |runs|;
        RunStep(body, uses, known, i, tracker.State(), generators.known, generators.Indices());
        var run := RunCurrentTest(body, uses);
        AfterShows(body, uses, known, i, tracker.testCase, generators.known, generators.Indices());
        RanMore(body, uses, known, aborting, runs, run);
        RanBounded(body, uses, known, aborting, runs + [run]);
        runs := runs + [run];
        pending := tracker.testCase.runState != Completed && !aborting(|runs| - 1);
        if pending {
          NextLeaf(body, uses, known, i, tracker.testCase, generators.known, generators.Indices());
        }
      }
    }

    /** Run the test until its sections are covered, then once for every further combination
        of its generators; stop after the first run that leaves the runner aborting. */
    method RunTest(body: seq<Section>, uses: Uses, aborting: nat -> bool) returns (runs: seq<Run>)
      requires Distinct(body) && generators.Valid() && AllZero(generators.Indices())
      modifies this, generators, generators.inOrder
      ensures generators.Valid()
      ensures Ran(body, uses, old(generators.known), aborting, runs)
      ensures Stopped(body, uses, old(generators.known), aborting, |runs|, tracker.testCase, generators.Indices())
      ensures AdvancedFrom(runs, generators.Sizes(), generators.Indices())
    {
      hide Before, After, Ran, Stopped, Met, Names, RunCount, Count, Advance, SizesMet, AllZero, InRange, IndicesOf;
      hide GeneratorsForTest.Valid, KnownBefore, Shows, Distinct, GeneratorsForTest.Sizes, GeneratorsForTest.Indices;
      tracker := new TestCaseTracker();
      runs := [];
      ghost var known := generators.known;
      generators.WheelForEach();
      FirstRun(body, uses, known, aborting, generators.Indices());
      var more := true;
      while more
        invariant generators.Valid() && fresh(tracker) && Ran(body, uses, known, aborting, runs)
        invariant forall g <- generators.inOrder :: g in old(generators.inOrder) || fresh(g)
        invariant more ==>
                    && Before(body, uses, known, |runs|, tracker.testCase, generators.known, generators.Indices())
                    && (runs != [] ==> !aborting(|runs| - 1))
        invariant !more ==> AdvancedFrom(runs, generators.Sizes(), generators.Indices())
        invariant !more ==> Stopped(body, uses, known, aborting, |runs|, tracker.testCase, generators.Indices())
        decreases RunCount(body, uses, known) - |runs|, more
      {
        runs := RunSections(body, uses, aborting, runs, known);
        assert forall j :: 0 <= j < |generators.inOrder| ==>
                 generators.inOrder[j] in old(generators.inOrder) || fresh(generators.inOrder[j]);
        RanBounded(body, uses, known, aborting, runs);
        generators.WheelForEach();
        AfterSections(body, uses, known, aborting, |runs| - 1, tracker.testCase, generators.known, generators.Indices());
        var advanced := generators.MoveNext();
        more := advanced && !aborting(|runs| - 1);
      }
    }
  }

  lemma AfterShows(body: seq<Section>, uses: Uses, known: seq<Use>, i: nat,
                   tree: TrackedSection, met: seq<Use>, indices: seq<nat>)
    requires After(body, uses, known, i, tree, met, indices)
    ensures Shows(body, uses, known, i, indices)
  {
  }

  lemma RanBounded(body: seq<Section>, uses: Uses, known: seq<Use>, aborting: nat -> bool, runs: seq<Run>)
    requires Ran(body, uses, known, aborting, runs)
    ensures |runs| <= RunCount(body, uses, known)
  {
  }

  /** Where the loop starts. */
  lemma FirstRun(body: seq<Section>, uses: Uses, known: seq<Use>, aborting: nat -> bool, indices: seq<nat>)
    requires AllZero(indices) && |indices| == |known|
    ensures Before(body, uses, known, 0, FRESH, known, indices) && Ran(body, uses, known, aborting, [])
  {
  }
}
