/**
 Catch generators: every registered generator holds an index, and `moveNext` advances the
 indices like an odometer whose first wheel is the first generator registered.

 `std::size_t` arithmetic wraps at 2^64, so a generator of size 0 behaves as a wheel with
 2^64 positions: its index meets 0 only after wrapping.
 */
module Generators {

  const SIZE_LIMIT: nat := 0x1_0000_0000_0000_0000

  type Size = n: nat | n < SIZE_LIMIT

  class GeneratorInfo {
    const size: Size
    var currentIndex: Size

    constructor (size: Size)
      ensures this.size == size && currentIndex == 0
    {
      this.size := size;
      currentIndex := 0;
    }

    method MoveNext() returns (more: bool)
      requires currentIndex < Radix(size)
      modifies this
      ensures currentIndex < Radix(size)
      ensures more <==> old(currentIndex) + 1 < Radix(size)
      ensures currentIndex == if more then old(currentIndex) + 1 else 0
    {
      currentIndex := (currentIndex + 1) % SIZE_LIMIT;
      if currentIndex == size {
        currentIndex := 0;
        return false;
      }
      return true;
    }
  }

  /** Positions of a wheel. */
  function Radix(size: Size): (r: nat)
    ensures r >= 1
  {
    if size == 0 then SIZE_LIMIT else size
  }

  ghost predicate InRange(sizes: seq<Size>, indices: seq<nat>) {
    |indices| == |sizes| && forall i :: 0 <= i < |sizes| ==> indices[i] < Radix(sizes[i])
  }

  /** Number of combinations. */
  function Total(sizes: seq<Size>): (t: nat)
    ensures t >= 1
    decreases |sizes|
  {
    if sizes == [] then 1 else TimesPositive(Radix(sizes[0]), Total(sizes[1..])); Radix(sizes[0]) * Total(sizes[1..])
  }

  lemma TimesPositive(a: nat, b: nat)
    requires a >= 1 && b >= 1
    ensures a * b >= 1
  {
  }

  /** The mixed-radix number the wheels show, least significant wheel first. */
  function Number(sizes: seq<Size>, indices: seq<nat>): nat
    requires |sizes| == |indices|
    decreases |sizes|
  {
    if sizes == [] then 0 else indices[0] + Radix(sizes[0]) * Number(sizes[1..], indices[1..])
  }

  function Digits(sizes: seq<Size>, n: nat): (indices: seq<nat>)
    ensures |indices| == |sizes|
    decreases |sizes|
  {
    if sizes == [] then [] else [n % Radix(sizes[0])] + Digits(sizes[1..], n / Radix(sizes[0]))
  }

  /** What one call of `moveNext` does to the wheels, and its answer. */
  function Advance(sizes: seq<Size>, indices: seq<nat>): (r: (seq<nat>, bool))
    requires |sizes| == |indices|
    ensures |r.0| == |sizes|
    decreases |sizes|
  {
    if sizes == [] then ([], false)
    else if indices[0] + 1 < Radix(sizes[0]) then ([indices[0] + 1] + indices[1..], true)
    else
      var rest := Advance(sizes[1..], indices[1..]);
      ([0] + rest.0, rest.1)
  }

  lemma TailInRange(sizes: seq<Size>, indices: seq<nat>)
    requires InRange(sizes, indices) && sizes != []
    ensures InRange(sizes[1..], indices[1..]) && indices[0] < Radix(sizes[0])
  {
  }

  lemma {:induction false} NumberBelowTotal(sizes: seq<Size>, indices: seq<nat>)
    requires InRange(sizes, indices)
    ensures Number(sizes, indices) < Total(sizes)
    decreases |sizes|
  {
    if sizes != [] {
      TailInRange(sizes, indices);
      NumberBelowTotal(sizes[1..], indices[1..]);
      StepBelow(Radix(sizes[0]), Number(sizes[1..], indices[1..]), Total(sizes[1..]));
    }
  }

  lemma Distribute(r: nat, a: nat, d: nat)
    ensures r * (a + 1 + d) == r * a + r + r * d
  {
  }

  lemma StepBelow(r: nat, a: nat, b: nat)
    requires a < b
    ensures r * a + r <= r * b
  {
    Distribute(r, a, b - a - 1);
    TimesNotNegative(r, b - a - 1);
  }

  lemma TimesNotNegative(r: nat, d: nat)
    ensures r * d >= 0
  {
  }

  /** Adding one to a wheel at i over the number a of the higher wheels, of t possible. */
  lemma Carry(i: nat, r: nat, a: nat, t: nat)
    requires i < r && a < t
    ensures i + 1 < r ==> i + r * a + 1 < r * t
    ensures i + 1 == r ==> i + r * a + 1 == r * (a + 1) && (i + r * a + 1 < r * t <==> a + 1 < t)
  {
    StepBelow(r, a, t);
    Distribute(r, a, 0);
    if a + 1 < t {
      StepBelow(r, a + 1, t);
    }
  }

  /** A true `moveNext` adds exactly one; a false one leaves all wheels at zero, and comes
      exactly on the last combination. */
  lemma {:induction false} AdvanceCounts(sizes: seq<Size>, indices: seq<nat>)
    requires InRange(sizes, indices)
    ensures var (next, more) := Advance(sizes, indices);
            && InRange(sizes, next)
            && (more <==> Number(sizes, indices) + 1 < Total(sizes))
            && (more ==> Number(sizes, next) == Number(sizes, indices) + 1)
            && (!more ==> AllZero(next) && Number(sizes, next) == 0)
    decreases |sizes|
  {
    if sizes != [] {
      TailInRange(sizes, indices);
      NumberBelowTotal(sizes[1..], indices[1..]);
      Carry(indices[0], Radix(sizes[0]), Number(sizes[1..], indices[1..]), Total(sizes[1..]));
      if indices[0] + 1 < Radix(sizes[0]) {
        assert ([indices[0] + 1] + indices[1..])[1..] == indices[1..];
      } else {
        AdvanceCounts(sizes[1..], indices[1..]);
        var next := Advance(sizes[1..], indices[1..]).0;
        assert ([0] + next)[1..] == next;
      }
    }
  }

  /** The call resets the wheels below the first one that is not at its last position. */
  lemma {:induction false} AdvanceShape(sizes: seq<Size>, indices: seq<nat>, i: nat)
    requires |sizes| == |indices| && i <= |sizes|
    requires forall j :: 0 <= j < i ==> indices[j] + 1 == Radix(sizes[j])
    requires i < |sizes| ==> indices[i] + 1 < Radix(sizes[i])
    ensures var (next, more) := Advance(sizes, indices);
            && more == (i < |sizes|)
            && (forall j :: 0 <= j < |sizes| ==>
                  next[j] == if j < i then 0 else if j == i then indices[i] + 1 else indices[j])
    decreases |sizes|
  {
    if sizes != [] && i > 0 {
      AdvanceShape(sizes[1..], indices[1..], i - 1);
    }
  }

  ghost predicate AllZero(indices: seq<nat>) {
    forall i :: 0 <= i < |indices| ==> indices[i] == 0
  }

  lemma {:induction false} DigitsNumber(sizes: seq<Size>, indices: seq<nat>)
    requires InRange(sizes, indices)
    ensures Digits(sizes, Number(sizes, indices)) == indices
    decreases |sizes|
  {
    if sizes != [] {
      var r, rest := Radix(sizes[0]), Number(sizes[1..], indices[1..]);
      TailInRange(sizes, indices);
      DivideBack(indices[0], r, rest);
      DigitsNumber(sizes[1..], indices[1..]);
    }
  }

  lemma DivideBack(i: nat, r: nat, q: nat)
    requires i < r
    ensures (i + r * q) % r == i && (i + r * q) / r == q
  {
    var n := i + r * q;
    assert r * (n / r - q) == i - n % r;
    if n / r - q >= 1 {
      StepBelow(r, 0, n / r - q);
    } else if q - n / r >= 1 {
      StepBelow(r, 0, q - n / r);
    }
  }

  lemma {:induction false} NumberDigits(sizes: seq<Size>, n: nat)
    requires n < Total(sizes)
    ensures InRange(sizes, Digits(sizes, n)) && Number(sizes, Digits(sizes, n)) == n
    decreases |sizes|
  {
    if sizes != [] {
      DivideBelow(n, Radix(sizes[0]), Total(sizes[1..]));
      NumberDigits(sizes[1..], n / Radix(sizes[0]));
    }
  }

  lemma DivideBelow(n: nat, r: nat, t: nat)
    requires r >= 1 && n < r * t
    ensures n / r < t && n == n % r + r * (n / r)
  {
    if t < n / r {
      StepBelow(r, t, n / r);
    }
  }

  /** All combinations in the order they are visited. */
  function Combinations(sizes: seq<Size>): (all: seq<seq<nat>>)
    ensures |all| == Total(sizes)
  {
    seq(Total(sizes), n requires 0 <= n < Total(sizes) => Digits(sizes, n))
  }

  /** Every combination is visited, at one position only. */
  lemma EveryCombinationOnce(sizes: seq<Size>, indices: seq<nat>)
    requires InRange(sizes, indices)
    ensures forall n: nat :: n < Total(sizes) ==>
              (Combinations(sizes)[n] == indices <==> n == Number(sizes, indices))
    ensures Number(sizes, indices) < Total(sizes)
  {
    NumberBelowTotal(sizes, indices);
    DigitsNumber(sizes, indices);
    forall n: nat | n < Total(sizes)
      ensures Combinations(sizes)[n] == indices <==> n == Number(sizes, indices)
    {
      NumberDigits(sizes, n);
    }
  }

  /** A call of `moveNext` shows the next combination, or returns to the first after the last. */
  lemma AdvanceDigits(sizes: seq<Size>, n: nat)
    requires n < Total(sizes)
    ensures var (next, more) := Advance(sizes, Digits(sizes, n));
            && (more ==> n + 1 < Total(sizes) && next == Digits(sizes, n + 1))
            && (!more ==> n + 1 == Total(sizes) && AllZero(next))
  {
    hide Digits, Number, Total, Advance;
    NumberDigits(sizes, n);
    AdvanceCounts(sizes, Digits(sizes, n));
    DigitsNumber(sizes, Advance(sizes, Digits(sizes, n)).0);
  }

  /** A generator registered during the first pass is a new most significant wheel at zero:
      the number shown does not change. */
  lemma {:induction false} RegistrationKeepsNumber(sizes: seq<Size>, indices: seq<nat>, size: Size)
    requires |sizes| == |indices|
    ensures Number(sizes + [size], indices + [0]) == Number(sizes, indices)
    decreases |sizes|
  {
    if sizes == [] {
      assert (sizes + [size])[1..] == [] && (indices + [0])[1..] == [];
    } else {
      assert (sizes + [size])[1..] == sizes[1..] + [size];
      assert (indices + [0])[1..] == indices[1..] + [0];
      RegistrationKeepsNumber(sizes[1..], indices[1..], size);
    }
  }

  function IndicesOf(gs: seq<GeneratorInfo>): (s: seq<nat>)
    reads gs
    ensures |s| == |gs| && forall i :: 0 <= i < |gs| ==> s[i] == gs[i].currentIndex
  {
    seq(|gs|, i requires 0 <= i < |gs| reads gs => gs[i].currentIndex as nat)
  }

  lemma IndicesAre(gs: seq<GeneratorInfo>, indices: seq<nat>)
    requires |gs| == |indices| && forall i :: 0 <= i < |gs| ==> gs[i].currentIndex == indices[i]
    ensures IndicesOf(gs) == indices
  {
  }

  /** The carry loop: advance wheel after wheel until one does not fall back to zero. */
  method RollWheels(wheels: seq<GeneratorInfo>) returns (more: bool, ghost stop: nat)
    requires forall i, j :: 0 <= i < j < |wheels| ==> wheels[i] != wheels[j]
    requires forall i :: 0 <= i < |wheels| ==> wheels[i].currentIndex < Radix(wheels[i].size)
    modifies wheels
    ensures stop <= |wheels| && more == (stop < |wheels|)
    ensures forall j :: 0 <= j < stop ==>
              old(wheels[j].currentIndex) + 1 == Radix(wheels[j].size) && wheels[j].currentIndex == 0
    ensures more ==> old(wheels[stop].currentIndex) + 1 < Radix(wheels[stop].size)
                     && wheels[stop].currentIndex == old(wheels[stop].currentIndex) + 1
    ensures forall j :: stop < j < |wheels| ==> wheels[j].currentIndex == old(wheels[j].currentIndex)
  {
    stop := 0;
    for i := 0 to |wheels|
      invariant stop == i
      invariant forall j :: 0 <= j < i ==>
                  old(wheels[j].currentIndex) + 1 == Radix(wheels[j].size) && wheels[j].currentIndex == 0
      invariant forall j :: i <= j < |wheels| ==> wheels[j].currentIndex == old(wheels[j].currentIndex)
    {
      more := wheels[i].MoveNext();
      if more {
        return;
      }
      stop := i + 1;
    }
    more := false;
  }

  /** A generator expression the test evaluates: its place in the source and its total size. */
  datatype Use = Use(fileInfo: string, size: Size)

  function Names(known: seq<Use>): set<string> {
    set i | 0 <= i < |known| :: known[i].fileInfo
  }

  /** Evaluating generators registers each on its first evaluation, in that order. */
  function Met(known: seq<Use>, uses: seq<Use>): seq<Use>
    decreases |uses|
  {
    if uses == [] then known
    else Met(if uses[0].fileInfo in Names(known) then known else known + [uses[0]], uses[1..])
  }

  function SizesMet(known: seq<Use>): (s: seq<Size>)
    ensures |s| == |known| && forall i :: 0 <= i < |known| ==> s[i] == known[i].size
  {
    seq(|known|, i requires 0 <= i < |known| => known[i].size)
  }

  lemma NamedAt(known: seq<Use>, name: string) returns (i: nat)
    requires name in Names(known)
    ensures i < |known| && known[i].fileInfo == name
  {
    i :| i < |known| && known[i].fileInfo == name;
  }

  lemma NamesAppend(known: seq<Use>, u: Use)
    ensures Names(known + [u]) == Names(known) + {u.fileInfo}
  {
    assert (known + [u])[|known|] == u;
    assert forall i :: 0 <= i < |known| ==> (known + [u])[i] == known[i];
  }

  lemma {:induction false} MetNames(known: seq<Use>, uses: seq<Use>)
    ensures Names(Met(known, uses)) == Names(known) + Names(uses)
    ensures known <= Met(known, uses)
    ensures Names(uses) <= Names(known) ==> Met(known, uses) == known
    decreases |uses|
  {
    if uses != [] {
      NamesAppend(known, uses[0]);
      MetNames(if uses[0].fileInfo in Names(known) then known else known + [uses[0]], uses[1..]);
      NamesFirst(uses);
    }
  }

  lemma MetFirst(known: seq<Use>, uses: seq<Use>)
    requires uses != []
    ensures Met(known, uses) == Met(Met(known, [uses[0]]), uses[1..])
  {
    assert [uses[0]][1..] == [];
  }

  lemma {:induction false} MetConcat(known: seq<Use>, a: seq<Use>, b: seq<Use>)
    ensures Met(known, a + b) == Met(Met(known, a), b)
    decreases |a|
  {
    if a == [] {
      assert a + b == b;
    } else {
      assert (a + b)[1..] == a[1..] + b;
      MetConcat(if a[0].fileInfo in Names(known) then known else known + [a[0]], a[1..], b);
    }
  }

  /** An evaluation finds registered what was met before it, and registers next, if it is new. */
  lemma MetAt(known: seq<Use>, uses: seq<Use>, p: nat) returns (m: nat)
    requires p < |uses|
    ensures m <= |Met(known, uses)| && Names(Met(known, uses)[..m]) == Names(known) + Names(uses[..p])
    ensures uses[p].fileInfo !in Names(known) + Names(uses[..p]) ==> m < |Met(known, uses)| && Met(known, uses)[m] == uses[p]
  {
    hide Names;
    var before := Met(known, uses[..p]);
    m := |before|;
    assert uses == uses[..p] + uses[p..];
    MetConcat(known, uses[..p], uses[p..]);
    MetNames(known, uses[..p]);
    MetNames(before, uses[p..]);
    assert Met(known, uses)[..m] == before;
    if uses[p].fileInfo !in Names(before) {
      assert uses[p..][0] == uses[p];
      MetNames(before + [uses[p]], uses[p..][1..]);
      assert (before + [uses[p]])[m] == uses[p];
    }
  }

  lemma MetNothing(known: seq<Use>)
    ensures Met(known, []) == known
  {
  }

  lemma NamesFirst(uses: seq<Use>)
    requires uses != []
    ensures Names(uses) == {uses[0].fileInfo} + Names(uses[1..])
  {
    assert forall i :: 0 <= i < |uses[1..]| ==> uses[1..][i] == uses[i + 1];
    forall name | name in Names(uses) ensures name in {uses[0].fileInfo} + Names(uses[1..]) {
      var i :| 0 <= i < |uses| && uses[i].fileInfo == name;
      assert i > 0 ==> uses[1..][i - 1].fileInfo == name;
    }
  }

  class GeneratorsForTest {
    var byName: map<string, GeneratorInfo>
    var inOrder: seq<GeneratorInfo>
    ghost var known: seq<Use>

    ghost predicate Valid()
      reads this, inOrder
    {
      && (forall i, j :: 0 <= i < j < |inOrder| ==> inOrder[i] != inOrder[j])
      && |known| == |inOrder| && byName.Keys == Names(known)
      && (forall i :: 0 <= i < |inOrder| ==> inOrder[i].size == known[i].size)
      && (forall i :: 0 <= i < |inOrder| ==> known[i].fileInfo in byName && byName[known[i].fileInfo] == inOrder[i])
      && InRange(Sizes(), Indices())
    }

    ghost function Sizes(): (s: seq<Size>)
      reads this
      ensures |s| == |known|
    {
      SizesMet(known)
    }

    ghost function Indices(): (s: seq<nat>)
      reads this, inOrder
      ensures |s| == |inOrder|
    {
      IndicesOf(inOrder)
    }

    constructor ()
      ensures Valid() && inOrder == [] && byName == map[] && known == []
    {
      byName, inOrder, known := map[], [], [];
    }

    method GetGeneratorInfo(fileInfo: string, size: Size) returns (info: GeneratorInfo)
      requires Valid()
      modifies this
      ensures Valid() && info in inOrder && fileInfo in byName && byName[fileInfo] == info
      ensures old(fileInfo in byName) ==>
                info == old(byName)[fileInfo] && inOrder == old(inOrder) && byName == old(byName)
      ensures !old(fileInfo in byName) ==>
                && fresh(info) && inOrder == old(inOrder) + [info]
                && Sizes() == old(Sizes()) + [size] && Indices() == old(Indices()) + [0]
      ensures known == Met(old(known), [Use(fileInfo, size)])
      ensures Number(Sizes(), Indices()) == old(Number(Sizes(), Indices()))
    {
      hide Number, Names, SizesMet, IndicesOf;
      if fileInfo !in byName {
        info := new GeneratorInfo(size);
        byName := byName[fileInfo := info];
        inOrder := inOrder + [info];
        NamesAppend(known, Use(fileInfo, size));
        known := known + [Use(fileInfo, size)];
        RegistrationKeepsNumber(old(Sizes()), old(Indices()), size);
        assert Sizes() == old(Sizes()) + [size];
        assert Indices() == old(Indices()) + [0];
      } else {
        info := byName[fileInfo];
        ghost var i := NamedAt(known, fileInfo);
        assert inOrder[i] == info;
      }
    }

    lemma WheelForEach()
      requires Valid()
      ensures |Indices()| == |known| && Sizes() == SizesMet(known)
    {
    }

    /** The index each generator is at. */
    method CurrentIndices() returns (indices: seq<nat>)
      requires Valid()
      ensures indices == Indices()
    {
      indices := IndicesOf(inOrder);
    }

    method MoveNext() returns (more: bool)
      requires Valid()
      modifies inOrder
      ensures Valid() && known == old(known) && Sizes() == old(Sizes())
      ensures Indices() == Advance(Sizes(), old(Indices())).0
      ensures more == Advance(Sizes(), old(Indices())).1
    {
      hide Number, Advance, Total, Radix;
      ghost var sizes, start := Sizes(), Indices();
      ghost var stop;
      more, stop := RollWheels(inOrder);
      AdvanceCounts(sizes, start);
      AdvanceShape(sizes, start, stop);
      IndicesAre(inOrder, Advance(sizes, start).0);
    }
  }

  lemma {:induction false} ZeroIsFirst(sizes: seq<Size>, indices: seq<nat>)
    requires |indices| == |sizes| && AllZero(indices)
    ensures Number(sizes, indices) == 0 && Digits(sizes, 0) == indices
    decreases |sizes|
  {
    if sizes != [] {
      ZeroIsFirst(sizes[1..], indices[1..]);
    }
  }
}
