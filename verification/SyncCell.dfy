/**
 The 8-byte sync word shared by C++ and Java rigs.  C++ resets and compares-and-swaps all
 eight bytes; Java resets and compares-and-swaps the first four.  Memory is little-endian.
 */
module SyncCell {

  type Byte = b: int | 0 <= b < 256
  type Bytes = seq<Byte>
  type Cell = c: Bytes | |c| == 8 witness [0, 0, 0, 0, 0, 0, 0, 0]

  /** An `int` state number as the rigs pass it. */
  type StateNumber = v: int | 0 <= v < 0x8000_0000

  function Value(bs: Bytes): (v: nat)
  {
    if bs == [] then 0 else bs[0] + 256 * Value(bs[1..])
  }

  function Encode(v: nat, n: nat): (bs: Bytes)
    ensures |bs| == n
  {
    if n == 0 then [] else [v % 256] + Encode(v / 256, n - 1)
  }

  function Pow256(n: nat): (p: nat)
    ensures p >= 1
  {
    if n == 0 then 1 else 256 * Pow256(n - 1)
  }

  lemma {:induction false} EncodeValue(v: nat, n: nat)
    requires v < Pow256(n)
    ensures Value(Encode(v, n)) == v
    decreases n
  {
    if n > 0 {
      EncodeValue(v / 256, n - 1);
      assert Encode(v, n)[1..] == Encode(v / 256, n - 1);
    }
  }

  lemma FirstByte(bs: Bytes)
    requires bs != []
    ensures Value(bs) == bs[0] + 256 * Value(bs[1..]) && Pow256(|bs|) == 256 * Pow256(|bs| - 1)
    ensures Value(bs) % 256 == bs[0] && Value(bs) / 256 == Value(bs[1..])
  {
  }

  lemma EncodeFirst(v: nat, n: nat)
    requires n > 0
    ensures Encode(v, n) == [v % 256] + Encode(v / 256, n - 1)
  {
  }

  lemma NoBytes()
    ensures Value([]) == 0 && Pow256(0) == 1 && Encode(0, 0) == []
  {
  }

  lemma {:induction false} ValueEncode(bs: Bytes)
    ensures Value(bs) < Pow256(|bs|) && Encode(Value(bs), |bs|) == bs
    decreases |bs|
  {
    hide Value, Encode, Pow256;
    if bs == [] {
      NoBytes();
    } else {
      FirstByte(bs);
      ValueEncode(bs[1..]);
      EncodeFirst(Value(bs), |bs|);
    }
  }

  lemma Associate(x: nat, y: nat)
    ensures 256 * (x * y) == (256 * x) * y
  {
  }

  lemma {:induction false} ValueConcat(a: Bytes, b: Bytes)
    ensures Value(a + b) == Value(a) + Pow256(|a|) * Value(b)
    decreases |a|
  {
    hide Value, Pow256;
    if a == [] {
      NoBytes();
      assert a + b == b;
    } else {
      assert (a + b)[1..] == a[1..] + b;
      FirstByte(a + b);
      FirstByte(a);
      ValueConcat(a[1..], b);
      Associate(Pow256(|a| - 1), Value(b));
    }
  }

  datatype SyncOp =
    | CppStore(v: StateNumber)
    | CppCas(expected: StateNumber, desired: StateNumber)
    | JavaStore(v: StateNumber)
    | JavaCas(expected: StateNumber, desired: StateNumber)

  /** `putInt64Ordered`/`cmpxchg` on eight bytes, `putIntOrdered`/`compareAndSetInt` on four. */
  function Apply(c: Cell, op: SyncOp): (Cell, bool) {
    match op
    case CppStore(v) => (Encode(v, 8), true)
    case CppCas(e, d) => if Value(c) == e then (Encode(d, 8), true) else (c, false)
    case JavaStore(v) => (Encode(v, 4) + c[4..], true)
    case JavaCas(e, d) => if Value(c[..4]) == e then (Encode(d, 4) + c[4..], true) else (c, false)
  }

  function ApplyAll(c: Cell, ops: seq<SyncOp>): (Cell, seq<bool>)
    decreases |ops|
  {
    if ops == [] then (c, []) else
    var (c', answer) := Apply(c, ops[0]);
    var (e, rest) := ApplyAll(c', ops[1..]);
    (e, [answer] + rest)
  }

  /** One compare-and-swap word holding a state number. */
  function Abstract(v: int, op: SyncOp): (int, bool) {
    match op
    case CppStore(w) => (w, true)
    case JavaStore(w) => (w, true)
    case CppCas(e, d) => if v == e then (d, true) else (v, false)
    case JavaCas(e, d) => if v == e then (d, true) else (v, false)
  }

  function AbstractAll(v: int, ops: seq<SyncOp>): (int, seq<bool>)
    decreases |ops|
  {
    if ops == [] then (v, []) else
    var (v', answer) := Abstract(v, ops[0]);
    var (e, rest) := AbstractAll(v', ops[1..]);
    (e, [answer] + rest)
  }

  predicate UpperZero(c: Cell) {
    c[4..] == [0, 0, 0, 0]
  }

  lemma ZeroUpperValue(lo: Bytes, hi: Bytes)
    requires |lo| == 4 && |hi| == 4
    ensures Value(lo + hi) == Value(lo) <==> hi == [0, 0, 0, 0]
  {
    ValueConcat(lo, hi);
    assert Pow256(4) == 0x1_0000_0000;
    assert Value([0, 0, 0, 0]) == 0 by {
      EncodeValue(0, 4);
    }
    if Value(hi) == 0 {
      ValueEncode(hi);
      ValueEncode([0, 0, 0, 0]);
    }
  }

  /** Eight bytes of a state number are its four bytes and four zeros. */
  lemma EncodeStateNumber(v: StateNumber)
    ensures Encode(v, 8) == Encode(v, 4) + [0, 0, 0, 0]
    ensures Value(Encode(v, 4)) == v
  {
    assert Pow256(4) == 0x1_0000_0000;
    assert Pow256(8) == Pow256(4) * Pow256(4) by {
      assert Pow256(5) == 256 * Pow256(4);
      assert Pow256(6) == 256 * Pow256(5);
      assert Pow256(7) == 256 * Pow256(6);
    }
    EncodeValue(v, 4);
    EncodeValue(v, 8);
    ZeroUpperValue(Encode(v, 4), [0, 0, 0, 0]);
    ValueEncode(Encode(v, 4) + [0, 0, 0, 0]);
  }

  lemma StepAgrees(c: Cell, op: SyncOp)
    requires UpperZero(c)
    ensures var (c', answer) := Apply(c, op);
            UpperZero(c') && Abstract(Value(c), op) == (Value(c'), answer)
  {
    assert c == c[..4] + c[4..];
    ZeroUpperValue(c[..4], c[4..]);
    var w := if op.CppStore? || op.JavaStore? then op.v else op.desired;
    EncodeStateNumber(w);
    ZeroUpperValue(Encode(w, 4), [0, 0, 0, 0]);
  }

  /** From a zero upper half, any interleaving of C++ and Java accesses acts as one word. */
  lemma {:induction false} MixedRunIsOneWord(c: Cell, ops: seq<SyncOp>)
    requires UpperZero(c)
    ensures var (e, answers) := ApplyAll(c, ops);
            UpperZero(e) && AbstractAll(Value(c), ops) == (Value(e), answers)
    decreases |ops|
  {
    if ops != [] {
      StepAgrees(c, ops[0]);
      MixedRunIsOneWord(Apply(c, ops[0]).0, ops[1..]);
    }
  }

  /** Bytes touched from any cell: Java accesses leave the upper half alone, a failed
      compare-and-swap leaves everything, a C++ store or successful compare-and-swap zeroes the
      upper half.  The lower half then holds the number stored. */
  lemma BytesTouched(c: Cell, op: SyncOp)
    ensures var (c', answer) := Apply(c, op);
            && (op.JavaStore? || op.JavaCas? ==> c'[4..] == c[4..])
            && ((op.CppStore? || op.CppCas?) && answer ==> UpperZero(c'))
            && (!answer ==> c' == c)
            && (answer ==> Value(c'[..4]) == if op.CppStore? || op.JavaStore? then op.v else op.desired)
  {
    var w := if op.CppStore? || op.JavaStore? then op.v else op.desired;
    EncodeStateNumber(w);
  }

  /** The reset of a starting source gives a word on which the languages agree exactly when the
      source is C++ or the upper half was zero. */
  lemma ResetAgrees(c: Cell, java: bool)
    ensures UpperZero(Apply(c, if java then JavaStore(0) else CppStore(0)).0) <==> !java || UpperZero(c)
  {
    BytesTouched(c, if java then JavaStore(0) else CppStore(0));
  }

  /** The zero upper half is needed: the two languages give the same answer to every
      compare-and-swap exactly when it is zero, or the lower half is no state number. */
  lemma AgreementNeedsZeroUpper(c: Cell)
    ensures (forall e: StateNumber, d: StateNumber :: Apply(c, CppCas(e, d)).1 == Apply(c, JavaCas(e, d)).1)
       <==> UpperZero(c) || Value(c[..4]) >= 0x8000_0000
  {
    assert c == c[..4] + c[4..];
    ZeroUpperValue(c[..4], c[4..]);
    ValueConcat(c[..4], c[4..]);
    assert Pow256(4) == 0x1_0000_0000;
    if !UpperZero(c) {
      assert Value(c) >= 0x1_0000_0000;
      if Value(c[..4]) < 0x8000_0000 {
        var v: StateNumber := Value(c[..4]);
        assert Apply(c, CppCas(v, v)).1 != Apply(c, JavaCas(v, v)).1;
      }
    }
  }

  /** A cell whose upper half is not zero: Java takes it as state 0, C++ never does. */
  lemma UpperHalfDisagrees(d: StateNumber)
    ensures var c: Cell := [0, 0, 0, 0, 1, 0, 0, 0];
            Apply(c, JavaCas(0, d)).1 && !Apply(c, CppCas(0, d)).1
  {
    hide Value, Encode;
    var c: Cell, zeros: Bytes := [0, 0, 0, 0, 1, 0, 0, 0], [0, 0, 0, 0];
    assert c[..4] == zeros && c[4..] == [1, 0, 0, 0] && c == c[..4] + c[4..];
    ZeroValue();
    ZeroUpperValue(c[..4], c[4..]);
  }

  lemma ZeroValue()
    ensures Value([0, 0, 0, 0]) == 0
  {
    EncodeValue(0, 4);
    EncodeStateNumber(0);
    assert Encode(0, 4) == [0, 0, 0, 0];
  }
}
