/**
 Memory as an x86 processor sees it.  A plain or ordered store (`putInt64`,
 `putInt64Ordered`) enters the writer's FIFO buffer and reaches the shared file when it
 drains; a load returns the youngest own buffered value, else the file's.  That is a read
 of the file as it would be after the own buffer drained.
 */
module StoreBuffer {

  datatype Store = Store(addr: nat, value: int)

  function At(mem: seq<int>, a: nat): int {
    if a < |mem| then mem[a] else 0
  }

  function Write(mem: seq<int>, st: Store): (m: seq<int>)
    ensures |m| == |mem|
    ensures forall a: nat :: a != st.addr ==> At(m, a) == At(mem, a)
    ensures st.addr < |mem| ==> At(m, st.addr) == st.value
  {
    if st.addr < |mem| then mem[st.addr := st.value] else mem
  }

  /** The file after every store of the buffer has drained, oldest first. */
  function Drained(mem: seq<int>, buf: seq<Store>): (m: seq<int>)
    ensures |m| == |mem|
    decreases |buf|
  {
    if buf == [] then mem else Drained(Write(mem, buf[0]), buf[1..])
  }

  lemma {:induction false} DrainedAppend(mem: seq<int>, buf: seq<Store>, st: Store)
    ensures Drained(mem, buf + [st]) == Write(Drained(mem, buf), st)
    decreases |buf|
  {
    if buf == [] {
      assert buf + [st] == [st];
      assert [st][1..] == [];
    } else {
      assert (buf + [st])[1..] == buf[1..] + [st];
      DrainedAppend(Write(mem, buf[0]), buf[1..], st);
    }
  }

  /** A load of an address that the own buffer never writes reads the file. */
  lemma {:induction false} DrainedElsewhere(mem: seq<int>, buf: seq<Store>, a: nat)
    requires forall st <- buf :: st.addr != a
    ensures At(Drained(mem, buf), a) == At(mem, a)
    decreases |buf|
  {
    if buf != [] {
      assert buf[0] in buf;
      DrainedElsewhere(Write(mem, buf[0]), buf[1..], a);
    }
  }
}
