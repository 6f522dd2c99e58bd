/** The CPU side of a bindless descriptor heap (`nari-gpu/src/descriptor.rs`): a free list
    threaded through a fixed array, where a free slot holds the index of the next free slot
    (or the array length at the end) and an issued slot holds its own index. */
module Descriptor {
  import opened Wrappers

  class Descriptors {
    var freeHandle: nat
    var cpu: array<nat>

    /** The free slots in list order, starting at `freeHandle`. */
    ghost var free: seq<nat>
    /** The slots handed out by `Create`. */
    ghost var issued: set<nat>

    ghost predicate Valid()
      reads this, cpu
    {
      && (forall k :: 0 <= k < |free| ==> free[k] < cpu.Length)
      && (forall k :: 0 <= k < |free| - 1 ==> cpu[free[k]] == free[k + 1])
      && (free != [] ==> cpu[free[|free| - 1]] == cpu.Length)
      && (forall k, l :: 0 <= k < l < |free| ==> free[k] != free[l])
      && freeHandle == (if free == [] then cpu.Length else free[0])
      && (forall a :: a in issued ==> a < cpu.Length && cpu[a] == a)
      && (forall k :: 0 <= k < |free| ==> free[k] !in issued)
    }

    /** `Descriptors::new(len)`: every slot links to the next and the list starts at slot 0. */
    constructor (len: nat)
      ensures Valid() && fresh(cpu)
      ensures cpu.Length == len && freeHandle == 0
      ensures forall i :: 0 <= i < len ==> cpu[i] == i + 1
      ensures free == seq(len, i => i) && issued == {}
    {
      var a := new nat[len];
      var i := 0;
      while i < len
        invariant 0 <= i <= len
        invariant forall k :: 0 <= k < i ==> a[k] == k + 1
      {
        a[i] := i + 1;
        i := i + 1;
      }
      cpu := a;
      freeHandle := 0;
      free := seq(len, i => i);
      issued := {};
    }

    /** `invalid_index`: the array length, the end-of-list marker. */
    function InvalidIndex(): (r: nat)
      reads this
      ensures r == cpu.Length
    {
      cpu.Length
    }

    /** `create`: pops the head of the free list and marks that slot as issued.
        The original asserts on an exhausted list; that assertion is the `None` result here.
        Its second assertion (the head slot does not point at itself) is proved to hold. */
    method Create() returns (r: Option<nat>)
      requires Valid()
      modifies this, cpu
      ensures Valid() && cpu == old(cpu)
      ensures r == None <==> old(freeHandle) == cpu.Length
      ensures r == None <==> old(free) == []
      ensures r == None ==> free == old(free) && issued == old(issued) && freeHandle == old(freeHandle)
      ensures r == None ==> cpu[..] == old(cpu[..])
      ensures r.Some? ==> r.value == old(freeHandle) == old(free)[0]
      ensures r.Some? ==> free == old(free)[1..] && freeHandle == old(cpu[r.value])
      ensures r.Some? ==> old(cpu[r.value]) != r.value
      ensures r.Some? ==> r.value !in old(issued) && issued == old(issued) + {r.value}
      ensures r.Some? ==> cpu[..] == old(cpu[..])[r.value := r.value]
    {
      if freeHandle == cpu.Length {
        return None;
      }
      assert free != [] && free[0] == freeHandle;
      var idx := freeHandle;
      var handle := cpu[idx];
      assert handle == (if |free| > 1 then free[1] else cpu.Length);
      ghost var rest := free[1..];
      assert forall k :: 0 <= k < |rest| ==> rest[k] == free[k + 1] && rest[k] != idx;
      ghost var links := cpu[..];
      freeHandle := handle;
      cpu[idx] := idx;
      assert forall k :: 0 <= k < |rest| ==> cpu[rest[k]] == links[rest[k]];
      free := rest;
      issued := issued + {idx};
      r := Some(idx);
    }
  }

  /** From a fresh list of `len` slots, `create` hands out 0, 1, ..., len - 1 in turn,
      and the call after that finds the list exhausted. */
  method CreateAllFromFresh(len: nat) returns (handles: seq<nat>, last: Option<nat>)
    ensures handles == seq(len, i => i)
    ensures last == None
  {
    var d := new Descriptors(len);
    handles := [];
    var i := 0;
    while i < len
      invariant 0 <= i <= len
      invariant d.Valid() && d.cpu.Length == len
      invariant d.free == seq(len - i, k => k + i)
      invariant handles == seq(i, k => k)
      invariant fresh(d) && fresh(d.cpu)
    {
      var h := d.Create();
      handles := handles + [h.value];
      i := i + 1;
    }
    last := d.Create();
  }
}
