/**
 * The capability list iterator (`Capabilities`). Each step reads the dword
 * at the current pointer and reports the node there; the pointer then moves
 * to the node's `next_ptr`. As written, `next_ptr` is `(reg << 8) as u8`,
 * the low byte of the dword shifted left by eight, which is zero for every
 * dword: the walk yields at most one node (`NextPtrIsZero`, `Walk`).
 */
module Caps {
  import opened Wrappers
  import opened Bitfield
  import opened Access

  /** One node as the iterator reports it. */
  datatype Capability = Capability(ptrToSelf: bv8, id: bv8, nextPtr: bv8)

  /** The node that the dword `reg` read at `ptr` describes. */
  function CapabilityAt(ptr: bv8, reg: bv32): Capability
  {
    Capability(ptr, Low8(reg), Low8(reg << 8))
  }

  /** `(reg << 8) as u8` is zero whatever the dword holds. */
  lemma NextPtrIsZero(ptr: bv8, reg: bv32)
    ensures CapabilityAt(ptr, reg).nextPtr == 0
    ensures CapabilityAt(ptr, reg).ptrToSelf == ptr && CapabilityAt(ptr, reg).id == Low8(reg)
  {
  }

  /** The iterator can take a step from `ptr` without a panic: the pointer is
      zero, or `read_u32` accepts it (4-aligned, inside the window). */
  predicate Readable(s: Space, bus: bv8, dev: bv8, fn: bv8, ptr: bv8)
  {
    ptr == 0 || (ptr % 4 == 0 && InBounds(s, bus, dev, fn, ptr, 4))
  }

  /** The nodes the iterator yields from `ptr` on, in order. */
  function Walk(s: Space, bus: bv8, dev: bv8, fn: bv8, ptr: bv8): (w: seq<Capability>)
    requires Readable(s, bus, dev, fn, ptr)
    ensures |w| <= 1
    ensures |w| == 1 <==> ptr != 0
    ensures |w| == 1 ==> w[0] == CapabilityAt(ptr, Dword(s, bus, dev, fn, ptr))
    decreases if ptr == 0 then 0 else 1
  {
    if ptr == 0 then []
    else
      var c := CapabilityAt(ptr, Dword(s, bus, dev, fn, ptr));
      NextPtrIsZero(ptr, Dword(s, bus, dev, fn, ptr));
      [c] + Walk(s, bus, dev, fn, c.nextPtr)
  }

  /** What `Iterator::find` returns: the first node with the given id. */
  function FindId(w: seq<Capability>, id: bv8): (r: Option<Capability>)
    ensures r.None? <==> forall k :: 0 <= k < |w| ==> w[k].id != id
    ensures r.Some? ==>
      r.value.id == id && exists k :: 0 <= k < |w| && w[k] == r.value && (forall j :: 0 <= j < k ==> w[j].id != id)
  {
    if |w| == 0 then None
    else if w[0].id == id then Some(w[0])
    else
      FindId(w[1..], id)
  }

  /** Only the first node can be found: the list as walked is that node. */
  lemma FindInWalk(s: Space, bus: bv8, dev: bv8, fn: bv8, ptr: bv8, id: bv8)
    requires Readable(s, bus, dev, fn, ptr)
    ensures FindId(Walk(s, bus, dev, fn, ptr), id).Some?
        <==> ptr != 0 && Low8(Dword(s, bus, dev, fn, ptr)) == id
    ensures FindId(Walk(s, bus, dev, fn, ptr), id).Some?
        ==> FindId(Walk(s, bus, dev, fn, ptr), id).value.ptrToSelf == ptr
  {
    if ptr != 0 {
      NextPtrIsZero(ptr, Dword(s, bus, dev, fn, ptr));
    }
  }

  /** The iterator: the function it walks and the pointer to the next node. */
  class Capabilities {
    const pci: PciAccess
    const bus: bv8
    const dev: bv8
    const fn: bv8
    var ptr: bv8

    constructor (pci: PciAccess, bus: bv8, dev: bv8, fn: bv8, ptr: bv8)
      ensures this.pci == pci && this.bus == bus && this.dev == dev && this.fn == fn
      ensures this.ptr == ptr
    {
      this.pci := pci;
      this.bus := bus;
      this.dev := dev;
      this.fn := fn;
      this.ptr := ptr;
    }

    /** The nodes still to come. */
    function Remaining(): seq<Capability>
      reads this, pci, pci.mem
      requires Readable(pci.Space(), bus, dev, fn, ptr)
    {
      Walk(pci.Space(), bus, dev, fn, ptr)
    }

    /** `next`: nothing once the pointer is zero; otherwise the node at the
        pointer, after which the pointer is that node's `next_ptr`. */
    method Next() returns (c: Option<Capability>)
      requires Readable(pci.Space(), bus, dev, fn, ptr)
      modifies this, pci
      ensures pci.Space() == old(pci.Space())
      ensures Readable(pci.Space(), bus, dev, fn, ptr)
      ensures old(ptr) == 0 ==> c.None? && ptr == 0
      ensures old(ptr) != 0 ==> c == Some(CapabilityAt(old(ptr), Dword(pci.Space(), bus, dev, fn, old(ptr))))
      ensures c.Some? ==> ptr == c.value.nextPtr && ptr == 0
      ensures old(Remaining()) == (if c.Some? then [c.value] else []) + Remaining()
    {
      if ptr == 0 {
        return None;
      }
      var reg := pci.ReadU32(bus, dev, fn, ptr);
      var capability := CapabilityAt(ptr, reg);
      NextPtrIsZero(ptr, reg);
      ptr := capability.nextPtr;
      c := Some(capability);
    }

    /** `find`: step until a node has the id or the iterator is exhausted. */
    method Find(id: bv8) returns (c: Option<Capability>)
      requires Readable(pci.Space(), bus, dev, fn, ptr)
      modifies this, pci
      ensures pci.Space() == old(pci.Space())
      ensures c == FindId(old(Remaining()), id)
    {
      c := None;
      var done := false;
      while !done
        invariant pci.Space() == old(pci.Space())
        invariant Readable(pci.Space(), bus, dev, fn, ptr)
        invariant done ==> c == FindId(old(Remaining()), id)
        invariant !done ==> c.None?
        invariant !done ==> FindId(old(Remaining()), id) == FindId(Remaining(), id)
        decreases !done, if ptr == 0 then 0 else 1
      {
        var n := Next();
        match n
        case None =>
          done := true;
        case Some(cap) =>
          if cap.id == id {
            c := n;
            done := true;
          }
      }
    }
  }
}
