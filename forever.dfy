/** The `Forever<T>` handle of src/lib.rs: shareable data that lasts forever,
    with no reference count.

    The process heap is modelled as a table of slots indexed by address. An
    address is handed out once and never reused, so an address is the identity
    of one allocation. A handle is a plain pointer (an address) and carries no
    state of its own; every clone of it aliases the same slot. A slot is live
    from `New` until the one `Destroy` that frees it. Reading or freeing a slot
    that is no longer live is undefined behaviour in the source, so here it is
    ruled out by a precondition. */
module ForeverLib {

  /** One heap allocation: the value moved onto the heap and whether the
      allocation has not been freed yet. */
  datatype Slot<T> = Slot(value: T, live: bool)

  /** The handle: nothing but the address of its allocation (the `__data`
      pointer). The type parameter records what the allocation holds. */
  datatype Forever<T> = Forever(data: nat)

  /** The allocation `h` points at exists and has not been freed. */
  predicate Live<T>(slots: seq<Slot<T>>, h: Forever<T>)
  {
    h.data < |slots| && slots[h.data].live
  }

  /** The allocation at address `a` exists and has been freed. */
  predicate Freed<T>(slots: seq<Slot<T>>, a: nat)
  {
    a < |slots| && !slots[a].live
  }

  /** The heap: the only state the crate changes. */
  class Heap<T> {
    var slots: seq<Slot<T>>

    /** A process heap before anything was allocated. */
    constructor ()
      ensures slots == []
    {
      slots := [];
    }
  }

  /** What `box val` does to the heap: a new live slot holding `val`, at an
      address distinct from every existing allocation, with every existing
      allocation left as it was. */
  function Allocate<T>(slots: seq<Slot<T>>, val: T): (r: (seq<Slot<T>>, Forever<T>))
    ensures |slots| <= r.1.data
    ensures Live(r.0, r.1) && r.0[r.1.data].value == val
    ensures |r.0| == |slots| + 1
    ensures forall a :: 0 <= a < |slots| ==> r.0[a] == slots[a]
  {
    (slots + [Slot(val, true)], Forever(|slots|))
  }

  /** What dropping the reconstructed `Box<T>` does to the heap: `h`'s
      allocation becomes freed and every other allocation keeps its value and
      its liveness. */
  function Free<T>(slots: seq<Slot<T>>, h: Forever<T>): (r: seq<Slot<T>>)
    requires Live(slots, h)
    ensures |r| == |slots|
    ensures Freed(r, h.data)
    ensures forall a :: 0 <= a < |slots| && a != h.data ==> r[a] == slots[a]
  {
    slots[h.data := Slot(slots[h.data].value, false)]
  }

  /** `Forever::new`: moves `val` into a fresh heap allocation and returns the
      first handle to it. */
  method New<T>(heap: Heap<T>, val: T) returns (h: Forever<T>)
    modifies heap
    ensures (heap.slots, h) == Allocate(old(heap.slots), val)
    ensures Live(heap.slots, h) && Inner(heap.slots, h) == val
    ensures forall a :: 0 <= a < |old(heap.slots)| ==> h.data != a && heap.slots[a] == old(heap.slots[a])
  {
    var r := Allocate(heap.slots, val);
    heap.slots, h := r.0, r.1;
  }

  /** `Forever::inner`: the value held by `h`'s allocation. Defined only while
      the allocation is live; after `destroy` the pointer dangles. */
  function Inner<T>(slots: seq<Slot<T>>, h: Forever<T>): (r: T)
    requires Live(slots, h)
    ensures r == slots[h.data].value
  {
    slots[h.data].value
  }

  /** `Forever::destroy`: consumes a handle and frees its allocation. Any other
      handle to the same allocation dangles from now on. */
  method Destroy<T>(heap: Heap<T>, h: Forever<T>)
    requires Live(heap.slots, h)
    modifies heap
    ensures heap.slots == Free(old(heap.slots), h)
    ensures !Live(heap.slots, h)
    ensures forall a :: 0 <= a < |old(heap.slots)| && a != h.data ==> heap.slots[a] == old(heap.slots[a])
  {
    heap.slots := Free(heap.slots, h);
  }

  /** `Clone::clone`: a new handle holding the same pointer. It touches no
      allocation, so it has no precondition: cloning a dangling handle only
      copies a dangling pointer. */
  function Clone<T>(h: Forever<T>): (c: Forever<T>)
    ensures c.data == h.data
  {
    Forever(h.data)
  }

  /** `Deref::deref`: exactly `inner`. */
  function Deref<T>(slots: seq<Slot<T>>, h: Forever<T>): (r: T)
    requires Live(slots, h)
    ensures r == Inner(slots, h)
  {
    Inner(slots, h)
  }

  /** `Drop::drop`: does nothing. No allocation is freed or changed, whatever
      other handles exist. */
  method Drop<T>(heap: Heap<T>, h: Forever<T>)
    ensures heap.slots == old(heap.slots)
  {
  }

  /** Every read through a clone gives what a read through the original gives,
      and cloning leaves the heap as it was. */
  lemma CloneReadsSame<T>(slots: seq<Slot<T>>, h: Forever<T>)
    ensures Live(slots, Clone(h)) <==> Live(slots, h)
    ensures Live(slots, h) ==> Inner(slots, Clone(h)) == Inner(slots, h) && Deref(slots, Clone(h)) == Deref(slots, h)
  {
  }

  /** Build 7, clone it, drop the original handle, then read through the
      clone. */
  method CloneOutlivesDrop() returns (x: int)
    ensures x == 7
  {
    var heap := new Heap<int>();
    var h := New(heap, 7);
    var d := Clone(h);
    Drop(heap, h);
    x := Deref(heap.slots, d);
  }
}
