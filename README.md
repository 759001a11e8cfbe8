# Forever: shareable data that lasts forever, with no reference count

A Dafny model of the `Forever<T>` handle of the `forever` crate. A `Forever<T>`
is a raw pointer to one heap allocation. `new` moves a value into that
allocation. `inner`, and `deref` through it, read the value. `clone` copies the
pointer, so every clone aliases the same allocation. Dropping a handle does
nothing. The unsafe `destroy` is the only way the allocation is ever freed.

## Layout

- `forever.dfy`, module `ForeverLib`: the crate itself.
  - The process heap is a class `Heap<T>`. Its field `slots: seq<Slot<T>>` is a
    table from address to `Slot(value, live)`.
  - A handle is the value `Forever(data)`, where `data` is the address (the
    `__data` pointer).
  - `New` and `Destroy` are methods that reassign `heap.slots`. They are
    specified by the pure functions `Allocate` and `Free`.
  - `Inner`, `Deref` and `Clone` are functions that only read.
  - `Drop` is a method with an empty body and no `modifies` clause.
  - The source leaves use after `destroy` undefined (src/lib.rs:41-42). That
    is a `Live` precondition on `Inner`, `Deref` and `Destroy` here.
- `programs.dfy`, module `Programs`: client programs, meaning any sequence of
  these calls on numbered handle variables.
  - `Run` executes a program on the same functions. It gives `None` at the
    first call the source leaves undefined.
  - The lemmas state the crate's promises for every program: stored values
    never change, an allocation stays live until destroyed, it is destroyed at
    most once, it stays freed afterwards, and no call can tell a clone from
    the original.

Preconditions are exactly the ones the code needs:

- `new` (src/lib.rs:26) has no precondition. It is an `unsafe fn` only
  because the allocation is never freed on its own, which can leak memory
  (src/lib.rs:20-24).
- `clone` only copies the pointer (src/lib.rs:51) and never dereferences it.
  So cloning or dropping a dangling handle is defined. Only `inner`, `deref`
  and `destroy` need a live allocation (src/lib.rs:41-42).

## Model

| member | source | states |
|---|---|---|
| ForeverLib.Allocate | src/lib.rs:26-28 | the new address lies outside every existing allocation; the new slot is live and holds `val`; every existing slot is unchanged; the heap grows by exactly one slot |
| ForeverLib.New | src/lib.rs:26-28 | the heap becomes `Allocate` of the old heap; the returned handle is live and `Inner` through it gives `val`; no existing allocation is aliased or changed |
| ForeverLib.Inner | src/lib.rs:35-37 | gives the value stored in the handle's allocation; callable only while that allocation is live; reads only |
| ForeverLib.Deref | src/lib.rs:55-60 | is exactly `Inner` on the same handle, with the same precondition |
| ForeverLib.Clone | src/lib.rs:48-53 | the new handle holds the same pointer as the original; no precondition and no heap access |
| ForeverLib.CloneReadsSame | src/lib.rs:50-52 | a clone is live exactly when the original is; while live, `Inner` and `Deref` through the clone equal those through the original |
| ForeverLib.Free | src/lib.rs:43-45 | the handle's allocation becomes freed; every other slot keeps its value and liveness; the heap keeps its size |
| ForeverLib.Destroy | src/lib.rs:39-45 | requires the allocation to be live. The heap becomes `Free` of the old heap, the handle no longer reads as live, and every other allocation is unchanged |
| ForeverLib.Drop | src/lib.rs:62-68 | the heap is the same before and after |
| ForeverLib.CloneOutlivesDrop | src/lib.rs:48-68 | build 7, clone it, drop the original and read through the clone: the result is 7 |
| Programs.Defined | src/lib.rs:39-42 | `new` is always defined; `clone` and `drop` need only an existing handle variable, whatever the state of its allocation; `inner`, `deref` and `destroy` also need the allocation to be live |
| Programs.Step | src/lib.rs:26-67 | each call's effect is the matching `ForeverLib` operation: only `new` grows the heap; `new` and `clone` add a handle variable, while `drop` and `destroy` consume theirs; `inner` and `deref` record the stored value, and no other call records anything |
| Programs.Run | src/lib.rs:26-67 | a defined program never shrinks the heap and never retracts a value it has read |
| Programs.StepAccounting | src/lib.rs:26-67 | one call never shrinks the heap and never changes a stored value; a freed allocation stays freed; a call destroys an allocation exactly when it turns it from not freed into freed |
| Programs.RunAccounting | src/lib.rs:39-45 | over a whole defined program: the heap only grows; stored values never change; freed stays freed; the program destroys an allocation once if it ends freed and was not freed before, and zero times otherwise (so never twice) |
| Programs.Persistence | src/lib.rs:62-67 | a live allocation that no call destroys is, at the end, live and holds the same value, however many handles were cloned or dropped |
| Programs.PersistentReads | src/lib.rs:35-37 | every handle at the end that aliases such an allocation is live, and `Inner` through it gives the original value |
| Programs.LiveIffNotReleased | src/lib.rs:39-45 | at the end, an allocation is live if and only if it was live before (or was made by the program) and no call destroyed it |
| Programs.StepKeepsHandlesAllocated | src/lib.rs:13-15 | one call keeps every handle variable pointing at an allocation that was made |
| Programs.RunKeepsHandlesAllocated | src/lib.rs:13-15 | a defined program never holds a pointer to something that was not allocated |
| Programs.CloneAliases | src/lib.rs:50-52 | `clone` adds a handle equal to its operand; it leaves the other handles, the heap and the values read unchanged |
| Programs.ReadsAreReadOnly | src/lib.rs:57-59 | `inner` leaves the heap and the handles unchanged and records the stored value; `deref` is defined and has the very same effect |
| Programs.DropChangesNothing | src/lib.rs:63-67 | `drop` leaves the heap and the values read unchanged |
| Programs.AliasesAreEquivalent | src/lib.rs:48-53 | a call on two aliasing handles is defined on both or on neither, and has the same effect on the heap and on the values read |
| Programs.DestroyLeavesAliasesDangling | src/lib.rs:39-42 | after `destroy`, `inner`, `deref` and `destroy` through any remaining alias are undefined |
| Programs.CloneOfDanglingIsDefined | src/lib.rs:50-52 | cloning a dangling handle is defined and yields a handle that dangles too |
| Programs.DoubleFreeThroughClone | src/lib.rs:39-45 | new, clone, destroy, then destroy through the clone is undefined |
| Programs.CloneOutlivesDropScenario | src/lib.rs:48-67 | the program new(7), clone, drop the original, inner on the clone is defined and reads 7, with the allocation still live |
| Programs.NewThenDestroy | src/lib.rs:26-45 | new then destroy of the only handle is defined and leaves the allocation freed |

## Left out

- The `Send + Sync` bounds (src/lib.rs:17, 48, 55, 63). They only mark thread safety, and concurrency is not modelled.
- The `mem::transmute` casts between `Box<T>`, `*mut T` and `&T` (src/lib.rs:27, 36, 44). They appear only as the abstract steps allocate, read slot and free slot.
- Crate and compiler attributes (src/lib.rs:1-5, 12, 62). They have no run-time behaviour.
- Allocator exhaustion in `box val`. It aborts the process and is outside the crate's logic.
- Address reuse. A real allocator may hand a freed address out again. Here every allocation gets an address never used before, so an address names one allocation.
- What undefined behaviour actually does on use after free or double free. It appears only as preconditions, and as `None` from `Programs.Run`.
- ForeverLib.Inner: it returns the value, not a reference to it. With no interior mutation, the two cannot be told apart.
- The heap holds values of one type `T`. In the source, allocations of different types share one heap; no property here depends on that.
- Memory-leak accounting and allocation counting. The crate has no such code.
