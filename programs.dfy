/** Client programs over `Forever<T>`: a program is a sequence of calls on
    numbered handle variables, and running it either reaches its end or stops
    at the first call whose behaviour the source leaves undefined (reading or
    destroying through a dangling handle). The lemmas state what the crate
    promises for every program: stored values never change, an allocation
    stays live until it is destroyed, it is destroyed at most once and stays
    freed, and a clone is indistinguishable from the handle it came from. */
module Programs {
  import opened ForeverLib

  datatype Option<T> = None | Some(value: T)

  /** One call. Handle operands are positions in the program's list of handle
      variables; `New` and `Clone` append a handle, `Drop` and `Destroy`
      consume one (both take the handle by value). */
  datatype Op<T> =
    | NewOp(val: T)
    | CloneOp(i: nat)
    | InnerOp(i: nat)
    | DerefOp(i: nat)
    | DropOp(i: nat)
    | DestroyOp(i: nat)

  /** The heap, the handle variables in scope, and the values read so far. */
  datatype State<T> = State(slots: seq<Slot<T>>, handles: seq<Forever<T>>, seen: seq<T>)

  function Init<T>(): State<T>
  {
    State([], [], [])
  }

  /** The call is defined: its handle variable exists and, for the calls that
      dereference or free the pointer, the allocation is live. `clone` and
      `drop` never touch the allocation and are defined on any handle. */
  predicate Defined<T>(st: State<T>, op: Op<T>)
    ensures op.NewOp? ==> Defined(st, op)
    ensures (op.CloneOp? || op.DropOp?) ==> (Defined(st, op) <==> op.i < |st.handles|)
    ensures (op.InnerOp? || op.DerefOp? || op.DestroyOp?) ==>
              (Defined(st, op) <==> op.i < |st.handles| && Live(st.slots, st.handles[op.i]))
  {
    match op
    case NewOp(_) => true
    case CloneOp(i) => i < |st.handles|
    case DropOp(i) => i < |st.handles|
    case InnerOp(i) => i < |st.handles| && Live(st.slots, st.handles[i])
    case DerefOp(i) => i < |st.handles| && Live(st.slots, st.handles[i])
    case DestroyOp(i) => i < |st.handles| && Live(st.slots, st.handles[i])
  }

  /** `s` without its element at `i`. */
  function Without<A>(s: seq<A>, i: nat): (r: seq<A>)
    requires i < |s|
    ensures |r| == |s| - 1
    ensures forall k :: 0 <= k < i ==> r[k] == s[k]
    ensures forall k :: i <= k < |r| ==> r[k] == s[k + 1]
  {
    s[..i] + s[i + 1..]
  }

  /** The effect of one defined call. */
  function Step<T>(st: State<T>, op: Op<T>): (r: State<T>)
    requires Defined(st, op)
    ensures |r.slots| == if op.NewOp? then |st.slots| + 1 else |st.slots|
    ensures |r.handles| == if op.NewOp? || op.CloneOp? then |st.handles| + 1
                           else if op.DropOp? || op.DestroyOp? then |st.handles| - 1
                           else |st.handles|
    ensures r.seen == if op.InnerOp? || op.DerefOp? then st.seen + [st.slots[st.handles[op.i].data].value] else st.seen
  {
    match op
    case NewOp(v) =>
      var (slots, h) := Allocate(st.slots, v);
      State(slots, st.handles + [h], st.seen)
    case CloneOp(i) => st.(handles := st.handles + [Clone(st.handles[i])])
    case InnerOp(i) => st.(seen := st.seen + [Inner(st.slots, st.handles[i])])
    case DerefOp(i) => st.(seen := st.seen + [Deref(st.slots, st.handles[i])])
    case DropOp(i) => st.(handles := Without(st.handles, i))
    case DestroyOp(i) => State(Free(st.slots, st.handles[i]), Without(st.handles, i), st.seen)
  }

  /** Runs a program; `None` when some call is undefined. */
  function Run<T>(st: State<T>, ops: seq<Op<T>>): (r: Option<State<T>>)
    ensures r.Some? ==> |st.slots| <= |r.value.slots| && st.seen <= r.value.seen
    decreases |ops|
  {
    if ops == [] then Some(st)
    else if !Defined(st, ops[0]) then None
    else Run(Step(st, ops[0]), ops[1..])
  }

  /** The call frees the allocation at address `a`. */
  predicate Releases<T>(st: State<T>, op: Op<T>, a: nat)
  {
    op.DestroyOp? && op.i < |st.handles| && st.handles[op.i].data == a
  }

  /** How many calls of the defined prefix of `ops` free address `a`. */
  function ReleaseCount<T>(st: State<T>, ops: seq<Op<T>>, a: nat): nat
    decreases |ops|
  {
    if ops == [] || !Defined(st, ops[0]) then 0
    else (if Releases(st, ops[0], a) then 1 else 0) + ReleaseCount(Step(st, ops[0]), ops[1..], a)
  }

  /** Every handle variable points at an allocation that was made. */
  predicate HandlesAllocated<T>(st: State<T>)
  {
    forall k :: 0 <= k < |st.handles| ==> st.handles[k].data < |st.slots|
  }

  /** One call keeps every existing allocation's value, never revives a freed
      allocation, and frees a live one exactly when it destroys it. */
  lemma StepAccounting<T>(st: State<T>, op: Op<T>, a: nat)
    requires Defined(st, op)
    ensures |st.slots| <= |Step(st, op).slots|
    ensures a < |st.slots| ==> Step(st, op).slots[a].value == st.slots[a].value
    ensures Freed(st.slots, a) ==> Freed(Step(st, op).slots, a)
    ensures Releases(st, op, a) <==> Freed(Step(st, op).slots, a) && !Freed(st.slots, a)
  {
  }

  /** What a program does to one allocation: its value never changes, a freed
      allocation stays freed, and the program destroys it exactly once if it
      turns from not freed into freed, and otherwise never. In particular no
      defined program destroys an allocation twice. */
  lemma {:induction false} RunAccounting<T>(st: State<T>, ops: seq<Op<T>>, a: nat)
    requires Run(st, ops).Some?
    ensures |st.slots| <= |Run(st, ops).value.slots|
    ensures a < |st.slots| ==> Run(st, ops).value.slots[a].value == st.slots[a].value
    ensures Freed(st.slots, a) ==> Freed(Run(st, ops).value.slots, a)
    ensures ReleaseCount(st, ops, a) == if Freed(Run(st, ops).value.slots, a) && !Freed(st.slots, a) then 1 else 0
    decreases |ops|
  {
    if ops != [] {
      StepAccounting(st, ops[0], a);
      RunAccounting(Step(st, ops[0]), ops[1..], a);
    }
  }

  /** A live allocation that no call of a program destroys is still live with
      the same value at the end. */
  lemma {:induction false} Persistence<T>(st: State<T>, ops: seq<Op<T>>, a: nat)
    requires Run(st, ops).Some?
    requires a < |st.slots| && st.slots[a].live
    requires ReleaseCount(st, ops, a) == 0
    ensures a < |Run(st, ops).value.slots| && Run(st, ops).value.slots[a] == st.slots[a]
  {
    RunAccounting(st, ops, a);
  }

  /** Hence every handle that aliases such an allocation at the end, whether
      it was made by `New` or by `Clone`, reads the stored value. */
  lemma PersistentReads<T>(st: State<T>, ops: seq<Op<T>>, h: Forever<T>, k: nat)
    requires Run(st, ops).Some?
    requires Live(st.slots, h)
    requires ReleaseCount(st, ops, h.data) == 0
    requires k < |Run(st, ops).value.handles| && Run(st, ops).value.handles[k].data == h.data
    ensures Live(Run(st, ops).value.slots, Run(st, ops).value.handles[k])
    ensures Inner(Run(st, ops).value.slots, Run(st, ops).value.handles[k]) == Inner(st.slots, h)
  {
    Persistence(st, ops, h.data);
  }

  /** The allocation at `a` is live at the end of a program exactly when it
      was live before (or was made by the program) and no call destroyed it. */
  lemma LiveIffNotReleased<T>(st: State<T>, ops: seq<Op<T>>, a: nat)
    requires Run(st, ops).Some?
    requires a < |Run(st, ops).value.slots|
    ensures Run(st, ops).value.slots[a].live <==> (a >= |st.slots| || st.slots[a].live) && ReleaseCount(st, ops, a) == 0
  {
    RunAccounting(st, ops, a);
  }

  /** One call keeps every handle variable pointing at an allocation that was
      made. */
  lemma StepKeepsHandlesAllocated<T>(st: State<T>, op: Op<T>)
    requires Defined(st, op) && HandlesAllocated(st)
    ensures HandlesAllocated(Step(st, op))
  {
    var st' := Step(st, op);
    forall k | 0 <= k < |st'.handles|
      ensures st'.handles[k].data < |st'.slots|
    {
      if op.DropOp? || op.DestroyOp? {
        assert st'.handles[k] == st.handles[if k < op.i then k else k + 1];
      }
    }
  }

  /** Programs only ever hold handles to allocations that were made: a
      pointer is never invented. */
  lemma {:induction false} RunKeepsHandlesAllocated<T>(st: State<T>, ops: seq<Op<T>>)
    requires HandlesAllocated(st)
    requires Run(st, ops).Some?
    ensures HandlesAllocated(Run(st, ops).value)
    decreases |ops|
  {
    if ops != [] {
      StepKeepsHandlesAllocated(st, ops[0]);
      RunKeepsHandlesAllocated(Step(st, ops[0]), ops[1..]);
    }
  }

  /** `clone` appends a handle equal to its operand and changes neither the
      heap nor what has been read. */
  lemma CloneAliases<T>(st: State<T>, i: nat)
    requires i < |st.handles|
    ensures var st' := Step(st, CloneOp(i));
            st'.slots == st.slots && st'.seen == st.seen &&
            |st'.handles| == |st.handles| + 1 && st'.handles[|st.handles|] == st.handles[i] &&
            st'.handles[..|st.handles|] == st.handles
  {
  }

  /** `inner` and `deref` leave the heap and the handles as they were; each
      records the allocation's stored value, and the two record the same. */
  lemma ReadsAreReadOnly<T>(st: State<T>, i: nat)
    requires Defined(st, InnerOp(i))
    ensures Step(st, InnerOp(i)).slots == st.slots && Step(st, InnerOp(i)).handles == st.handles
    ensures Step(st, InnerOp(i)).seen == st.seen + [st.slots[st.handles[i].data].value]
    ensures Defined(st, DerefOp(i)) && Step(st, DerefOp(i)) == Step(st, InnerOp(i))
  {
  }

  /** `drop` changes neither the heap nor what has been read; it only ends
      the handle variable. */
  lemma DropChangesNothing<T>(st: State<T>, i: nat)
    requires i < |st.handles|
    ensures Step(st, DropOp(i)).slots == st.slots && Step(st, DropOp(i)).seen == st.seen
  {
  }

  /** The same call on two aliasing handles is defined on both or on neither
      and has the same effect on the heap and on what is read: no call tells
      the first handle from a clone. */
  lemma AliasesAreEquivalent<T>(st: State<T>, i: nat, j: nat, op: Op<T>)
    requires i < |st.handles| && j < |st.handles| && st.handles[i] == st.handles[j]
    requires !op.NewOp? && op.i == i
    ensures Defined(st, op) <==> Defined(st, op.(i := j))
    ensures Defined(st, op) ==>
              Step(st, op).slots == Step(st, op.(i := j)).slots &&
              Step(st, op).seen == Step(st, op.(i := j)).seen
  {
  }

  /** Reading through a destroyed allocation is undefined: after `destroy`
      every remaining alias dangles. */
  lemma DestroyLeavesAliasesDangling<T>(st: State<T>, i: nat, k: nat)
    requires Defined(st, DestroyOp(i))
    requires k < |Step(st, DestroyOp(i)).handles|
    requires Step(st, DestroyOp(i)).handles[k].data == st.handles[i].data
    ensures !Defined(Step(st, DestroyOp(i)), InnerOp(k))
    ensures !Defined(Step(st, DestroyOp(i)), DerefOp(k))
    ensures !Defined(Step(st, DestroyOp(i)), DestroyOp(k))
  {
  }

  /** Cloning a dangling handle is defined, since `clone` only copies the
      pointer; the clone dangles as well. */
  lemma CloneOfDanglingIsDefined<T>(st: State<T>, i: nat)
    requires i < |st.handles| && !Live(st.slots, st.handles[i])
    ensures Defined(st, CloneOp(i))
    ensures !Live(Step(st, CloneOp(i)).slots, Step(st, CloneOp(i)).handles[|st.handles|])
  {
  }

  /** Destroying an allocation a second time, through a clone, is undefined. */
  lemma DoubleFreeThroughClone<T>(v: T)
    ensures Run(Init<T>(), [NewOp(v), CloneOp(0), DestroyOp(0), DestroyOp(0)]).None?
  {
    var ops: seq<Op<T>> := [NewOp(v), CloneOp(0), DestroyOp(0), DestroyOp(0)];
    var s1 := State([Slot(v, true)], [Forever(0)], []);
    var s2 := State([Slot(v, true)], [Forever(0), Forever(0)], []);
    var s3 := State([Slot(v, false)], [Forever(0)], []);
    assert Step(Init(), ops[0]) == s1;
    assert Step(s1, ops[1]) == s2;
    assert Step(s2, ops[2]) == s3;
    assert ops[1..][1..][1..] == [DestroyOp(0)];
    assert !Defined(s3, DestroyOp(0));
    assert Run(s3, [DestroyOp(0)]).None?;
    assert Run(s2, ops[1..][1..]) == Run(s3, [DestroyOp(0)]);
    assert Run(s1, ops[1..]) == Run(s2, ops[1..][1..]);
  }

  /** Build 7, clone it, drop the original, read the clone: the read sees 7. */
  lemma CloneOutlivesDropScenario()
    ensures Run(Init<int>(), [NewOp(7), CloneOp(0), DropOp(0), InnerOp(0)]) == Some(State([Slot(7, true)], [Forever(0)], [7]))
  {
    var ops: seq<Op<int>> := [NewOp(7), CloneOp(0), DropOp(0), InnerOp(0)];
    var s1 := State([Slot(7, true)], [Forever(0)], []);
    var s2 := State([Slot(7, true)], [Forever(0), Forever(0)], []);
    var s3 := State([Slot(7, true)], [Forever(0)], []);
    assert Step(Init(), ops[0]) == s1;
    assert Step(s1, ops[1]) == s2;
    assert Step(s2, ops[2]) == s3;
    assert ops[1..][1..][1..] == [InnerOp(0)];
    var s4 := State([Slot(7, true)], [Forever(0)], [7]);
    assert Step(s3, InnerOp(0)) == s4;
    assert ops[1..][1..][1..][1..] == [];
    assert Run(s3, [InnerOp(0)]) == Some(State([Slot(7, true)], [Forever(0)], [7]));
  }

  /** Build a value and destroy its only handle: the program is defined and
      leaves the allocation freed. */
  lemma NewThenDestroy<T>(v: T)
    ensures Run(Init<T>(), [NewOp(v), DestroyOp(0)]) == Some(State([Slot(v, false)], [], []))
  {
    var ops: seq<Op<T>> := [NewOp(v), DestroyOp(0)];
    var s1 := State([Slot(v, true)], [Forever(0)], []);
    assert Step(Init(), ops[0]) == s1;
    assert ops[1..] == [DestroyOp(0)];
    assert Step(s1, DestroyOp(0)) == State([Slot(v, false)], [], []);
    assert ops[1..][1..] == [];
    assert Run(s1, [DestroyOp(0)]) == Some(State([Slot(v, false)], [], []));
  }
}
