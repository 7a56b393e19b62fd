# SSVM core in Dafny

SSVM is a Java virtual machine written in Java. Guest bytecode runs on a
heap, stacks and class mirrors that the host manages. This project models
the parts of SSVM that hold its state and its invariants, and proves
properties of them:

- **The operand stack** (`Execution.Stack`, specified by `StackModel`).
  A fixed region of slots plus a cursor, updated in place. Long and double
  values take two slots, the value and a TOP marker. Each operation is
  proved to leave exactly the region and return exactly the value or
  exception that its `StackModel` function describes. The `StackModel`
  lemmas then prove the round trips (`pushWide`/`popWide`,
  `pushGeneric`/`popGeneric`). They also prove every form of `dup_x1`,
  `dup_x2`, `dup2`, `dup2_x1`, `dup2_x2` and `swap` against section 6.5 of
  the JVMS.
- **Three instruction handlers** (`Processors`): `laload`, `l2d` and
  `d2l`. **The `putstatic` fast path for shorts** (`Rewrite`): it writes into
  the owner's static storage.
- **The mark-and-sweep collector** (`GarbageCollector.MarkAndSweep`, built
  on `Reachability`).
  - Each object has a one-byte header. `MARK_NONE`, `MARK_SET` and
    `MARK_REF` are the unmarked, marked and pinned states.
  - Recursive marking is specified as a closure through unmarked objects.
  - The roots are class loaders and their classes, the boot classes, the
    primitive classes, and the oops, stacks and locals of alive threads.
  - The sweep frees exactly the unmarked objects and resets every mark
    except the pinned ones. Freeing a block that is not live panics.
  - Handles pin an object with `MARK_REF` and release it again.
- **Method execution in `VirtualMachine`** (`VM.VirtualMachine`). The calls
  that `execute` makes are recorded as events in a trace:
  - the frame push and the invocation count;
  - the monitor of a synchronized method;
  - the invocation hooks and the interceptor;
  - the native and abstract checks, and the interpreter;
  - exception translation;
  - the exit sequence.

  The same holds for `drainTaskQueue`, `findBootstrapClass` and `findClass`.
- **The `JavaMethod` mirror** (`Mirror.JavaMethod`). It covers the lazily
  cached descriptor, argument types, return type, polymorphic-signature
  flag and argument-slot count, and also `equals`, `hashCode` and `toString`.
- **`ArraySlice`** (`Slices.ArraySlice`): a window onto a shared backing
  array, with Java `int` index arithmetic.
- **The branch scenario of `IntComparisonTest`** (`IntComparison`). The
  generated method and its `if<cond>` jump are proved to return true
  exactly when the comparison with zero holds.

Java `int` arithmetic wraps modulo 2^32 and is modelled by `Values.Wrap32`.

The model abstracts three kinds of things into parameters:
- the collaborators a method sees: hooks, the interceptor, the
  interpreter, `JitHelper.arrayLoadLong`, descriptor parsing and the guest
  `loadClass`;
- the floating-point conversions `asDouble` and `asLong`;
- the results of those calls.

Four behaviours of the code are easy to miss, and the model keeps each
of them as written:
- Releasing a handle resets the object's mark to `MARK_NONE`
  unconditionally, whether or not something else still reaches the object
  (`MarkAndSweepGarbageCollector.java:63-64`).
- A handle does not keep alive an object linked to the pinned object after
  pinning, because marking stops at `MARK_REF`
  (`GarbageCollector.PinnedChildFreed`).
- A post-invocation hook that throws stops the remaining post-hooks; their
  loop is not guarded per hook (`VirtualMachine.java:448-450`).
- At exit, `monitorExit` is called only when the current thread still
  holds the lock; otherwise it is skipped without an error
  (`VirtualMachine.java:453-455`). The model makes the "still held" answer
  a parameter (`heldAtExit`) and unlocks exactly when it is true.

Until its handle is released, a pinned object stays `MARK_REF` through any
number of collections: this is part of the collector's object invariant
(`MarkAndSweep.Valid`), which every operation keeps, and `Invoke` states
that a pinned object's block is not freed and its list entry is kept.
Objects pinned along with a handle's object keep `MARK_REF` after the
handle is released, because the release writes only the one header.

## Model

| member | source | states |
|---|---|---|
| Execution.Stack.constructor | src/main/java/dev/xdark/ssvm/execution/Stack.java:28-30 | a region of `maxSize` empty slots with the cursor at 0; the object invariant holds |
| Execution.Stack.Get | src/main/java/dev/xdark/ssvm/execution/Stack.java:89 | the slot at the index of the thread region; an index outside the region raises |
| Execution.Stack.Set | src/main/java/dev/xdark/ssvm/execution/Stack.java:43 | the region with exactly that slot replaced; an index outside the region raises and writes nothing |
| Execution.Stack.Push | src/main/java/dev/xdark/ssvm/execution/Stack.java:38-44 | leaves exactly the state and result of `StackModel.Push`: null and void values and wide values raise, otherwise the value lands at the cursor |
| Execution.Stack.PushWide | src/main/java/dev/xdark/ssvm/execution/Stack.java:53-63 | the state and result of `StackModel.PushWide`: the value and TOP, the cursor moved by 2 only when both writes succeed |
| Execution.Stack.PushGeneric | src/main/java/dev/xdark/ssvm/execution/Stack.java:72-78 | the state and result of `StackModel.PushGeneric`, dispatching on width |
| Execution.Stack.Pop | src/main/java/dev/xdark/ssvm/execution/Stack.java:88-90 | the state and result of `StackModel.Pop`, the cursor decremented before a read that can fail |
| Execution.Stack.PopWide | src/main/java/dev/xdark/ssvm/execution/Stack.java:103-109 | the state and result of `StackModel.PopWide`: TOP is required on top, then the value beneath it |
| Execution.Stack.PopGeneric | src/main/java/dev/xdark/ssvm/execution/Stack.java:119-125 | the state and result of `StackModel.PopGeneric`: one more pop when the first one returned TOP |
| Execution.Stack.Peek | src/main/java/dev/xdark/ssvm/execution/Stack.java:135-137 | the result of `StackModel.Peek`, with the state unchanged |
| Execution.Stack.Poll | src/main/java/dev/xdark/ssvm/execution/Stack.java:146-149 | the state and result of `StackModel.Poll`: null on an empty stack |
| Execution.Stack.Dup | src/main/java/dev/xdark/ssvm/execution/Stack.java:154-158 | the state and result of `StackModel.Dup` |
| Execution.Stack.DupX1 | src/main/java/dev/xdark/ssvm/execution/Stack.java:163-169 | the state and result of `StackModel.DupX1` |
| Execution.Stack.DupX2 | src/main/java/dev/xdark/ssvm/execution/Stack.java:175-189 | the state and result of `StackModel.DupX2` |
| Execution.Stack.Dup2 | src/main/java/dev/xdark/ssvm/execution/Stack.java:194-206 | the state and result of `StackModel.Dup2` |
| Execution.Stack.Dup2X1 | src/main/java/dev/xdark/ssvm/execution/Stack.java:212-228 | the state and result of `StackModel.Dup2X1` |
| Execution.Stack.Dup2X2 | src/main/java/dev/xdark/ssvm/execution/Stack.java:234-268 | the state and result of `StackModel.Dup2X2` |
| Execution.Stack.Swap | src/main/java/dev/xdark/ssvm/execution/Stack.java:273-280 | the state and result of `StackModel.Swap` |
| Execution.Stack.IsEmpty | src/main/java/dev/xdark/ssvm/execution/Stack.java:288-290 | empty exactly when the stack holds no values |
| Execution.Stack.Clear | src/main/java/dev/xdark/ssvm/execution/Stack.java:295-297 | the stack is empty afterwards, and no slot of the region is changed |
| Execution.Stack.Position | src/main/java/dev/xdark/ssvm/execution/Stack.java:302-304 | the number of values on the stack |
| Execution.Stack.GetAt | src/main/java/dev/xdark/ssvm/execution/Stack.java:314-316 | the slot at an index of the region, raising outside it; below the cursor, that is the value at that depth |
| Execution.Stack.View | src/main/java/dev/xdark/ssvm/execution/Stack.java:323-325 | as many values as the position, element `i` being slot `i` |
| Execution.Stack.Equals | src/main/java/dev/xdark/ssvm/execution/Stack.java:340-352 | false for `null` and for any object that is not a `Stack`; otherwise equal exactly when both stacks hold the same values |
| StackModel.CheckValue | src/main/java/dev/xdark/ssvm/execution/Stack.java:374-378 | null raises `NullPointerException` and a void value `IllegalStateException`; any other value passes |
| StackModel.PushWideThenPopWide | src/main/java/dev/xdark/ssvm/execution/Stack.java:53-63 | `popWide` after `pushWide(v)` returns `v` and restores the cursor, and so do two narrow pops (TOP first) |
| StackModel.PushGenericThenPopGeneric | src/main/java/dev/xdark/ssvm/execution/Stack.java:72-78 | `popGeneric` undoes `pushGeneric` for every storable value but TOP, using `Size(v)` slots |
| StackModel.PopGenericWide | src/main/java/dev/xdark/ssvm/execution/Stack.java:119-125 | `popGeneric` over a wide value takes its TOP and the value beneath it |
| StackModel.PopGenericNarrow | src/main/java/dev/xdark/ssvm/execution/Stack.java:119-125 | `popGeneric` over anything but TOP is a single `pop` |
| StackModel.DupShape | src/main/java/dev/xdark/ssvm/execution/Stack.java:154-158 | `dup` adds one slot holding a copy of the top |
| StackModel.SwapShape | src/main/java/dev/xdark/ssvm/execution/Stack.java:273-280 | `swap` exchanges the two top slots, keeps the cursor and leaves every other slot alone |
| StackModel.DupX1Shape | src/main/java/dev/xdark/ssvm/execution/Stack.java:163-169 | `dup_x1` turns [.., v2, v1] into [.., v1, v2, v1] (section 6.5 of the JVMS) |
| StackModel.DupX2Form1 | src/main/java/dev/xdark/ssvm/execution/Stack.java:175-189 | `dup_x2` form 1: [.., v3, v2, v1] becomes [.., v1, v3, v2, v1] |
| StackModel.DupX2Form2 | src/main/java/dev/xdark/ssvm/execution/Stack.java:175-189 | `dup_x2` form 2: a wide value beneath the top is skipped as one unit |
| StackModel.Dup2Form1 | src/main/java/dev/xdark/ssvm/execution/Stack.java:194-206 | `dup2` form 1 duplicates the two top category-1 values |
| StackModel.Dup2Form2 | src/main/java/dev/xdark/ssvm/execution/Stack.java:194-206 | `dup2` form 2 duplicates a wide value together with its TOP |
| StackModel.Dup2X1Form1 | src/main/java/dev/xdark/ssvm/execution/Stack.java:212-228 | `dup2_x1` form 1: [.., v3, v2, v1] becomes [.., v2, v1, v3, v2, v1] |
| StackModel.Dup2X1Form2 | src/main/java/dev/xdark/ssvm/execution/Stack.java:212-228 | `dup2_x1` form 2: a wide top value goes under the value beneath it |
| StackModel.Dup2X2Form1 | src/main/java/dev/xdark/ssvm/execution/Stack.java:234-268 | `dup2_x2` form 1: [.., v4, v3, v2, v1] becomes [.., v2, v1, v4, v3, v2, v1] |
| StackModel.Dup2X2Form2 | src/main/java/dev/xdark/ssvm/execution/Stack.java:234-268 | `dup2_x2` form 2: a wide top value goes under two narrow values |
| StackModel.Dup2X2Form3 | src/main/java/dev/xdark/ssvm/execution/Stack.java:234-268 | `dup2_x2` form 3: two narrow top values go under a wide value |
| StackModel.Dup2X2Form4 | src/main/java/dev/xdark/ssvm/execution/Stack.java:234-268 | `dup2_x2` form 4: a wide top value goes under another wide value |
| Processors.LoadArrayLong | src/main/java/dev/xdark/ssvm/execution/asm/LoadArrayLongProcessor.java:19-25 | leaves the stack as `LoadArrayLongEffect` says and returns its result |
| Processors.LoadArrayLongShape | src/main/java/dev/xdark/ssvm/execution/asm/LoadArrayLongProcessor.java:19-25 | over [.., array, index], the load is given the array and then the index; the loaded wide value replaces both operands; nothing else changes and the handler continues |
| Processors.LoadArrayLongLoadFails | src/main/java/dev/xdark/ssvm/execution/asm/LoadArrayLongProcessor.java:19-25 | a load that raises propagates, with both operands popped and nothing pushed |
| Processors.LongToDouble | src/main/java/dev/xdark/ssvm/execution/asm/LongToDoubleProcessor.java:18-22 | leaves the stack as `LongToDoubleEffect` says and returns its result |
| Processors.LongToDoubleShape | src/main/java/dev/xdark/ssvm/execution/asm/LongToDoubleProcessor.java:18-22 | over [.., x, TOP], the slot beneath TOP becomes the converted double; the position and every other slot stay the same; the handler continues |
| Processors.LongToDoubleNeedsTop | src/main/java/dev/xdark/ssvm/execution/asm/LongToDoubleProcessor.java:18-22 | without TOP on top, `popWide` raises after popping that one slot |
| Processors.DoubleToLong | src/main/java/dev/xdark/ssvm/execution/asm/DoubleToLongProcessor.java:18-22 | leaves the stack as `DoubleToLongEffect` says and returns its result |
| Processors.DoubleToLongShape | src/main/java/dev/xdark/ssvm/execution/asm/DoubleToLongProcessor.java:18-22 | over [.., x, TOP], the slot beneath TOP becomes the converted long; the position and every other slot stay the same |
| Processors.DoubleToLongNeedsTop | src/main/java/dev/xdark/ssvm/execution/asm/DoubleToLongProcessor.java:18-22 | without TOP on top, `popWide` raises after popping that one slot |
| Rewrite.PutStaticShort | ssvm-core/src/main/java/dev/xdark/ssvm/execution/rewrite/PutStaticShortProcessor.java:18-23 | pops an int and stores its low 16 bits at the field offset in the owner's static storage; a failed pop writes nothing |
| Rewrite.PopShortEffect | ssvm-core/src/main/java/dev/xdark/ssvm/execution/rewrite/PutStaticShortProcessor.java:21 | the top slot is popped in every case; an empty stack raises, a non-`int` top raises `NotAnInt`, an `int` top gives its `(short)` cast |
| Rewrite.PopShort | ssvm-core/src/main/java/dev/xdark/ssvm/execution/rewrite/PutStaticShortProcessor.java:21 | leaves exactly the stack state and result of `PopShortEffect` |
| Rewrite.MemoryData.WriteShort | ssvm-core/src/main/java/dev/xdark/ssvm/execution/rewrite/PutStaticShortProcessor.java:21 | writes the short's two bytes at the offset in the buffer's byte order, as `StoreShort`; an access outside the buffer raises and writes nothing |
| Rewrite.PutStaticShortEffect | ssvm-core/src/main/java/dev/xdark/ssvm/execution/rewrite/PutStaticShortProcessor.java:18-23 | a successful store pops exactly one slot; the offset reads back the popped int narrowed to a short; no other byte changes |
| Rewrite.LoadStoredShort | ssvm-core/src/main/java/dev/xdark/ssvm/execution/rewrite/PutStaticShortProcessor.java:21 | the short written at an offset is the one read back there, in either byte order |
| Rewrite.ToShort | ssvm-core/src/main/java/dev/xdark/ssvm/execution/rewrite/PutStaticShortProcessor.java:21 | Java's `(short)` cast: the short congruent to the int modulo 2^16 |
| GarbageCollector.ReservedHeaderSize | src/main/java/dev/xdark/ssvm/memory/gc/MarkAndSweepGarbageCollector.java:52-55 | one header byte per object |
| GarbageCollector.MarkAndSweep.MakeHandle | src/main/java/dev/xdark/ssvm/memory/gc/MarkAndSweepGarbageCollector.java:57-69 | an existing handle for the object is returned and nothing changes; otherwise the object and the unmarked objects it reaches become `MARK_REF`, and a new handle is recorded |
| GarbageCollector.MarkAndSweep.Deallocate | src/main/java/dev/xdark/ssvm/memory/gc/MarkAndSweepGarbageCollector.java:63-66 | release resets the object's header to `MARK_NONE` and forgets its handle; nothing else changes |
| GarbageCollector.MarkAndSweep.Invoke | src/main/java/dev/xdark/ssvm/memory/gc/MarkAndSweepGarbageCollector.java:71-131 | marks the closure of the root set and then sweeps as `SweepFrom` says; handles are kept, every pinned object stays `MARK_REF` and keeps its block, and after a sweep without panic its list entry is still there |
| GarbageCollector.SweepKeepsPinned | src/main/java/dev/xdark/ssvm/memory/gc/MarkAndSweepGarbageCollector.java:112-129 | a `MARK_REF` object keeps its mark and its block through the sweep, and a listed entry for it is kept unless a free fails |
| GarbageCollector.MarkAndSweep.MarkRoots | src/main/java/dev/xdark/ssvm/memory/gc/MarkAndSweepGarbageCollector.java:80-110 | the headers become the closure of the whole root set |
| GarbageCollector.MarkAndSweep.MarkLoaders | src/main/java/dev/xdark/ssvm/memory/gc/MarkAndSweepGarbageCollector.java:80-84 | the closure of every loader's oop and classes |
| GarbageCollector.MarkAndSweep.MarkLoader | src/main/java/dev/xdark/ssvm/memory/gc/MarkAndSweepGarbageCollector.java:81-83 | the closure of one loader's oop and its classes |
| GarbageCollector.MarkAndSweep.MarkClasses | src/main/java/dev/xdark/ssvm/memory/gc/MarkAndSweepGarbageCollector.java:87-94 | the closure of the eight primitive classes and their array-class chains |
| GarbageCollector.MarkAndSweep.MarkThreads | src/main/java/dev/xdark/ssvm/memory/gc/MarkAndSweepGarbageCollector.java:95-110 | the closure of every alive thread's oop, stacks and locals; a dead thread adds nothing |
| GarbageCollector.MarkAndSweep.MarkThread | src/main/java/dev/xdark/ssvm/memory/gc/MarkAndSweepGarbageCollector.java:96-109 | an alive thread contributes the closure of its oop and its frames; a dead thread changes nothing |
| GarbageCollector.MarkAndSweep.MarkFrame | src/main/java/dev/xdark/ssvm/memory/gc/MarkAndSweepGarbageCollector.java:99-107 | a frame with a context contributes the closure of its stack view and locals; one without changes nothing |
| GarbageCollector.MarkAndSweep.MarkBacktrace | src/main/java/dev/xdark/ssvm/memory/gc/MarkAndSweepGarbageCollector.java:98-108 | the closure of every frame's stack and locals; a frame without a context adds nothing |
| GarbageCollector.MarkAndSweep.MarkValues | src/main/java/dev/xdark/ssvm/memory/gc/MarkAndSweepGarbageCollector.java:101-103 | the closure of the object values on a stack view |
| GarbageCollector.MarkAndSweep.MarkLocals | src/main/java/dev/xdark/ssvm/memory/gc/MarkAndSweepGarbageCollector.java:104-106 | the closure of the object values in a locals table |
| GarbageCollector.MarkAndSweep.Sweep | src/main/java/dev/xdark/ssvm/memory/gc/MarkAndSweepGarbageCollector.java:112-129 | the headers, live blocks and kept entries of `SweepFrom`; a block that cannot be freed panics |
| GarbageCollector.MarkAndSweep.SweepEntry | src/main/java/dev/xdark/ssvm/memory/gc/MarkAndSweepGarbageCollector.java:113-128 | one entry as `SweepOne` says: a null entry is kept; an unmarked object is freed; a non-pinned one is reset |
| GarbageCollector.MarkAndSweep.MarkClassLoaderData | src/main/java/dev/xdark/ssvm/memory/gc/MarkAndSweepGarbageCollector.java:133-144 | the closure of each class's oop chain, plus its static fields once it no longer needs initialising |
| GarbageCollector.MarkAndSweep.MarkClassData | src/main/java/dev/xdark/ssvm/memory/gc/MarkAndSweepGarbageCollector.java:137-142 | the closure of one class's oop chain, plus its static fields once it no longer needs initialising |
| GarbageCollector.MarkAndSweep.MarkClass | src/main/java/dev/xdark/ssvm/memory/gc/MarkAndSweepGarbageCollector.java:146-154 | the closure of the class oop and of every array class along its chain |
| GarbageCollector.MarkAndSweep.MarkChain | src/main/java/dev/xdark/ssvm/memory/gc/MarkAndSweepGarbageCollector.java:149-153 | the closure of every oop along the array-class chain, visited in order |
| GarbageCollector.MarkAndSweep.TryMark | src/main/java/dev/xdark/ssvm/memory/gc/MarkAndSweepGarbageCollector.java:156-160 | only an object value is marked |
| GarbageCollector.MarkAndSweep.SetMark | src/main/java/dev/xdark/ssvm/memory/gc/MarkAndSweepGarbageCollector.java:162-176 | null and objects already `MARK_SET`/`MARK_REF` stop marking; otherwise the closure through unmarked objects |
| GarbageCollector.MarkAndSweep.SetMarkImpl | src/main/java/dev/xdark/ssvm/memory/gc/MarkAndSweepGarbageCollector.java:178-196 | writes the mark, then marks the closure of the object's successors |
| GarbageCollector.MarkAndSweep.MarkElements | src/main/java/dev/xdark/ssvm/memory/gc/MarkAndSweepGarbageCollector.java:184-190 | the closure of a reference array's elements |
| GarbageCollector.MarkAndSweep.MarkAllFields | src/main/java/dev/xdark/ssvm/memory/gc/MarkAndSweepGarbageCollector.java:198-205 | the closure of every reference-typed field |
| GarbageCollector.MarkAndSweep.MarkField | src/main/java/dev/xdark/ssvm/memory/gc/MarkAndSweepGarbageCollector.java:201-203 | a field of sort below `ARRAY` marks nothing; otherwise the closure of its value |
| Reachability.ClosureUnion | src/main/java/dev/xdark/ssvm/memory/gc/MarkAndSweepGarbageCollector.java:80-110 | marking roots one after another marks what marking them all at once does, whatever the order |
| Reachability.ClosureKeepsMarked | src/main/java/dev/xdark/ssvm/memory/gc/MarkAndSweepGarbageCollector.java:162-176 | marking never changes a header that is already `MARK_SET` or `MARK_REF` |
| Reachability.ClosureUnfold | src/main/java/dev/xdark/ssvm/memory/gc/MarkAndSweepGarbageCollector.java:178-196 | marking an unmarked object is writing its mark and then marking from each of its successors |
| GarbageCollector.PinMarksReach | src/main/java/dev/xdark/ssvm/memory/gc/MarkAndSweepGarbageCollector.java:57-69 | pinning gives `MARK_REF` to the object and to exactly the unmarked objects it reaches |
| GarbageCollector.SweepSpec | src/main/java/dev/xdark/ssvm/memory/gc/MarkAndSweepGarbageCollector.java:112-129 | over a list without duplicates, the sweep keeps exactly the marked entries; it frees exactly the unmarked ones; it resets every non-pinned header; it does not panic |
| GarbageCollector.SweepPanics | src/main/java/dev/xdark/ssvm/memory/gc/MarkAndSweepGarbageCollector.java:124-126 | an unmarked object whose block is not live makes the sweep panic |
| GarbageCollector.FilterMembers | src/main/java/dev/xdark/ssvm/memory/gc/MarkAndSweepGarbageCollector.java:119-128 | an object is kept exactly when it is listed with a mark; null entries are kept |
| GarbageCollector.FreedMembers | src/main/java/dev/xdark/ssvm/memory/gc/MarkAndSweepGarbageCollector.java:119-127 | an object is freed exactly when it is listed unmarked |
| GarbageCollector.CollectionOutcome | src/main/java/dev/xdark/ssvm/memory/gc/MarkAndSweepGarbageCollector.java:71-131 | after a collection, a listed object survives exactly when it is reachable from the roots or already marked; exactly the others are freed; pinned headers stay `MARK_REF`, every other header is `MARK_NONE` |
| GarbageCollector.PinnedChildFreed | src/main/java/dev/xdark/ssvm/memory/gc/MarkAndSweepGarbageCollector.java:170-173 | a child linked to a pinned object after pinning is freed by the next collection |
| GarbageCollector.ReleaseSelfLoopOverflows | src/main/java/dev/xdark/ssvm/memory/gc/MarkAndSweepGarbageCollector.java:63-64 | releasing the source's way (`setMarkImpl(k, MARK_NONE)`) never finishes on a self-referencing object |
| GarbageCollector.ReleaseAgreesWhenChildrenMarked | src/main/java/dev/xdark/ssvm/memory/gc/MarkAndSweepGarbageCollector.java:63-64 | when the object's children all carry marks and it does not refer to itself, the source's release resets the object's header only, as `Deallocate` does |
| VM.MethodName | src/main/java/dev/xdark/ssvm/VirtualMachine.java:436 | owner, `.`, name and descriptor |
| VM.LockOf | src/main/java/dev/xdark/ssvm/VirtualMachine.java:412-420 | a lock exactly for a synchronized method: local 0 of an instance method, the owner's oop of a static one |
| VM.RunHooksShape | src/main/java/dev/xdark/ssvm/VirtualMachine.java:422-424 | hooks run in order; the run throws iff some hook throws; without a throw every hook ran once |
| VM.ReplaceSlashes | src/main/java/dev/xdark/ssvm/VirtualMachine.java:378 | same length, `/` becomes `.`, every other character is kept |
| VM.VirtualMachine.RunInvocationHooks | src/main/java/dev/xdark/ssvm/VirtualMachine.java:422-424 | the trace grows by the hook calls of `RunHooks`, and the completion is the same |
| VM.VirtualMachine.Enter | src/main/java/dev/xdark/ssvm/VirtualMachine.java:403-420 | line reset for a native method, frame push, invocation count, then the lock, if any |
| VM.VirtualMachine.RunBody | src/main/java/dev/xdark/ssvm/VirtualMachine.java:422-444 | pre-hooks, interceptor, native and abstract checks, interpreter, with host-exception translation |
| VM.VirtualMachine.Leave | src/main/java/dev/xdark/ssvm/VirtualMachine.java:445-460 | post-hooks, release, monitor exit if held, frame pop; a post-hook exception replaces the completion |
| VM.VirtualMachine.ExecuteContext | src/main/java/dev/xdark/ssvm/VirtualMachine.java:400-461 | the trace grows by `Execute`'s events and the completion is `Execute`'s |
| VM.InvocationCountedOnce | src/main/java/dev/xdark/ssvm/VirtualMachine.java:403-458 | PushFrame and IncreaseInvocation occur once each; PopFrame is last; a native method first sets line -2 |
| VM.LockEnteredBeforeHooks | src/main/java/dev/xdark/ssvm/VirtualMachine.java:411-424 | a synchronized method enters its monitor after the count and before any pre-hook |
| VM.AbortSkipsInterpreter | src/main/java/dev/xdark/ssvm/VirtualMachine.java:425-433 | an interceptor returning `ABORT` skips the interpreter; the completion is the post-hooks' |
| VM.NativeRaisesLinkError | src/main/java/dev/xdark/ssvm/VirtualMachine.java:434-436 | a native method not intercepted throws `UnsatisfiedLinkError` naming the method, unless a post-hook throws |
| VM.AbstractRaisesMethodError | src/main/java/dev/xdark/ssvm/VirtualMachine.java:437-439 | an abstract method not intercepted throws `AbstractMethodError` naming the method, unless a post-hook throws |
| VM.ExceptionTranslation | src/main/java/dev/xdark/ssvm/VirtualMachine.java:440-444 | a guest exception and a host error propagate unchanged; any other host exception is wrapped in an `IllegalStateException` naming the method |
| VM.ExitSequence | src/main/java/dev/xdark/ssvm/VirtualMachine.java:445-460 | on every path: the post-hooks, then one release, then the monitor exit if held, then the pop, last |
| VM.PostHookExceptionWins | src/main/java/dev/xdark/ssvm/VirtualMachine.java:448-450 | the first post-hook that throws decides the completion |
| VM.VirtualMachine.DrainTaskQueue | src/main/java/dev/xdark/ssvm/VirtualMachine.java:468-474 | the tasks run in queue order up to the first throw; the rest stay queued, as `Drain` says |
| VM.DrainAll | src/main/java/dev/xdark/ssvm/VirtualMachine.java:468-474 | when no task throws, every task runs in order and the queue ends empty |
| VM.DrainStopsAtThrow | src/main/java/dev/xdark/ssvm/VirtualMachine.java:468-474 | the first throwing task ends the drain, and the tasks after it stay queued |
| VM.VirtualMachine.FindBootstrapClass | src/main/java/dev/xdark/ssvm/VirtualMachine.java:342-348 | the boot class, initialised only when found and asked to |
| VM.VirtualMachine.FindClass | src/main/java/dev/xdark/ssvm/VirtualMachine.java:372-390 | null loader: the boot class, or `ClassNotFoundException` with the dotted name; other loaders: their own data, else the guest's `loadClass` with the dotted name |
| VM.ReplaceSlashesDotted | src/main/java/dev/xdark/ssvm/VirtualMachine.java:378 | a dotted name holds no `/`, dotting it again changes nothing, and its other characters are kept |
| Mirror.JavaMethod.constructor | src/main/java/dev/xdark/ssvm/mirror/JavaMethod.java:35-40 | owner, node, descriptor and slot as given; every cache empty; `maxArgs` is -1 |
| Mirror.JavaMethod.FromNode | src/main/java/dev/xdark/ssvm/mirror/JavaMethod.java:50-52 | as the constructor, with the node's own descriptor |
| Mirror.JavaMethod.GetType | src/main/java/dev/xdark/ssvm/mirror/JavaMethod.java:122-128 | the parsed descriptor, parsed on the first call only and cached |
| Mirror.JavaMethod.GetArgumentTypes | src/main/java/dev/xdark/ssvm/mirror/JavaMethod.java:135-141 | a fresh copy of the cached argument types, never the cache itself |
| Mirror.JavaMethod.GetReturnType | src/main/java/dev/xdark/ssvm/mirror/JavaMethod.java:148-154 | the descriptor's return type, cached |
| Mirror.JavaMethod.IsPolymorphic | src/main/java/dev/xdark/ssvm/mirror/JavaMethod.java:160-168 | true iff a visible annotation is `@PolymorphicSignature`; the answer is cached |
| Mirror.JavaMethod.GetMaxArgs | src/main/java/dev/xdark/ssvm/mirror/JavaMethod.java:174-183 | one slot for `this` of an instance method plus the argument slots, cached in place of -1 |
| Mirror.Size | src/main/java/dev/xdark/ssvm/mirror/JavaMethod.java:174-183 | long and double take 2 slots, void 0, every other type 1 |
| Mirror.ArgumentSlotsCount | src/main/java/dev/xdark/ssvm/mirror/JavaMethod.java:174-183 | without void arguments, the slots number the arguments plus the wide ones, between n and 2n |
| Mirror.MaxArgsReceiver | src/main/java/dev/xdark/ssvm/mirror/JavaMethod.java:176-178 | an instance method needs one slot more than the same static method |
| Mirror.AnyMatch | src/main/java/dev/xdark/ssvm/mirror/JavaMethod.java:160-168 | true iff some annotation has the descriptor |
| Mirror.EqualsEquivalence | src/main/java/dev/xdark/ssvm/mirror/JavaMethod.java:186-199 | `equals` is reflexive, symmetric and transitive; it holds iff owner and node agree; equal methods hash alike |
| Mirror.EqualsOnlyMethods | src/main/java/dev/xdark/ssvm/mirror/JavaMethod.java:186-194 | a `JavaMethod` equals no other kind of object |
| Mirror.ToStringParts | src/main/java/dev/xdark/ssvm/mirror/JavaMethod.java:202-205 | the owner's internal name, `.`, the name and the descriptor |
| Slices.ArraySlice.constructor | src/main/java/dev/xdark/ssvm/util/ArraySlice.java:17-31 | the backing array and both bounds as given |
| Slices.ArraySlice.Map | src/main/java/dev/xdark/ssvm/util/ArraySlice.java:73-75 | the backing index is congruent to index plus start modulo 2^32 |
| Slices.ArraySlice.Get | src/main/java/dev/xdark/ssvm/util/ArraySlice.java:43-45 | succeeds exactly when the mapped index lies in the backing array |
| Slices.ArraySlice.Set | src/main/java/dev/xdark/ssvm/util/ArraySlice.java:33-35 | writes exactly the mapped slot and `get` then reads the value; every other index reads as before; out of range raises and writes nothing |
| Slices.ArraySlice.Length | src/main/java/dev/xdark/ssvm/util/ArraySlice.java:50-52 | `toIndex - fromIndex` whenever that fits an int |
| Slices.ArraySlice.Copy | src/main/java/dev/xdark/ssvm/util/ArraySlice.java:57-59 | `toIndex - fromIndex` elements; a negative length and a start outside the array raise |
| Slices.ArraySlice.Unwrap | src/main/java/dev/xdark/ssvm/util/ArraySlice.java:57-59 | a fresh array holding `Copy`, or its exception |
| Slices.ArraySlice.Slice | src/main/java/dev/xdark/ssvm/util/ArraySlice.java:69-71 | a fresh slice over the same backing array, with mapped bounds |
| Slices.MapInjective | src/main/java/dev/xdark/ssvm/util/ArraySlice.java:73-75 | distinct window indices map to distinct backing indices |
| Slices.SliceShares | src/main/java/dev/xdark/ssvm/util/ArraySlice.java:69-75 | a sub-slice reads index `i` where its parent reads `a + i`, so writes through either are seen by both; its length is `b - a` |
| Slices.CopyAgreesWithGet | src/main/java/dev/xdark/ssvm/util/ArraySlice.java:57-59 | for a window starting inside the array, element `i` of the copy is `get(i)`, or null past the end |
| IntComparison.DoIntJump | src/test/java/dev/xdark/ssvm/IntComparisonTest.java:60-76 | returns true exactly when the comparison with zero holds |
| IntComparison.ProgramDecides | src/test/java/dev/xdark/ssvm/IntComparisonTest.java:60-76 | the generated method returns 1 when the jump is taken and 0 otherwise |
| IntComparison.LabelAt | src/test/java/dev/xdark/ssvm/IntComparisonTest.java:66-70 | the first position of the label, or none when it is missing |
| IntComparison.DrawnNegates | src/test/java/dev/xdark/ssvm/IntComparisonTest.java:78-80 | a drawn value and its negation are non-zero ints of opposite sign |
| IntComparison.TestIFNEAndIFEQ | src/test/java/dev/xdark/ssvm/IntComparisonTest.java:23-32 | `ifne` jumps for a drawn value, `ifeq` for zero |
| IntComparison.TestIFLT | src/test/java/dev/xdark/ssvm/IntComparisonTest.java:34-38 | `iflt` jumps for a negated drawn value |
| IntComparison.TestIFLE | src/test/java/dev/xdark/ssvm/IntComparisonTest.java:40-45 | `ifle` jumps for a negated drawn value and for zero |
| IntComparison.TestIFGT | src/test/java/dev/xdark/ssvm/IntComparisonTest.java:47-51 | `ifgt` jumps for a drawn value |
| IntComparison.TestIFGE | src/test/java/dev/xdark/ssvm/IntComparisonTest.java:53-58 | `ifge` jumps for a drawn value and for zero |
| IntComparison.OppositeConditions | src/test/java/dev/xdark/ssvm/IntComparisonTest.java:23-58 | each condition and its opposite: exactly one of them jumps |

## Left out

- The virtual machine's bootstrap, its wiring of managers and its thread manager are not modelled. The model takes the roots, the thread list and the current thread's queue as values.
- `threadManager.suspendAll`/`resumeAll` and everything concurrent are not modelled. Monitors are events in the trace, and whether the lock is still held at exit is a parameter.
- Floating point is not modelled: `asDouble` and `asLong` are parameters of `Processors.LongToDouble` and `Processors.DoubleToLong`.
- Foreign calls are parameters whose outcomes are given:
  - `JitHelper.arrayLoadLong`;
  - descriptor parsing (`Type.getMethodType`);
  - `Interpreter.execute`;
  - invocation hooks and method invokers;
  - the guest's `loadClass`.
- The thread region behind the stack is a fixed array of slots (`Execution.Stack.storage`). Its allocation and release (`deallocate`/`close`) are not modelled.
- `Stack.hashCode` and `Stack.toString` are not modelled. They only format values.
- The `JavaMethod` plain getters are not modelled; they return fields. Owners and nodes compare by identity, since neither overrides `equals`.
- `SimpleZipFile` and `InstanceJavaClass` are not part of this model. Where the collector needs a class, a `ClassInfo` value stands in for it: its oop, array-class chain, initialisation flag and static fields.
- GarbageCollector.MarkAndSweep.Sweep: assumes that `listObjects` holds no object twice (`NoDup`). The sweep of a list with duplicates is not modelled.
- GarbageCollector.MarkAndSweep.Sweep: `listObjects` returns only a `Collection`, whose class the collector does not fix. The model assumes that a `removeIf` whose predicate throws leaves the list as it was (as `java.util.ArrayList.removeIf` does, since it tests every entry before removing any); the header writes and frees made before the throw stay.
- Rewrite.PopShortEffect: `Stack.popShort` is not part of this model's sources. It is assumed to be a narrow `pop` followed by the `(short)` cast of an `int`, raising (`NotAnInt`) when the popped value is not an `int`.
- Rewrite.MemoryData.WriteShort: `MemoryData.writeShort` is not part of this model's sources. It is assumed to write the two bytes in the buffer's byte order and to raise, writing nothing, when the two bytes do not fit in the buffer.
- Execution.Stack.Get: `ThreadRegion` is not part of this model's sources. Its `get` and `set` are assumed to be bounds-checked accesses to a fixed array of slots that raise outside it.
- Rewrite.PutStaticShort: requires that the stack's region and the owner's static storage are different objects, which they always are in the virtual machine.
- GarbageCollector.MarkAndSweep.SetMarkImpl: the host recursion depth of marking is not modelled. A deep object graph overflows the host stack in the source.
- A null stack and a null backing array of a slice are not modelled. Null Java values inside them are `None`.
- IntComparison.DoIntJump: class creation and `invokeStatic` are modelled by a small interpreter of the five instructions used. `asBoolean` of an `int` is modelled as `!= 0`.
- VM.VirtualMachine.FindClass: requires the loader to be registered, which the source's `getClassLoaderData(loader)` relies on.
- VM.VirtualMachine.Enter: a null local 0 of a synchronized instance method (`lock.monitorEnter` on null) is not modelled. Taking the lock happens outside the `try`, and the model keeps that order.
- Mirror.JavaMethod.GetMaxArgs: the count is an unbounded integer. An `int` sum cannot overflow for the at most 255 argument slots of a real method.

## Findings

| source | as written | input that shows it | evidently intended | confidence | as-written member | corrected member |
|---|---|---|---|---|---|---|
| src/main/java/dev/xdark/ssvm/memory/gc/MarkAndSweepGarbageCollector.java:63-64 | releasing a handle calls `setMarkImpl(k, MARK_NONE)`, which writes `MARK_NONE` and then calls `setMark(child, MARK_NONE)` on every reference field; `setMark` recurses into any child whose mark is `MARK_NONE` | an instance whose only field refers to itself, pinned and then released: the object is its own `MARK_NONE` child, so the recursion never ends (a `StackOverflowError`) | release resets the pinned object's header to `MARK_NONE` | not executed | GarbageCollector.ReleaseSelfLoopOverflows | GarbageCollector.MarkAndSweep.Deallocate |
