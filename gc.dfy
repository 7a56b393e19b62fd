/**
 * `MarkAndSweepGarbageCollector`: marks every object reachable from the VM's
 * roots with `MARK_SET`, pins objects held by a GC handle with `MARK_REF`,
 * and sweeps the object list, freeing what is still `MARK_NONE`.
 *
 * The collector reads and writes memory it does not own: the header byte of
 * every object, the allocator's live blocks and the memory manager's object
 * list.  The class keeps these as fields beside its own handle map; the
 * object graph itself is fixed while the collector runs.
 */
module GarbageCollector {
  import opened Wrappers
  import opened Values
  import opened Reachability

  /** `reservedHeaderSize`: one byte in front of every object, holding its mark. */
  function ReservedHeaderSize(): (n: nat)
    ensures n == 1
  {
    1
  }

  // ---------------------------------------------------------------------------
  // The roots
  // ---------------------------------------------------------------------------

  /** What marking reads of a class: its oop, the oops along its array-class chain, whether it still needs initialising, and its static fields. */
  datatype ClassInfo = ClassInfo(
    oop: Option<Ref>,
    arrayClassOops: seq<Option<Ref>>,
    shouldBeInitialized: bool,
    staticFields: seq<FieldSlot>)

  /** A class loader object and the classes of its `ClassLoaderData`. */
  datatype Loader = Loader(oop: Option<Ref>, data: seq<ClassInfo>)

  /** An execution context: the operand stack's `view()` and the locals table (`None` is a null slot). */
  datatype Context = Context(stackView: seq<Value>, locals: seq<Option<Value>>)

  datatype StackFrame = StackFrame(context: Option<Context>)

  datatype VMThread = VMThread(alive: bool, oop: Option<Ref>, backtrace: seq<StackFrame>)

  /** `VMPrimitives`: the eight primitive classes. */
  datatype Primitives = Primitives(
    longClass: ClassInfo, doubleClass: ClassInfo, intClass: ClassInfo, floatClass: ClassInfo,
    charClass: ClassInfo, shortClass: ClassInfo, byteClass: ClassInfo, booleanClass: ClassInfo)

  /** Everything `invoke` marks from: the class loaders, the boot loader's classes, the primitives and the threads. */
  datatype Roots = Roots(loaders: seq<Loader>, boot: seq<ClassInfo>, primitives: Primitives, threads: seq<VMThread>)

  /** The primitive classes in the order `invoke` marks them. */
  function PrimitiveClasses(p: Primitives): (cs: seq<ClassInfo>)
    ensures |cs| == 8
  {
    [p.longClass, p.doubleClass, p.intClass, p.floatClass, p.charClass, p.shortClass, p.byteClass, p.booleanClass]
  }

  /** The union of what each element of a sequence contributes, gathered from the front. */
  function Gather<T>(s: seq<T>, f: T -> set<Ref>): set<Ref> {
    if s == [] then {} else Gather(s[..|s| - 1], f) + f(s[|s| - 1])
  }

  /** One more element gathers its own contribution, and a prefix gathers no more than the whole. */
  lemma {:induction false} GatherPrefix<T>(s: seq<T>, f: T -> set<Ref>, i: nat)
    requires i < |s|
    ensures Gather(s[..i + 1], f) == Gather(s[..i], f) + f(s[i])
    ensures f(s[i]) <= Gather(s[..i + 1], f) <= Gather(s, f)
    decreases |s|
  {
    assert s[..i + 1][..i] == s[..i];
    if i + 1 < |s| {
      GatherPrefix(s[..|s| - 1], f, i);
      assert s[..|s| - 1][..i + 1] == s[..i + 1];
      assert s[..|s| - 1][..i] == s[..i];
    } else {
      assert s[..i + 1] == s;
    }
  }

  /** `tryMark`: only object values are marked; the null value marks nothing. */
  function ValueRef(v: Value): set<Ref> {
    if v.Obj? then {v.ref} else {}
  }

  /** A slot of a locals table: a null slot marks nothing. */
  function LocalRef(l: Option<Value>): set<Ref> {
    if l.Some? then ValueRef(l.value) else {}
  }

  /** `markClass`: the class's oop and the oop of every class along its array-class chain. */
  function ClassRoots(c: ClassInfo): set<Ref> {
    Opt(c.oop) + Refs(c.arrayClassOops)
  }

  /** The static fields of a class are traced only once it no longer needs initialising. */
  function StaticRoots(c: ClassInfo): set<Ref> {
    if c.shouldBeInitialized then {} else FieldRefs(c.staticFields)
  }

  /** What `markClassLoaderData` marks for one class. */
  function ClassDataRoots(c: ClassInfo): set<Ref> {
    ClassRoots(c) + StaticRoots(c)
  }

  /** A frame contributes its stack and locals, when it has an execution context. */
  function FrameRoots(f: StackFrame): set<Ref> {
    match f.context
    case None => {}
    case Some(ctx) => Gather(ctx.stackView, ValueRef) + Gather(ctx.locals, LocalRef)
  }

  /** An alive thread contributes its oop and its frames; a dead one nothing. */
  function ThreadRoots(t: VMThread): set<Ref> {
    if t.alive then Opt(t.oop) + Gather(t.backtrace, FrameRoots) else {}
  }

  /** A class loader contributes its oop and its classes. */
  function LoaderRoots(l: Loader): set<Ref> {
    Opt(l.oop) + Gather(l.data, ClassDataRoots)
  }

  /** The root set of a collection. */
  function RootSet(r: Roots): set<Ref> {
    Gather(r.loaders, LoaderRoots) + Gather(r.boot, ClassDataRoots)
      + Gather(PrimitiveClasses(r.primitives), ClassRoots) + Gather(r.threads, ThreadRoots)
  }

  // ---------------------------------------------------------------------------
  // The sweep
  // ---------------------------------------------------------------------------

  /** The sweep's progress: headers, live blocks, the entries kept so far, and whether a free failed. */
  datatype SweepState = SweepState(header: Headers, liveBlocks: set<Ref>, kept: seq<Option<Ref>>, panicked: bool)

  /**
   * The `removeIf` predicate on one entry: keep a null entry; otherwise read
   * the mark, reset it to `MARK_NONE` unless it is `MARK_REF`, and remove and
   * free the object if it was `MARK_NONE`, panicking if the free fails.
   */
  function SweepOne(s: SweepState, x: Option<Ref>): (t: SweepState)
    requires x.Some? ==> x.value in s.header
    ensures t.header.Keys == s.header.Keys
  {
    if x.None? then s.(kept := s.kept + [x])
    else
      var mark := s.header[x.value];
      var header := if mark != MARK_REF then s.header[x.value := MARK_NONE] else s.header;
      if mark != MARK_NONE then s.(header := header, kept := s.kept + [x])
      else if x.value in s.liveBlocks then s.(header := header, liveBlocks := s.liveBlocks - {x.value})
      else s.(header := header, panicked := true)
  }

  /** The sweep over the rest of the object list; it stops at the first failed free. */
  function SweepFrom(s: SweepState, objs: seq<Option<Ref>>): (t: SweepState)
    requires forall i :: 0 <= i < |objs| && objs[i].Some? ==> objs[i].value in s.header
    ensures t.header.Keys == s.header.Keys
    decreases |objs|
  {
    if s.panicked || objs == [] then s else SweepFrom(SweepOne(s, objs[0]), objs[1..])
  }

  /** A handle that pins one object (`SimpleGCHandle`). */
  class GCHandle {
    const obj: Ref

    constructor(obj: Ref)
      ensures this.obj == obj
    {
      this.obj := obj;
    }
  }

  class MarkAndSweep {
    /** The objects of the heap as the collector walks them. */
    const objects: Graph
    /** The header byte of every object. */
    var header: Headers
    /** The blocks the allocator still holds. */
    var liveBlocks: set<Ref>
    /** The memory manager's object list; `None` is a null entry. */
    var allObjects: seq<Option<Ref>>
    /** `handles`: the handle of every pinned object. */
    var handles: map<Ref, GCHandle>

    /**
     * Every object has a header, every stored reference and every listed or
     * pinned object is an object of the heap, and every pinned object stays
     * `MARK_REF` until its handle is released.
     */
    ghost predicate Valid()
      reads this
    {
      && header.Keys == objects.Keys
      && Closed(objects)
      && (forall i :: 0 <= i < |allObjects| && allObjects[i].Some? ==> allObjects[i].value in objects)
      && handles.Keys <= objects.Keys
      && (forall o :: o in handles ==> header[o] == MARK_REF)
    }

    constructor(objects: Graph, header: Headers, liveBlocks: set<Ref>, allObjects: seq<Option<Ref>>)
      requires header.Keys == objects.Keys && Closed(objects)
      requires forall i :: 0 <= i < |allObjects| && allObjects[i].Some? ==> allObjects[i].value in objects
      ensures Valid()
      ensures this.objects == objects && this.header == header && this.liveBlocks == liveBlocks
      ensures this.allObjects == allObjects && handles == map[]
    {
      this.objects := objects;
      this.header := header;
      this.liveBlocks := liveBlocks;
      this.allObjects := allObjects;
      this.handles := map[];
    }

    /**
     * `setMark(value, markToSet)`: nothing for null or for an object already
     * `SET` or `REF`; otherwise `setMarkImpl`.  The headers end up as the
     * closure from `x`.
     */
    method SetMark(x: Option<Ref>, k: bv8)
      requires Valid() && Marked(k) && (x.Some? ==> x.value in objects)
      modifies this
      ensures Valid()
      ensures header == Closure(objects, old(header), Opt(x), k)
      ensures liveBlocks == old(liveBlocks) && allObjects == old(allObjects) && handles == old(handles)
      decreases U(header), 1
    {
      if x.None? {
        ClosureOfNothing(objects, header, k);
        return;
      }
      var mark := header[x.value];
      if mark == MARK_REF || mark == MARK_SET {
        ClosureOfMarked(objects, header, {x.value}, k);
        return;
      }
      ghost var h0 := header;
      SetMarkImpl(x.value, k);
      ClosureUnfold(objects, h0, x.value, k);
    }

    /**
     * `setMarkImpl(value, markToSet)`: write the mark first, then visit the
     * elements of a reference array or the reference fields of an instance.
     * Writing first is what makes cycles terminate.
     */
    method SetMarkImpl(x: Ref, k: bv8)
      requires Valid() && Marked(k) && x in objects
      // `setMark` calls it only on unmarked objects, `makeHandle` only with `MARK_REF`
      requires x in handles ==> k == MARK_REF
      modifies this
      ensures Valid()
      ensures header == Closure(objects, old(header)[x := k], Succ(objects, x), k)
      ensures liveBlocks == old(liveBlocks) && allObjects == old(allObjects) && handles == old(handles)
      decreases U(header) + (if Marked(header[x]) then 1 else 0), 0
    {
      MarkOne(header, x, k);
      WriteKeepsValid(x, k);
      header := header[x := k];
      ghost var h1 := header;
      match objects[x]
      case ArrayObject(primitive, elements) =>
        if primitive {
          ClosureOfNothing(objects, h1, k);
        } else {
          MarkElements(x, elements, k);
        }
      case InstanceObject(fields) =>
        MarkAllFields(fields, k);
    }

    /** Writing mark `k` on `x` keeps the object invariant when a pinned `x` gets `MARK_REF`. */
    lemma WriteKeepsValid(x: Ref, k: bv8)
      requires Valid() && x in objects && (x in handles ==> k == MARK_REF)
      ensures header[x := k].Keys == objects.Keys
      ensures forall o :: o in handles ==> header[x := k][o] == MARK_REF
    {
    }

    /** The loop of `setMarkImpl` over the elements of a reference array, which marks each of them. */
    method MarkElements(ghost x: Ref, elements: seq<Option<Ref>>, k: bv8)
      requires Valid() && Marked(k) && x in objects && objects[x] == ArrayObject(false, elements)
      modifies this
      ensures Valid()
      ensures header == Closure(objects, old(header), Refs(elements), k)
      ensures liveBlocks == old(liveBlocks) && allObjects == old(allObjects) && handles == old(handles)
      decreases U(header), 2
    {
      ghost var h0 := header;
      ClosureOfNothing(objects, h0, k);
      var i := 0;
      while i < |elements|
        invariant 0 <= i <= |elements|
        invariant Valid()
        invariant header == Closure(objects, h0, Refs(elements[..i]), k)
        invariant U(header) <= U(h0)
        invariant liveBlocks == old(liveBlocks) && allObjects == old(allObjects) && handles == old(handles)
      {
        RefsPrefix(elements, i);
        assert elements[i].Some? ==> elements[i].value in Succ(objects, x);
        SetMark(elements[i], k);
        ClosureUnion(objects, h0, Refs(elements[..i]), Opt(elements[i]), k);
        ClosureShrinks(objects, h0, Refs(elements[..i + 1]), k);
        i := i + 1;
      }
      assert elements[..|elements|] == elements;
    }

    /** `markAllFields`: mark every field of a layout whose sort is `ARRAY` or above. */
    method MarkAllFields(fields: seq<FieldSlot>, k: bv8)
      requires Valid() && Marked(k) && FieldRefs(fields) <= objects.Keys
      modifies this
      ensures Valid()
      ensures header == Closure(objects, old(header), FieldRefs(fields), k)
      ensures liveBlocks == old(liveBlocks) && allObjects == old(allObjects) && handles == old(handles)
      decreases U(header), 3
    {
      ghost var h0 := header;
      ClosureOfNothing(objects, h0, k);
      var i := 0;
      while i < |fields|
        invariant 0 <= i <= |fields|
        invariant Valid()
        invariant header == Closure(objects, h0, FieldRefs(fields[..i]), k)
        invariant U(header) <= U(h0)
        invariant liveBlocks == old(liveBlocks) && allObjects == old(allObjects) && handles == old(handles)
      {
        FieldRefsPrefix(fields, i);
        MarkField(fields[i], k);
        ClosureUnion(objects, h0, FieldRefs(fields[..i]), FieldRef(fields[i]), k);
        ClosureShrinks(objects, h0, FieldRefs(fields[..i + 1]), k);
        i := i + 1;
      }
      assert fields[..|fields|] == fields;
    }

    /** One field of `markAllFields`: `setMark` on the value of a field of sort `ARRAY` or above. */
    method MarkField(f: FieldSlot, k: bv8)
      requires Valid() && Marked(k) && FieldRef(f) <= objects.Keys
      modifies this
      ensures Valid()
      ensures header == Closure(objects, old(header), FieldRef(f), k)
      ensures liveBlocks == old(liveBlocks) && allObjects == old(allObjects) && handles == old(handles)
      decreases U(header), 2
    {
      if f.sort >= SORT_ARRAY {
        SetMark(f.value, k);
      } else {
        ClosureOfNothing(objects, header, k);
      }
    }

    /**
     * `makeHandle`: the handle already registered for the object, or a new
     * one, registered after `setMarkImpl(value, MARK_REF)` pinned the object
     * and everything reachable from it through unmarked objects.
     */
    method MakeHandle(value: Ref) returns (handle: GCHandle)
      requires Valid() && value in objects
      modifies this
      ensures Valid()
      ensures value in old(handles) ==> handle == old(handles)[value] && handles == old(handles) && header == old(header)
      ensures value !in old(handles) ==>
        && fresh(handle) && handle.obj == value
        && handles == old(handles)[value := handle]
        && header == Closure(objects, old(header)[value := MARK_REF], Succ(objects, value), MARK_REF)
      ensures liveBlocks == old(liveBlocks) && allObjects == old(allObjects)
    {
      if value in handles {
        return handles[value];
      }
      ghost var h0 := header;
      SetMarkImpl(value, MARK_REF);
      ClosureKeepsMarked(objects, h0[value := MARK_REF], Succ(objects, value), MARK_REF, value);
      handle := new GCHandle(value);
      handles := handles[value := handle];
    }

    /**
     * Releasing a handle: the object's header goes back to `MARK_NONE` and
     * the handle is unregistered.  Only that one header is written (see
     * `ReleaseAsWritten` for what the source's recursive release does).
     */
    method Deallocate(handle: GCHandle)
      requires Valid() && handle.obj in objects
      modifies this
      ensures Valid()
      ensures header == old(header)[handle.obj := MARK_NONE]
      ensures handles == old(handles) - {handle.obj}
      ensures liveBlocks == old(liveBlocks) && allObjects == old(allObjects)
    {
      header := header[handle.obj := MARK_NONE];
      handles := handles - {handle.obj};
    }
    /** `markClass`: the class's oop, then each array class along the chain. */
    method MarkClass(c: ClassInfo)
      requires Valid() && ClassRoots(c) <= objects.Keys
      modifies this
      ensures Valid()
      ensures header == Closure(objects, old(header), ClassRoots(c), MARK_SET)
      ensures liveBlocks == old(liveBlocks) && allObjects == old(allObjects) && handles == old(handles)
    {
      ghost var h0 := header;
      SetMark(c.oop, MARK_SET);
      MarkChain(c.arrayClassOops);
      ClosureUnion(objects, h0, Opt(c.oop), Refs(c.arrayClassOops), MARK_SET);
    }

    /** The loop of `markClass` along the array-class chain, given as the oops of its classes. */
    method MarkChain(chain: seq<Option<Ref>>)
      requires Valid() && Refs(chain) <= objects.Keys
      modifies this
      ensures Valid()
      ensures header == Closure(objects, old(header), Refs(chain), MARK_SET)
      ensures liveBlocks == old(liveBlocks) && allObjects == old(allObjects) && handles == old(handles)
    {
      ghost var h0 := header;
      ClosureOfNothing(objects, h0, MARK_SET);
      var i := 0;
      while i < |chain|
        invariant 0 <= i <= |chain|
        invariant Valid()
        invariant header == Closure(objects, h0, Refs(chain[..i]), MARK_SET)
        invariant liveBlocks == old(liveBlocks) && allObjects == old(allObjects) && handles == old(handles)
      {
        RefsPrefix(chain, i);
        SetMark(chain[i], MARK_SET);
        ClosureUnion(objects, h0, Refs(chain[..i]), Opt(chain[i]), MARK_SET);
        i := i + 1;
      }
      assert chain[..|chain|] == chain;
    }

    /** One class of `markClassLoaderData`: the class, then its static fields once it no longer needs initialising. */
    method MarkClassData(klass: ClassInfo)
      requires Valid() && ClassDataRoots(klass) <= objects.Keys
      modifies this
      ensures Valid()
      ensures header == Closure(objects, old(header), ClassDataRoots(klass), MARK_SET)
      ensures liveBlocks == old(liveBlocks) && allObjects == old(allObjects) && handles == old(handles)
    {
      ghost var h0 := header;
      MarkClass(klass);
      if !klass.shouldBeInitialized {
        MarkAllFields(klass.staticFields, MARK_SET);
        ClosureUnion(objects, h0, ClassRoots(klass), StaticRoots(klass), MARK_SET);
      } else {
        assert ClassDataRoots(klass) == ClassRoots(klass);
      }
    }

    /** `markClassLoaderData`: every class, and the static fields of those that no longer need initialising. */
    method MarkClassLoaderData(data: seq<ClassInfo>)
      requires Valid() && Gather(data, ClassDataRoots) <= objects.Keys
      modifies this
      ensures Valid()
      ensures header == Closure(objects, old(header), Gather(data, ClassDataRoots), MARK_SET)
      ensures liveBlocks == old(liveBlocks) && allObjects == old(allObjects) && handles == old(handles)
    {
      ghost var h0 := header;
      ClosureOfNothing(objects, h0, MARK_SET);
      var i := 0;
      while i < |data|
        invariant 0 <= i <= |data|
        invariant Valid()
        invariant header == Closure(objects, h0, Gather(data[..i], ClassDataRoots), MARK_SET)
        invariant liveBlocks == old(liveBlocks) && allObjects == old(allObjects) && handles == old(handles)
      {
        GatherPrefix(data, ClassDataRoots, i);
        MarkClassData(data[i]);
        ClosureUnion(objects, h0, Gather(data[..i], ClassDataRoots), ClassDataRoots(data[i]), MARK_SET);
        i := i + 1;
      }
      assert data[..|data|] == data;
    }

    /** `tryMark` over the values of an operand stack's view. */
    method MarkValues(vs: seq<Value>)
      requires Valid() && Gather(vs, ValueRef) <= objects.Keys
      modifies this
      ensures Valid()
      ensures header == Closure(objects, old(header), Gather(vs, ValueRef), MARK_SET)
      ensures liveBlocks == old(liveBlocks) && allObjects == old(allObjects) && handles == old(handles)
    {
      ghost var h0 := header;
      ClosureOfNothing(objects, h0, MARK_SET);
      var i := 0;
      while i < |vs|
        invariant 0 <= i <= |vs|
        invariant Valid()
        invariant header == Closure(objects, h0, Gather(vs[..i], ValueRef), MARK_SET)
        invariant liveBlocks == old(liveBlocks) && allObjects == old(allObjects) && handles == old(handles)
      {
        GatherPrefix(vs, ValueRef, i);
        TryMark(vs[i]);
        ClosureUnion(objects, h0, Gather(vs[..i], ValueRef), ValueRef(vs[i]), MARK_SET);
        i := i + 1;
      }
      assert vs[..|vs|] == vs;
    }

    /** `tryMark` over a locals table; a null slot is not an `ObjectValue`. */
    method MarkLocals(ls: seq<Option<Value>>)
      requires Valid() && Gather(ls, LocalRef) <= objects.Keys
      modifies this
      ensures Valid()
      ensures header == Closure(objects, old(header), Gather(ls, LocalRef), MARK_SET)
      ensures liveBlocks == old(liveBlocks) && allObjects == old(allObjects) && handles == old(handles)
    {
      ghost var h0 := header;
      ClosureOfNothing(objects, h0, MARK_SET);
      var i := 0;
      while i < |ls|
        invariant 0 <= i <= |ls|
        invariant Valid()
        invariant header == Closure(objects, h0, Gather(ls[..i], LocalRef), MARK_SET)
        invariant liveBlocks == old(liveBlocks) && allObjects == old(allObjects) && handles == old(handles)
      {
        GatherPrefix(ls, LocalRef, i);
        if ls[i].Some? {
          TryMark(ls[i].value);
          ClosureUnion(objects, h0, Gather(ls[..i], LocalRef), ValueRef(ls[i].value), MARK_SET);
        }
        i := i + 1;
      }
      assert ls[..|ls|] == ls;
    }

    /** `tryMark`: `setMark(value, MARK_SET)` for an object value, nothing otherwise. */
    method TryMark(v: Value)
      requires Valid() && ValueRef(v) <= objects.Keys
      modifies this
      ensures Valid()
      ensures header == Closure(objects, old(header), ValueRef(v), MARK_SET)
      ensures liveBlocks == old(liveBlocks) && allObjects == old(allObjects) && handles == old(handles)
    {
      match v
      case Obj(ref) => SetMark(Some(ref), MARK_SET);
      case Null => SetMark(None, MARK_SET);
      case _ => ClosureOfNothing(objects, header, MARK_SET);
    }

    /** One frame of a backtrace: its stack view and its locals, when it has a context. */
    method MarkFrame(frame: StackFrame)
      requires Valid() && FrameRoots(frame) <= objects.Keys
      modifies this
      ensures Valid()
      ensures header == Closure(objects, old(header), FrameRoots(frame), MARK_SET)
      ensures liveBlocks == old(liveBlocks) && allObjects == old(allObjects) && handles == old(handles)
    {
      ghost var h0 := header;
      var ctx := frame.context;
      if ctx.Some? {
        ghost var stackRoots := Gather(ctx.value.stackView, ValueRef);
        ghost var localRoots := Gather(ctx.value.locals, LocalRef);
        MarkValues(ctx.value.stackView);
        MarkLocals(ctx.value.locals);
        ClosureUnion(objects, h0, stackRoots, localRoots, MARK_SET);
      } else {
        ClosureOfNothing(objects, h0, MARK_SET);
      }
    }

    /** The frames of an alive thread: the stack view and the locals of each frame that has a context. */
    method MarkBacktrace(frames: seq<StackFrame>)
      requires Valid() && Gather(frames, FrameRoots) <= objects.Keys
      modifies this
      ensures Valid()
      ensures header == Closure(objects, old(header), Gather(frames, FrameRoots), MARK_SET)
      ensures liveBlocks == old(liveBlocks) && allObjects == old(allObjects) && handles == old(handles)
    {
      ghost var h0 := header;
      ClosureOfNothing(objects, h0, MARK_SET);
      var i := 0;
      while i < |frames|
        invariant 0 <= i <= |frames|
        invariant Valid()
        invariant header == Closure(objects, h0, Gather(frames[..i], FrameRoots), MARK_SET)
        invariant liveBlocks == old(liveBlocks) && allObjects == old(allObjects) && handles == old(handles)
      {
        GatherPrefix(frames, FrameRoots, i);
        MarkFrame(frames[i]);
        ClosureUnion(objects, h0, Gather(frames[..i], FrameRoots), FrameRoots(frames[i]), MARK_SET);
        i := i + 1;
      }
      assert frames[..|frames|] == frames;
    }

    /** The first loop of `invoke`: each class loader's oop, then its classes. */
    method MarkLoaders(loaders: seq<Loader>)
      requires Valid() && Gather(loaders, LoaderRoots) <= objects.Keys
      modifies this
      ensures Valid()
      ensures header == Closure(objects, old(header), Gather(loaders, LoaderRoots), MARK_SET)
      ensures liveBlocks == old(liveBlocks) && allObjects == old(allObjects) && handles == old(handles)
    {
      ghost var h0 := header;
      ClosureOfNothing(objects, h0, MARK_SET);
      var i := 0;
      while i < |loaders|
        invariant 0 <= i <= |loaders|
        invariant Valid()
        invariant header == Closure(objects, h0, Gather(loaders[..i], LoaderRoots), MARK_SET)
        invariant liveBlocks == old(liveBlocks) && allObjects == old(allObjects) && handles == old(handles)
      {
        GatherPrefix(loaders, LoaderRoots, i);
        MarkLoader(loaders[i]);
        ClosureUnion(objects, h0, Gather(loaders[..i], LoaderRoots), LoaderRoots(loaders[i]), MARK_SET);
        i := i + 1;
      }
      assert loaders[..|loaders|] == loaders;
    }

    /** One class loader: `setMark` on its oop, then `markClassLoaderData` on its classes. */
    method MarkLoader(loader: Loader)
      requires Valid() && LoaderRoots(loader) <= objects.Keys
      modifies this
      ensures Valid()
      ensures header == Closure(objects, old(header), LoaderRoots(loader), MARK_SET)
      ensures liveBlocks == old(liveBlocks) && allObjects == old(allObjects) && handles == old(handles)
    {
      ghost var h0 := header;
      SetMark(loader.oop, MARK_SET);
      MarkClassLoaderData(loader.data);
      ClosureUnion(objects, h0, Opt(loader.oop), Gather(loader.data, ClassDataRoots), MARK_SET);
    }

    /** `markClass` on each class in turn. */
    method MarkClasses(classes: seq<ClassInfo>)
      requires Valid() && Gather(classes, ClassRoots) <= objects.Keys
      modifies this
      ensures Valid()
      ensures header == Closure(objects, old(header), Gather(classes, ClassRoots), MARK_SET)
      ensures liveBlocks == old(liveBlocks) && allObjects == old(allObjects) && handles == old(handles)
    {
      ghost var h0 := header;
      ClosureOfNothing(objects, h0, MARK_SET);
      var i := 0;
      while i < |classes|
        invariant 0 <= i <= |classes|
        invariant Valid()
        invariant header == Closure(objects, h0, Gather(classes[..i], ClassRoots), MARK_SET)
        invariant liveBlocks == old(liveBlocks) && allObjects == old(allObjects) && handles == old(handles)
      {
        GatherPrefix(classes, ClassRoots, i);
        MarkClass(classes[i]);
        ClosureUnion(objects, h0, Gather(classes[..i], ClassRoots), ClassRoots(classes[i]), MARK_SET);
        i := i + 1;
      }
      assert classes[..|classes|] == classes;
    }

    /** One thread of `invoke`'s marking: an alive thread's oop and its backtrace, nothing for a dead one. */
    method MarkThread(thread: VMThread)
      requires Valid() && ThreadRoots(thread) <= objects.Keys
      modifies this
      ensures Valid()
      ensures header == Closure(objects, old(header), ThreadRoots(thread), MARK_SET)
      ensures liveBlocks == old(liveBlocks) && allObjects == old(allObjects) && handles == old(handles)
    {
      ghost var h0 := header;
      if thread.alive {
        SetMark(thread.oop, MARK_SET);
        MarkBacktrace(thread.backtrace);
        ClosureUnion(objects, h0, Opt(thread.oop), Gather(thread.backtrace, FrameRoots), MARK_SET);
      } else {
        ClosureOfNothing(objects, h0, MARK_SET);
      }
    }

    /** The thread loop of `invoke`: an alive thread's oop, then its frames; a dead thread is skipped. */
    method MarkThreads(threads: seq<VMThread>)
      requires Valid() && Gather(threads, ThreadRoots) <= objects.Keys
      modifies this
      ensures Valid()
      ensures header == Closure(objects, old(header), Gather(threads, ThreadRoots), MARK_SET)
      ensures liveBlocks == old(liveBlocks) && allObjects == old(allObjects) && handles == old(handles)
    {
      ghost var h0 := header;
      ClosureOfNothing(objects, h0, MARK_SET);
      var i := 0;
      while i < |threads|
        invariant 0 <= i <= |threads|
        invariant Valid()
        invariant header == Closure(objects, h0, Gather(threads[..i], ThreadRoots), MARK_SET)
        invariant liveBlocks == old(liveBlocks) && allObjects == old(allObjects) && handles == old(handles)
      {
        GatherPrefix(threads, ThreadRoots, i);
        MarkThread(threads[i]);
        ClosureUnion(objects, h0, Gather(threads[..i], ThreadRoots), ThreadRoots(threads[i]), MARK_SET);
        i := i + 1;
      }
      assert threads[..|threads|] == threads;
    }

    /** The marking phase of `invoke`: loaders, the boot loader, the primitives, then every alive thread. */
    method MarkRoots(roots: Roots)
      requires Valid() && RootSet(roots) <= objects.Keys
      modifies this
      ensures Valid()
      ensures header == Closure(objects, old(header), RootSet(roots), MARK_SET)
      ensures liveBlocks == old(liveBlocks) && allObjects == old(allObjects) && handles == old(handles)
    {
      ghost var h0 := header;
      ghost var loaderRoots := Gather(roots.loaders, LoaderRoots);
      ghost var bootRoots := Gather(roots.boot, ClassDataRoots);
      ghost var primitiveRoots := Gather(PrimitiveClasses(roots.primitives), ClassRoots);
      ghost var threadRoots := Gather(roots.threads, ThreadRoots);
      assert RootSet(roots) == loaderRoots + bootRoots + primitiveRoots + threadRoots;
      MarkLoaders(roots.loaders);
      MarkClassLoaderData(roots.boot);
      ClosureUnion(objects, h0, loaderRoots, bootRoots, MARK_SET);
      MarkClasses(PrimitiveClasses(roots.primitives));
      ClosureUnion(objects, h0, loaderRoots + bootRoots, primitiveRoots, MARK_SET);
      MarkThreads(roots.threads);
      ClosureUnion(objects, h0, loaderRoots + bootRoots + primitiveRoots, threadRoots, MARK_SET);
    }

    /**
     * The sweep of `invoke`: `allObjects.removeIf(...)` with the predicate of
     * `SweepOne`.  The predicate's side effects (header writes, frees) stay
     * when a free fails.  The list is assumed to be changed only once every
     * entry was tested, so a failed free leaves it as it was.
     */
    method Sweep() returns (r: Result<(), Fault>)
      requires Valid()
      modifies this
      ensures Valid()
      ensures var t := SweepFrom(SweepState(old(header), old(liveBlocks), [], false), old(allObjects));
        && header == t.header && liveBlocks == t.liveBlocks
        && (t.panicked ==> r == Failure(Panic) && allObjects == old(allObjects))
        && (!t.panicked ==> r == Success(()) && allObjects == t.kept)
      ensures handles == old(handles)
    {
      ghost var s0 := SweepState(header, liveBlocks, [], false);
      var objs := allObjects;
      var kept: seq<Option<Ref>> := [];
      var i := 0;
      while i < |objs|
        invariant 0 <= i <= |objs|
        invariant Valid() && allObjects == objs == old(allObjects) && handles == old(handles)
        invariant forall j :: 0 <= j < |kept| && kept[j].Some? ==> kept[j].value in objects
        invariant SweepFrom(SweepState(header, liveBlocks, kept, false), objs[i..]) == SweepFrom(s0, objs)
      {
        assert objs[i..][1..] == objs[i + 1..];
        var keep, panicked;
        keep, panicked := SweepEntry(objs[i], kept);
        if panicked {
          return Failure(Panic);
        }
        if keep {
          kept := kept + [objs[i]];
        }
        i := i + 1;
      }
      allObjects := kept;
      return Success(());
    }

    /**
     * The predicate `removeIf` applies to one entry: whether the entry is
     * kept, or whether freeing it failed.
     */
    method SweepEntry(x: Option<Ref>, ghost kept: seq<Option<Ref>>) returns (keep: bool, panicked: bool)
      requires Valid() && (x.Some? ==> x.value in objects)
      modifies this
      ensures Valid()
      ensures var t := SweepOne(SweepState(old(header), old(liveBlocks), kept, false), x);
        && header == t.header && liveBlocks == t.liveBlocks && panicked == t.panicked
        && t.kept == (if keep then kept + [x] else kept)
      ensures allObjects == old(allObjects) && handles == old(handles)
    {
      if x.None? {
        return true, false;
      }
      var mark := header[x.value];
      var result := mark == MARK_NONE;
      if mark != MARK_REF {
        header := header[x.value := MARK_NONE];
      }
      if result {
        if x.value !in liveBlocks {
          return false, true;
        }
        liveBlocks := liveBlocks - {x.value};
      }
      return !result, false;
    }

    /** `invoke`: mark from the roots, then sweep. */
    method Invoke(roots: Roots) returns (r: Result<(), Fault>)
      requires Valid() && RootSet(roots) <= objects.Keys
      modifies this
      ensures Valid()
      ensures var marked := Closure(objects, old(header), RootSet(roots), MARK_SET);
        var t := SweepFrom(SweepState(marked, old(liveBlocks), [], false), old(allObjects));
        && header == t.header && liveBlocks == t.liveBlocks
        && (t.panicked ==> r == Failure(Panic) && allObjects == old(allObjects))
        && (!t.panicked ==> r == Success(()) && allObjects == t.kept)
      ensures handles == old(handles)
      ensures forall o :: o in handles ==> header[o] == MARK_REF && (o in old(liveBlocks) ==> o in liveBlocks)
      ensures r.Success? ==> forall o :: o in handles && Some(o) in old(allObjects) ==> Some(o) in allObjects
    {
      ghost var h0 := header;
      MarkRoots(roots);
      ghost var marked := header;
      r := Sweep();
      forall o | o in handles
        ensures header[o] == MARK_REF && (o in old(liveBlocks) ==> o in liveBlocks)
        ensures r.Success? && Some(o) in old(allObjects) ==> Some(o) in allObjects
      {
        ClosureKeepsMarked(objects, h0, RootSet(roots), MARK_SET, o);
        SweepKeepsPinned(SweepState(marked, old(liveBlocks), [], false), old(allObjects), o);
      }
    }
  }

  /**
   * A `MARK_REF` object survives the sweep: its header stays `MARK_REF`, its
   * block is not freed, and, when no free fails, a listed entry for it is kept.
   */
  lemma {:induction false} SweepKeepsPinned(s: SweepState, objs: seq<Option<Ref>>, o: Ref)
    requires forall i :: 0 <= i < |objs| && objs[i].Some? ==> objs[i].value in s.header
    requires o in s.header && s.header[o] == MARK_REF
    ensures var t := SweepFrom(s, objs);
      && t.header[o] == MARK_REF
      && (o in s.liveBlocks ==> o in t.liveBlocks)
      && (Some(o) in s.kept ==> Some(o) in t.kept)
      && (!t.panicked && Some(o) in objs ==> Some(o) in t.kept)
    decreases |objs|
  {
    if !s.panicked && objs != [] {
      var s1 := SweepOne(s, objs[0]);
      var tail := objs[1..];
      assert forall i :: 0 <= i < |tail| ==> tail[i] == objs[i + 1];
      assert objs == [objs[0]] + tail;
      SweepKeepsPinned(s1, tail, o);
    }
  }

  /** Pinning an unmarked object marks `REF` exactly what a marking from it alone reaches. */
  lemma PinMarksReach(g: Graph, h: Headers, x: Ref)
    requires Unmarked(h, x)
    ensures var pinned := Closure(g, h[x := MARK_REF], Succ(g, x), MARK_REF);
      && pinned[x] == MARK_REF
      && forall n :: n in h ==> pinned[n] == (if Reach(g, h, {x}, n) then MARK_REF else h[n])
  {
    ClosureUnfold(g, h, x, MARK_REF);
    assert IsPath(g, h, [x]);
  }

  // ---------------------------------------------------------------------------
  // The source's handle release
  // ---------------------------------------------------------------------------

  /** The references `setMarkImpl` visits from `x`, in visiting order. */
  function Children(g: Graph, x: Ref): (cs: seq<Option<Ref>>)
    ensures forall i :: 0 <= i < |cs| && cs[i].Some? ==> cs[i].value in Succ(g, x)
  {
    if x !in g then []
    else match g[x]
      case ArrayObject(primitive, elements) => if primitive then [] else elements
      case InstanceObject(fields) =>
        seq(|fields|, (i: int) requires 0 <= i < |fields| => if fields[i].sort >= SORT_ARRAY then fields[i].value else None)
  }

  /**
   * The handle release as the source writes it, `setMarkImpl(k, MARK_NONE)`:
   * write `MARK_NONE` to the object, then `setMark(child, MARK_NONE)` for
   * each child, which recurses into every child that is not `SET` or `REF`
   * -- including the ones it has just set to `MARK_NONE`.  `depth` bounds the
   * host call stack; `None` is a `StackOverflowError`.
   */
  function ReleaseAsWritten(g: Graph, h: Headers, x: Ref, depth: nat): Option<Headers>
    decreases depth, 0, 0
  {
    if depth == 0 then None
    else ReleaseChildren(g, h[x := MARK_NONE], Children(g, x), depth - 1)
  }

  function ReleaseChildren(g: Graph, h: Headers, cs: seq<Option<Ref>>, depth: nat): Option<Headers>
    decreases depth, 1, |cs|
  {
    if cs == [] then Some(h)
    else
      var c := cs[0];
      if c.None? || c.value !in h || Marked(h[c.value]) then ReleaseChildren(g, h, cs[1..], depth)
      else match ReleaseAsWritten(g, h, c.value, depth)
        case None => None
        case Some(h1) => ReleaseChildren(g, h1, cs[1..], depth)
  }

  /** An instance whose only field refers to itself. */
  function SelfLoop(): Graph {
    map[0 := InstanceObject([FieldSlot(SORT_ARRAY + 1, Some(0))])]
  }

  /**
   * Releasing the handle of a self-referencing object never finishes: the
   * object is its own `MARK_NONE` child, so every call stack overflows.
   */
  lemma {:induction false} ReleaseSelfLoopOverflows(h: Headers, depth: nat)
    requires 0 in h
    ensures ReleaseAsWritten(SelfLoop(), h, 0, depth).None?
    decreases depth
  {
    if depth > 0 {
      var h1 := h[0 := MARK_NONE];
      assert Children(SelfLoop(), 0) == [Some(0)];
      ReleaseSelfLoopOverflows(h1, depth - 1);
    }
  }

  /**
   * `ReleaseChildren` over children that are all null or marked (what
   * pinning leaves behind) writes nothing.
   */
  lemma {:induction false} ReleaseMarkedChildren(g: Graph, h: Headers, cs: seq<Option<Ref>>, depth: nat)
    requires forall i :: 0 <= i < |cs| && cs[i].Some? ==> cs[i].value in h && Marked(h[cs[i].value])
    ensures ReleaseChildren(g, h, cs, depth) == Some(h)
    decreases |cs|
  {
    if cs != [] {
      ReleaseMarkedChildren(g, h, cs[1..], depth);
    }
  }

  /**
   * When none of the object's children is unmarked once the object itself is
   * (in particular when it does not refer to itself), the source's release
   * does what `Deallocate` does: it writes `MARK_NONE` to that one header.
   */
  lemma ReleaseAgreesWhenChildrenMarked(g: Graph, h: Headers, x: Ref, depth: nat)
    requires depth > 0 && x !in Succ(g, x)
    requires forall c :: c in Succ(g, x) ==> c in h && Marked(h[c])
    ensures ReleaseAsWritten(g, h, x, depth) == Some(h[x := MARK_NONE])
  {
    ReleaseMarkedChildren(g, h[x := MARK_NONE], Children(g, x), depth - 1);
  }

  // ---------------------------------------------------------------------------
  // What the sweep computes
  // ---------------------------------------------------------------------------

  /** Every listed object has a header. */
  ghost predicate InHeaders(h: Headers, objs: seq<Option<Ref>>) {
    forall i :: 0 <= i < |objs| && objs[i].Some? ==> objs[i].value in h
  }

  /** No object is listed twice. */
  ghost predicate NoDup(objs: seq<Option<Ref>>) {
    forall i, j :: 0 <= i < j < |objs| && objs[i].Some? ==> objs[i] != objs[j]
  }

  /** The entries `removeIf` keeps, in order: the null entries and every object whose mark is not `MARK_NONE`. */
  ghost function Filter(h: Headers, objs: seq<Option<Ref>>): (kept: seq<Option<Ref>>)
    requires InHeaders(h, objs)
    ensures |kept| <= |objs|
  {
    if objs == [] then []
    else
      var x := objs[0];
      assert x in objs;
      if x.None? || h[x.value] != MARK_NONE then [x] + Filter(h, objs[1..]) else Filter(h, objs[1..])
  }

  /** The objects the sweep frees: the listed ones whose mark is `MARK_NONE`. */
  ghost function Freed(h: Headers, objs: seq<Option<Ref>>): (r: set<Ref>)
    requires InHeaders(h, objs)
    ensures r <= h.Keys
  {
    if objs == [] then {}
    else
      var x := objs[0];
      assert x in objs;
      if x.Some? && h[x.value] == MARK_NONE then {x.value} + Freed(h, objs[1..]) else Freed(h, objs[1..])
  }

  /** `Filter` keeps exactly the null entries and the listed objects that are not `MARK_NONE`. */
  lemma {:induction false} FilterMembers(h: Headers, objs: seq<Option<Ref>>)
    requires InHeaders(h, objs)
    ensures forall n :: Some(n) in Filter(h, objs) <==> Some(n) in objs && h[n] != MARK_NONE
    ensures None in Filter(h, objs) <==> None in objs
    decreases |objs|
  {
    if objs != [] {
      assert objs[0] in objs;
      assert forall y :: y in objs <==> y == objs[0] || y in objs[1..];
      FilterMembers(h, objs[1..]);
    }
  }

  /** `Freed` is exactly the listed objects whose mark is `MARK_NONE`. */
  lemma {:induction false} FreedMembers(h: Headers, objs: seq<Option<Ref>>)
    requires InHeaders(h, objs)
    ensures forall n :: n in Freed(h, objs) <==> Some(n) in objs && h[n] == MARK_NONE
    decreases |objs|
  {
    if objs != [] {
      assert objs[0] in objs;
      assert forall y :: y in objs <==> y == objs[0] || y in objs[1..];
      FreedMembers(h, objs[1..]);
    }
  }

  /** The headers after the sweep: every listed object that is not pinned is reset to `MARK_NONE`. */
  ghost function Reset(h: Headers, objs: seq<Option<Ref>>): (r: Headers)
    ensures r.Keys == h.Keys
  {
    map n | n in h :: if Some(n) in objs && h[n] != MARK_REF then MARK_NONE else h[n]
  }

  lemma {:induction false} FilterFreedAgree(h1: Headers, h2: Headers, objs: seq<Option<Ref>>)
    requires InHeaders(h1, objs) && InHeaders(h2, objs)
    requires forall n :: Some(n) in objs ==> h1[n] == h2[n]
    ensures Filter(h1, objs) == Filter(h2, objs) && Freed(h1, objs) == Freed(h2, objs)
    decreases |objs|
  {
    if objs != [] {
      assert objs[0] in objs;
      assert forall n :: Some(n) in objs[1..] ==> Some(n) in objs;
      FilterFreedAgree(h1, h2, objs[1..]);
    }
  }

  /** The rest of a list without duplicates has none either and does not list its first object again. */
  lemma TailFacts(objs: seq<Option<Ref>>)
    requires NoDup(objs) && objs != []
    ensures NoDup(objs[1..])
    ensures forall n :: Some(n) in objs <==> objs[0] == Some(n) || Some(n) in objs[1..]
    ensures objs[0].Some? ==> objs[0] !in objs[1..]
  {
    var tail := objs[1..];
    assert forall i :: 0 <= i < |tail| ==> tail[i] == objs[i + 1];
    assert objs == [objs[0]] + tail;
  }

  /** The header write of one sweep step, seen from the headers the rest of the sweep resets. */
  lemma ResetStep(h: Headers, objs: seq<Option<Ref>>)
    requires NoDup(objs) && objs != [] && InHeaders(h, objs)
    ensures objs[0].Some? ==> objs[0].value in h
    ensures var x := objs[0];
      var h1 := if x.Some? && h[x.value] != MARK_REF then h[x.value := MARK_NONE] else h;
      Reset(h1, objs[1..]) == Reset(h, objs)
  {
    TailFacts(objs);
    assert objs[0] in objs;
  }

  /** The first entry's share of `Filter` and `Freed`. */
  lemma FilterFreedUnfold(h: Headers, objs: seq<Option<Ref>>)
    requires InHeaders(h, objs) && objs != []
    ensures objs[0].Some? ==> objs[0].value in h
    ensures var x := objs[0];
      && Filter(h, objs) == (if x.None? || h[x.value] != MARK_NONE then [x] + Filter(h, objs[1..]) else Filter(h, objs[1..]))
      && Freed(h, objs) == (if x.Some? && h[x.value] == MARK_NONE then {x.value} + Freed(h, objs[1..]) else Freed(h, objs[1..]))
  {
    assert objs[0] in objs;
  }

  /** One step of the sweep over a list without duplicates: the headers and what is left to sweep. */
  lemma SweepStepHeaders(s: SweepState, objs: seq<Option<Ref>>)
    requires InHeaders(s.header, objs) && NoDup(objs) && objs != []
    ensures objs[0].Some? ==> objs[0].value in s.header
    ensures var s1 := SweepOne(s, objs[0]);
      && InHeaders(s1.header, objs[1..]) && NoDup(objs[1..])
      && Reset(s1.header, objs[1..]) == Reset(s.header, objs)
      && Filter(s1.header, objs[1..]) == Filter(s.header, objs[1..])
      && Freed(s1.header, objs[1..]) == Freed(s.header, objs[1..])
  {
    TailFacts(objs);
    ResetStep(s.header, objs);
    assert objs[0] in objs;
    var s1 := SweepOne(s, objs[0]);
    assert InHeaders(s1.header, objs[1..]);
    FilterFreedAgree(s1.header, s.header, objs[1..]);
  }

  /** The entries one step keeps, followed by what the rest keeps, are what the whole list keeps. */
  lemma KeptStep(s: SweepState, objs: seq<Option<Ref>>)
    requires InHeaders(s.header, objs) && objs != []
    ensures objs[0].Some? ==> objs[0].value in s.header
    ensures var s1 := SweepOne(s, objs[0]);
      s1.kept + Filter(s.header, objs[1..]) == s.kept + Filter(s.header, objs)
  {
    var x := objs[0];
    FilterFreedUnfold(s.header, objs);
    var keptTail := Filter(s.header, objs[1..]);
    if x.None? || s.header[x.value] != MARK_NONE {
      KeptOne(s, x, keptTail);
    } else {
      assert SweepOne(s, x).kept == s.kept;
    }
  }

  /** An entry the sweep keeps goes before what the rest keeps. */
  lemma KeptOne(s: SweepState, x: Option<Ref>, keptTail: seq<Option<Ref>>)
    requires x.Some? ==> x.value in s.header && s.header[x.value] != MARK_NONE
    ensures SweepOne(s, x).kept + keptTail == s.kept + ([x] + keptTail)
  {
    assert SweepOne(s, x).kept == s.kept + [x];
    assert s.kept + [x] + keptTail == s.kept + ([x] + keptTail);
  }

  /** One step of the sweep over a list without duplicates: the blocks freed and the entries kept. */
  lemma SweepStep(s: SweepState, objs: seq<Option<Ref>>)
    requires !s.panicked && InHeaders(s.header, objs) && NoDup(objs) && objs != []
    requires Freed(s.header, objs) <= s.liveBlocks
    ensures objs[0].Some? ==> objs[0].value in s.header
    ensures var s1 := SweepOne(s, objs[0]);
      && !s1.panicked && InHeaders(s1.header, objs[1..]) && NoDup(objs[1..])
      && Freed(s1.header, objs[1..]) <= s1.liveBlocks
      && Reset(s1.header, objs[1..]) == Reset(s.header, objs)
      && s1.liveBlocks - Freed(s1.header, objs[1..]) == s.liveBlocks - Freed(s.header, objs)
      && s1.kept + Filter(s1.header, objs[1..]) == s.kept + Filter(s.header, objs)
  {
    var h := s.header;
    var x := objs[0];
    SweepStepHeaders(s, objs);
    FilterFreedUnfold(h, objs);
    var s1 := SweepOne(s, x);
    KeptStep(s, objs);
    if x.Some? && h[x.value] == MARK_NONE {
      TailFacts(objs);
      FreedMembers(h, objs[1..]);
      assert x.value !in Freed(h, objs[1..]);
      assert s1.liveBlocks == s.liveBlocks - {x.value};
    }
  }

  /**
   * The sweep over a list without duplicates, when the allocator holds every
   * object it frees: no panic, the headers reset, exactly the `MARK_NONE`
   * objects freed and every other entry kept in order.
   */
  lemma {:induction false} SweepSpec(s: SweepState, objs: seq<Option<Ref>>)
    requires !s.panicked && InHeaders(s.header, objs) && NoDup(objs)
    requires Freed(s.header, objs) <= s.liveBlocks
    ensures forall i :: 0 <= i < |objs| && objs[i].Some? ==> objs[i].value in s.header
    ensures SweepFrom(s, objs)
      == SweepState(Reset(s.header, objs), s.liveBlocks - Freed(s.header, objs), s.kept + Filter(s.header, objs), false)
    decreases |objs|
  {
    assert forall i :: 0 <= i < |objs| && objs[i].Some? ==> objs[i] in objs;
    if objs == [] {
      assert Reset(s.header, objs) == s.header;
    } else {
      SweepStep(s, objs);
      SweepSpec(SweepOne(s, objs[0]), objs[1..]);
    }
  }

  /** A listed `MARK_NONE` object the allocator does not hold makes the sweep panic. */
  lemma {:induction false} SweepPanics(s: SweepState, objs: seq<Option<Ref>>, n: Ref)
    requires forall i :: 0 <= i < |objs| && objs[i].Some? ==> objs[i].value in s.header
    requires Some(n) in objs && s.header[n] == MARK_NONE && n !in s.liveBlocks
    ensures SweepFrom(s, objs).panicked
    decreases |objs|
  {
    if !s.panicked && objs[0] != Some(n) {
      assert Some(n) in objs[1..];
      SweepPanics(SweepOne(s, objs[0]), objs[1..], n);
    }
  }

  /** What marking leaves in a header: `MARK_NONE` only on unreached unmarked objects, `MARK_REF` only where it was. */
  lemma MarkedHeaders(g: Graph, h0: Headers, roots: set<Ref>, n: Ref)
    requires n in h0
    ensures var marked := Closure(g, h0, roots, MARK_SET);
      && n in marked
      && (marked[n] == MARK_NONE <==> h0[n] == MARK_NONE && !Reach(g, h0, roots, n))
      && (marked[n] == MARK_REF <==> h0[n] == MARK_REF)
  {
    if Reach(g, h0, roots, n) {
      var p :| IsPath(g, h0, p) && p[0] in roots && p[|p| - 1] == n;
      assert Unmarked(h0, p[|p| - 1]);
    }
  }

  /**
   * The outcome of a whole collection: after marking from the roots and
   * sweeping, a listed object is kept exactly when it was reachable from the
   * roots through unmarked objects or already carried a mark; exactly the
   * unreachable unmarked ones are freed; the pinned ones keep `MARK_REF` and
   * every other listed object is back to `MARK_NONE`.
   */
  lemma CollectionOutcome(g: Graph, h0: Headers, roots: set<Ref>, live: set<Ref>, objs: seq<Option<Ref>>)
    requires InHeaders(h0, objs) && NoDup(objs)
    requires forall n :: n in h0 && Some(n) in objs && h0[n] == MARK_NONE && !Reach(g, h0, roots, n) ==> n in live
    ensures var marked := Closure(g, h0, roots, MARK_SET);
      forall i :: 0 <= i < |objs| && objs[i].Some? ==> objs[i].value in marked
    ensures var marked := Closure(g, h0, roots, MARK_SET);
      var t := SweepFrom(SweepState(marked, live, [], false), objs);
      && !t.panicked
      && t.kept == Filter(marked, objs)
      && (forall n :: n in h0 && Some(n) in objs ==> (Some(n) in t.kept <==> Reach(g, h0, roots, n) || h0[n] != MARK_NONE))
      && t.liveBlocks == live - (set n | n in h0 && Some(n) in objs && h0[n] == MARK_NONE && !Reach(g, h0, roots, n))
      && (forall n :: n in h0 ==> t.header[n] == (if Some(n) in objs && h0[n] != MARK_REF then MARK_NONE else marked[n]))
  {
    var marked := Closure(g, h0, roots, MARK_SET);
    MarkedFreed(g, h0, roots, objs);
    SweepSpec(SweepState(marked, live, [], false), objs);
    MarkedKept(g, h0, roots, objs);
    MarkedReset(g, h0, roots, objs);
  }

  /** Marking classifies every header: `MARK_NONE` exactly on the unreached unmarked objects, `MARK_REF` exactly where it was. */
  lemma MarkedClassified(g: Graph, h0: Headers, roots: set<Ref>)
    ensures var marked := Closure(g, h0, roots, MARK_SET);
      forall n :: n in h0 ==>
        && (marked[n] == MARK_NONE <==> h0[n] == MARK_NONE && !Reach(g, h0, roots, n))
        && (marked[n] == MARK_REF <==> h0[n] == MARK_REF)
  {
    forall n | n in h0
      ensures var marked := Closure(g, h0, roots, MARK_SET);
        && (marked[n] == MARK_NONE <==> h0[n] == MARK_NONE && !Reach(g, h0, roots, n))
        && (marked[n] == MARK_REF <==> h0[n] == MARK_REF)
    {
      MarkedHeaders(g, h0, roots, n);
    }
  }

  /** After marking, the sweep frees exactly the listed unreached objects that were unmarked. */
  lemma MarkedFreed(g: Graph, h0: Headers, roots: set<Ref>, objs: seq<Option<Ref>>)
    requires InHeaders(h0, objs)
    ensures InHeaders(Closure(g, h0, roots, MARK_SET), objs)
    ensures Freed(Closure(g, h0, roots, MARK_SET), objs)
      == (set n | n in h0 && Some(n) in objs && h0[n] == MARK_NONE && !Reach(g, h0, roots, n))
  {
    var marked := Closure(g, h0, roots, MARK_SET);
    MarkedClassified(g, h0, roots);
    assert InHeaders(marked, objs);
    FreedMembers(marked, objs);
    forall n | n in Freed(marked, objs)
      ensures n in h0 && Some(n) in objs && h0[n] == MARK_NONE && !Reach(g, h0, roots, n)
    {
    }
  }

  /** After marking, the sweep keeps exactly the listed objects that were reached or already marked. */
  lemma MarkedKept(g: Graph, h0: Headers, roots: set<Ref>, objs: seq<Option<Ref>>)
    requires InHeaders(h0, objs)
    ensures InHeaders(Closure(g, h0, roots, MARK_SET), objs)
    ensures forall n :: n in h0 && Some(n) in objs ==>
      (Some(n) in Filter(Closure(g, h0, roots, MARK_SET), objs) <==> Reach(g, h0, roots, n) || h0[n] != MARK_NONE)
  {
    var marked := Closure(g, h0, roots, MARK_SET);
    MarkedClassified(g, h0, roots);
    assert InHeaders(marked, objs);
    FilterMembers(marked, objs);
  }

  /** After marking, the sweep leaves the pinned objects at `MARK_REF` and every other listed object at `MARK_NONE`. */
  lemma MarkedReset(g: Graph, h0: Headers, roots: set<Ref>, objs: seq<Option<Ref>>)
    ensures var marked := Closure(g, h0, roots, MARK_SET);
      forall n :: n in h0 ==> Reset(marked, objs)[n] == (if Some(n) in objs && h0[n] != MARK_REF then MARK_NONE else marked[n])
  {
    MarkedClassified(g, h0, roots);
  }

  /**
   * A child attached to an object after the object was pinned is not kept
   * alive by the pin: marking stops at the `MARK_REF` parent, so the sweep,
   * with no other roots, frees the child.
   */
  lemma PinnedChildFreed()
    ensures var g := map[0 := InstanceObject([FieldSlot(SORT_ARRAY + 1, Some(1))]), 1 := InstanceObject([])];
      var h := map[0 := MARK_REF, 1 := MARK_NONE];
      var t := SweepFrom(SweepState(Closure(g, h, {}, MARK_SET), {0, 1}, [], false), [Some(0), Some(1)]);
      && !t.panicked && t.kept == [Some(0)] && t.liveBlocks == {0}
      && t.header == map[0 := MARK_REF, 1 := MARK_NONE]
  {
    var g := map[0 := InstanceObject([FieldSlot(SORT_ARRAY + 1, Some(1))]), 1 := InstanceObject([])];
    var h := map[0 := MARK_REF, 1 := MARK_NONE];
    ClosureOfNothing(g, h, MARK_SET);
    var s1 := SweepOne(SweepState(h, {0, 1}, [], false), Some(0));
    assert s1 == SweepState(h, {0, 1}, [Some(0)], false);
    assert SweepOne(s1, Some(1)) == SweepState(h, {0}, [Some(0)], false);
  }
}
