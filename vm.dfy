/**
 * The method-invocation protocol of `VirtualMachine.execute`, the task-queue
 * drain and the class lookups, as a state machine over abstract
 * collaborators.  What the collaborators do (the invocation hooks, the
 * interceptor, the interpreter, the thread's monitor, class initialisation,
 * the guest `loadClass`) is given as data or as a function; what the machine
 * does with them is recorded, in order, in an event trace.
 */
module VM {
  import opened Wrappers
  import opened Values

  /** Access flags of `org.objectweb.asm.Opcodes`. */
  const ACC_STATIC: bv32 := 0x0008
  const ACC_SYNCHRONIZED: bv32 := 0x0020
  const ACC_NATIVE: bv32 := 0x0100
  const ACC_ABSTRACT: bv32 := 0x0400

  /** Internal names of the guest exception classes the machine throws. */
  const UNSATISFIED_LINK_ERROR := "java/lang/UnsatisfiedLinkError"
  const ABSTRACT_METHOD_ERROR := "java/lang/AbstractMethodError"
  const CLASS_NOT_FOUND_EXCEPTION := "java/lang/ClassNotFoundException"

  /**
   * What propagates out of the machine on the host side: a guest exception
   * (`VMException`, which carries an instance of a guest exception class), any
   * other host `Exception`, a host `Error` (a throwable that is not an
   * `Exception`), and the `IllegalStateException` the machine wraps a host
   * exception in.
   */
  datatype Throwable =
    | VMException(exceptionClass: string, message: string)
    | HostException(description: string)
    | HostError(description: string)
    | IllegalState(message: string, cause: Throwable)

  /** How a step completes: normally, or by throwing. */
  datatype Completion = Normal | Raise(thrown: Throwable)

  /** What a `MethodInvoker` does: return a `Result` or throw. */
  datatype Interception = Intercepted(flow: Flow) | InterceptorRaises(thrown: Throwable)

  /** What `execute` reads of a `JavaMethod`: its owner's internal name and oop, its name, descriptor and access flags. */
  datatype Method = Method(ownerName: string, ownerOop: Ref, name: string, desc: string, access: bv32)

  /** An `ExecutionContext`: its identity, its method and the object in local slot 0. */
  datatype Context = Context(id: nat, callee: Method, local0: Ref)

  /**
   * The collaborators `execute` calls, as what they will do: each pre- and
   * post-invocation hook, the interceptor registered for the method (if any),
   * the interpreter, and whether the current thread still holds the lock when
   * the method exits.
   */
  datatype Collaborators = Collaborators(
    preHooks: seq<Completion>,
    invoker: Option<Interception>,
    interpreter: Completion,
    postHooks: seq<Completion>,
    heldAtExit: bool)

  /** The calls `execute` makes on shared state and collaborators, in order. */
  datatype Event =
    | SetLineNumber(line: int)
    | PushFrame(context: nat)
    | IncreaseInvocation
    | MonitorEnter(lock: Ref)
    | Hook(pre: bool, index: nat)
    | Intercept
    | Interpret
    | Deallocate
    | MonitorExit(lock: Ref)
    | PopFrame
    | RunTask(task: nat)
    | Initialize(klass: nat)
    | LoadClass(loader: Ref, name: string, initialize: bool)

  /** A run of calls and how it completed. */
  datatype Phase = Phase(events: seq<Event>, completion: Completion)

  predicate HasFlag(access: bv32, flag: bv32) {
    access & flag != 0
  }

  /** The host-side message naming a method: owner internal name, `.`, name, descriptor. */
  function MethodName(m: Method): (s: string)
    ensures s == m.ownerName + "." + m.name + m.desc
    ensures |s| == |m.ownerName| + 1 + |m.name| + |m.desc|
  {
    m.ownerName + ['.'] + m.name + m.desc
  }

  /** The lock of a synchronized method: local 0 of an instance method, the owner's oop of a static one. */
  function LockOf(ctx: Context): (lock: Option<Ref>)
    ensures lock.Some? <==> HasFlag(ctx.callee.access, ACC_SYNCHRONIZED)
    ensures lock.Some? && !HasFlag(ctx.callee.access, ACC_STATIC) ==> lock.value == ctx.local0
    ensures lock.Some? && HasFlag(ctx.callee.access, ACC_STATIC) ==> lock.value == ctx.callee.ownerOop
  {
    if !HasFlag(ctx.callee.access, ACC_SYNCHRONIZED) then None
    else if !HasFlag(ctx.callee.access, ACC_STATIC) then Some(ctx.local0)
    else Some(ctx.callee.ownerOop)
  }

  /**
   * Running the hooks from `i` on, in order: each hook's call is recorded, and
   * the first hook that throws ends the run with its exception.
   */
  function RunHooks(hooks: seq<Completion>, pre: bool, i: nat): Phase
    requires i <= |hooks|
    decreases |hooks| - i
  {
    if i == |hooks| then Phase([], Normal)
    else if hooks[i].Raise? then Phase([Hook(pre, i)], hooks[i])
    else
      var rest := RunHooks(hooks, pre, i + 1);
      Phase([Hook(pre, i)] + rest.events, rest.completion)
  }

  /**
   * A run of hooks records only calls of those hooks, from `i` on; it throws
   * exactly when one of them throws, and when none does every hook was
   * called once.
   */
  lemma {:induction false} RunHooksShape(hooks: seq<Completion>, pre: bool, i: nat)
    requires i <= |hooks|
    ensures var p := RunHooks(hooks, pre, i);
      && (forall e :: e in p.events ==> e.Hook? && e.pre == pre && i <= e.index < |hooks|)
      && (p.completion.Raise? <==> exists j :: i <= j < |hooks| && hooks[j].Raise?)
      && (p.completion.Normal? ==> |p.events| == |hooks| - i)
    decreases |hooks| - i
  {
    if i < |hooks| && hooks[i].Normal? {
      RunHooksShape(hooks, pre, i + 1);
      var rest := RunHooks(hooks, pre, i + 1);
      if rest.completion.Raise? {
        var j :| i + 1 <= j < |hooks| && hooks[j].Raise?;
      }
    }
  }

  /** The calls of the first `k` hooks of a run, in order. */
  function HookCalls(pre: bool, k: nat): (r: seq<Event>)
    ensures |r| == k && forall j :: 0 <= j < k ==> r[j] == Hook(pre, j)
  {
    seq(k, (j: int) requires 0 <= j < k => Hook(pre, j))
  }

  /** Once the first `k` hooks returned, the run is their calls followed by the run from hook `k`. */
  lemma {:induction false} RunHooksAfter(hooks: seq<Completion>, pre: bool, k: nat)
    requires k <= |hooks| && forall j :: 0 <= j < k ==> hooks[j] == Normal
    ensures RunHooks(hooks, pre, 0).events == HookCalls(pre, k) + RunHooks(hooks, pre, k).events
    ensures RunHooks(hooks, pre, 0).completion == RunHooks(hooks, pre, k).completion
  {
    if k > 0 {
      RunHooksAfter(hooks, pre, k - 1);
      assert HookCalls(pre, k) == HookCalls(pre, k - 1) + [Hook(pre, k - 1)];
    }
  }

  /** The interpreter call, after the native and abstract checks. */
  function Checks(ctx: Context, env: Collaborators, events: seq<Event>): Phase {
    var m := ctx.callee;
    if HasFlag(m.access, ACC_NATIVE) then Phase(events, Raise(VMException(UNSATISFIED_LINK_ERROR, MethodName(m))))
    else if HasFlag(m.access, ACC_ABSTRACT) then Phase(events, Raise(VMException(ABSTRACT_METHOD_ERROR, MethodName(m))))
    else Phase(events + [Interpret], env.interpreter)
  }

  /** The `try` block of `execute`: pre-hooks, the interceptor, the native and abstract checks, the interpreter. */
  function Body(ctx: Context, useInvokers: bool, env: Collaborators): Phase {
    var pre := RunHooks(env.preHooks, true, 0);
    if pre.completion.Raise? then pre
    else if useInvokers && env.invoker.Some? then
      match env.invoker.value
      case Intercepted(Abort) => Phase(pre.events + [Intercept], Normal)
      case InterceptorRaises(t) => Phase(pre.events + [Intercept], Raise(t))
      case Intercepted(Continue) => Checks(ctx, env, pre.events + [Intercept])
    else Checks(ctx, env, pre.events)
  }

  /** The `catch` clauses: a `VMException` is rethrown, another `Exception` wrapped, anything else not caught. */
  function Translate(c: Completion, m: Method): Completion {
    match c
    case Normal => Normal
    case Raise(t) =>
      if t.VMException? || t.HostError? then c
      else Raise(IllegalState("Uncaught VM error at: " + MethodName(m), t))
  }

  /** The line-number reset of a native method, made first of all. */
  function LineReset(ctx: Context): seq<Event> {
    if HasFlag(ctx.callee.access, ACC_NATIVE) then [SetLineNumber(-2)] else []
  }

  /** The monitor enter of a synchronized method. */
  function Lock(ctx: Context): seq<Event> {
    if LockOf(ctx).Some? then [MonitorEnter(LockOf(ctx).value)] else []
  }

  /** The monitor exit of a synchronized method, made only when the thread still holds the lock. */
  function Unlock(ctx: Context, heldAtExit: bool): seq<Event> {
    if LockOf(ctx).Some? && heldAtExit then [MonitorExit(LockOf(ctx).value)] else []
  }

  /** The calls `execute` makes before its `try` block. */
  function Entry(ctx: Context): seq<Event> {
    LineReset(ctx) + [PushFrame(ctx.id), IncreaseInvocation] + Lock(ctx)
  }

  /**
   * The `finally` blocks: post-hooks, then the context's release, then the
   * monitor exit when there is a lock the thread still holds, then the
   * backtrace pop.  A post-hook that throws replaces how the body completed.
   */
  function Exit(ctx: Context, env: Collaborators, c: Completion): Phase {
    var post := RunHooks(env.postHooks, false, 0);
    Phase(post.events + [Deallocate] + Unlock(ctx, env.heldAtExit) + [PopFrame],
          if post.completion.Raise? then post.completion else c)
  }

  /** The whole of `execute`. */
  function Execute(ctx: Context, useInvokers: bool, env: Collaborators): Phase {
    var body := Body(ctx, useInvokers, env);
    var exit := Exit(ctx, env, Translate(body.completion, ctx.callee));
    Phase(Entry(ctx) + body.events + exit.events, exit.completion)
  }

  /** `drainTaskQueue` over the queue `q`: the tasks that were run, what is left, and how it ended. */
  datatype Drained = Drained(events: seq<Event>, remaining: seq<Task>, completion: Completion)

  /** A queued `Runnable`: its identity and what running it does. */
  datatype Task = Task(id: nat, outcome: Completion)

  /** Poll and run tasks until the queue is empty; a task that throws ends the drain. */
  function Drain(q: seq<Task>): (d: Drained)
    ensures |d.remaining| < |q| || q == []
    decreases |q|
  {
    if q == [] then Drained([], [], Normal)
    else if q[0].outcome.Raise? then Drained([RunTask(q[0].id)], q[1..], q[0].outcome)
    else
      var rest := Drain(q[1..]);
      Drained([RunTask(q[0].id)] + rest.events, rest.remaining, rest.completion)
  }

  /** `name.replace('/', '.')`. */
  function ReplaceSlashes(name: string): (r: string)
    ensures |r| == |name|
    ensures forall i :: 0 <= i < |name| ==> r[i] == if name[i] == '/' then '.' else name[i]
  {
    if name == [] then []
    else [if name[0] == '/' then '.' else name[0]] + ReplaceSlashes(name[1..])
  }

  /** The number of occurrences of an event in a trace. */
  function Count(s: seq<Event>, e: Event): nat {
    if s == [] then 0 else (if s[0] == e then 1 else 0) + Count(s[1..], e)
  }

  /** The machine's shared state: the current thread's backtrace and task queue, the class tables, and the trace of calls. */
  class VirtualMachine {
    /** The contexts on the current thread's backtrace, innermost last. */
    var backtrace: seq<nat>
    /** The current thread's task queue. */
    var tasks: seq<Task>
    /** The classes the boot class loader finds (`findBootClass`). */
    const bootClasses: map<string, nat>
    /** The `ClassLoaderData` of each registered class-loader object. */
    const loaderData: map<Ref, map<string, nat>>
    /** Every call made so far. */
    var trace: seq<Event>

    constructor(bootClasses: map<string, nat>, loaderData: map<Ref, map<string, nat>>)
      ensures this.bootClasses == bootClasses && this.loaderData == loaderData
      ensures backtrace == [] && tasks == [] && trace == []
    {
      this.bootClasses := bootClasses;
      this.loaderData := loaderData;
      backtrace := [];
      tasks := [];
      trace := [];
    }

    /** Run the invocation hooks in order until one throws. */
    method RunInvocationHooks(hooks: seq<Completion>, pre: bool) returns (c: Completion)
      modifies this`trace
      ensures trace == old(trace) + RunHooks(hooks, pre, 0).events
      ensures c == RunHooks(hooks, pre, 0).completion
      ensures backtrace == old(backtrace) && tasks == old(tasks)
    {
      var i := 0;
      while i < |hooks|
        invariant 0 <= i <= |hooks|
        invariant trace == old(trace) + HookCalls(pre, i)
        invariant forall j :: 0 <= j < i ==> hooks[j] == Normal
      {
        trace := trace + [Hook(pre, i)];
        assert HookCalls(pre, i + 1) == HookCalls(pre, i) + [Hook(pre, i)];
        if hooks[i].Raise? {
          RunHooksAfter(hooks, pre, i);
          return hooks[i];
        }
        i := i + 1;
      }
      RunHooksAfter(hooks, pre, i);
      return Normal;
    }

    /** The `try` block together with its `catch` clauses. */
    method RunBody(ctx: Context, useInvokers: bool, env: Collaborators) returns (c: Completion)
      modifies this
      ensures trace == old(trace) + Body(ctx, useInvokers, env).events
      ensures c == Translate(Body(ctx, useInvokers, env).completion, ctx.callee)
      ensures backtrace == old(backtrace) && tasks == old(tasks)
    {
      var m := ctx.callee;
      var pre := RunInvocationHooks(env.preHooks, true);
      if pre.Raise? {
        return Translate(pre, m);
      }
      if useInvokers && env.invoker.Some? {
        trace := trace + [Intercept];
        match env.invoker.value
        case Intercepted(flow) =>
          if flow == Abort {
            return Normal;
          }
        case InterceptorRaises(t) =>
          return Translate(Raise(t), m);
      }
      if HasFlag(m.access, ACC_NATIVE) {
        return Translate(Raise(VMException(UNSATISFIED_LINK_ERROR, MethodName(m))), m);
      }
      if HasFlag(m.access, ACC_ABSTRACT) {
        return Translate(Raise(VMException(ABSTRACT_METHOD_ERROR, MethodName(m))), m);
      }
      trace := trace + [Interpret];
      return Translate(env.interpreter, m);
    }

    /** What `execute` does before its `try` block: it returns the lock it entered, if any. */
    method Enter(ctx: Context) returns (lock: Option<Ref>)
      modifies this
      ensures lock == LockOf(ctx)
      ensures trace == old(trace) + Entry(ctx)
      ensures backtrace == old(backtrace) + [ctx.id] && tasks == old(tasks)
    {
      var m := ctx.callee;
      if HasFlag(m.access, ACC_NATIVE) {
        trace := trace + [SetLineNumber(-2)];
      }
      ghost var reset := trace;
      backtrace := backtrace + [ctx.id];
      trace := trace + [PushFrame(ctx.id)];
      trace := trace + [IncreaseInvocation];
      assert trace == reset + [PushFrame(ctx.id), IncreaseInvocation];
      lock := None;
      if HasFlag(m.access, ACC_SYNCHRONIZED) {
        if !HasFlag(m.access, ACC_STATIC) {
          lock := Some(ctx.local0);
        } else {
          lock := Some(m.ownerOop);
        }
        trace := trace + [MonitorEnter(lock.value)];
      }
    }

    /** The `finally` blocks of `execute`, after a body that completed as `body`. */
    method Leave(ctx: Context, env: Collaborators, lock: Option<Ref>, body: Completion) returns (c: Completion)
      requires lock == LockOf(ctx) && |backtrace| > 0
      modifies this
      ensures trace == old(trace) + Exit(ctx, env, body).events
      ensures c == Exit(ctx, env, body).completion
      ensures backtrace == old(backtrace)[..|old(backtrace)| - 1] && tasks == old(tasks)
    {
      var post := RunInvocationHooks(env.postHooks, false);
      trace := trace + [Deallocate];
      if lock.Some? && env.heldAtExit {
        trace := trace + [MonitorExit(lock.value)];
      }
      backtrace := backtrace[..|backtrace| - 1];
      trace := trace + [PopFrame];
      c := if post.Raise? then post else body;
    }

    /**
     * `execute(ctx, useInvokers)`: push the context's frame and count the
     * invocation, take the lock of a synchronized method, run the body, then
     * the exit sequence, and complete as `Execute` says.
     */
    method ExecuteContext(ctx: Context, useInvokers: bool, env: Collaborators) returns (c: Completion)
      modifies this
      ensures trace == old(trace) + Execute(ctx, useInvokers, env).events
      ensures c == Execute(ctx, useInvokers, env).completion
      ensures backtrace == old(backtrace) && tasks == old(tasks)
    {
      ghost var t0 := trace;
      var lock := Enter(ctx);
      ghost var t1 := trace;
      var body := RunBody(ctx, useInvokers, env);
      ghost var t2 := trace;
      c := Leave(ctx, env, lock, body);
      assert backtrace == (old(backtrace) + [ctx.id])[..|old(backtrace)|];
      assert trace == t0 + Entry(ctx) + Body(ctx, useInvokers, env).events + Exit(ctx, env, body).events;
    }

    /** `drainTaskQueue`: poll and run the current thread's tasks in queue order until the queue is empty or a task throws. */
    method DrainTaskQueue() returns (c: Completion)
      modifies this`tasks, this`trace
      ensures var d := Drain(old(tasks));
        trace == old(trace) + d.events && tasks == d.remaining && c == d.completion
      ensures backtrace == old(backtrace)
    {
      ghost var q := tasks;
      ghost var n := 0;
      while tasks != []
        invariant 0 <= n <= |q| && tasks == q[n..]
        invariant trace == old(trace) + Runs(q[..n])
        invariant forall i :: 0 <= i < n ==> q[i].outcome == Normal
        decreases |tasks|
      {
        DrainStep(q, n);
        var r := tasks[0];
        tasks := tasks[1..];
        trace := trace + [RunTask(r.id)];
        if r.outcome.Raise? {
          DrainStopsAtThrow(q, n);
          return r.outcome;
        }
        n := n + 1;
      }
      assert q[..n] == q;
      DrainAll(q);
      return Normal;
    }

    /** `findBootstrapClass(name, initialize)`: the boot class, initialised only when found and asked to. */
    method FindBootstrapClass(name: string, initialize: bool) returns (jc: Option<nat>)
      modifies this
      ensures jc == (if name in bootClasses then Some(bootClasses[name]) else None)
      ensures trace == old(trace) + (if jc.Some? && initialize then [Initialize(jc.value)] else [])
      ensures backtrace == old(backtrace) && tasks == old(tasks)
    {
      jc := if name in bootClasses then Some(bootClasses[name]) else None;
      if jc.Some? && initialize {
        trace := trace + [Initialize(jc.value)];
      }
    }

    /**
     * `findClass(loader, name, initialize)`.  The null loader searches the
     * boot classes and throws `ClassNotFoundException` with the dotted name
     * when the class is missing; any other loader consults its own
     * `ClassLoaderData` and, when the class is not there, calls the guest's
     * `loadClass(dottedName, initialize)`, given here as `loadClass`.
     * Every class-loader object is registered, which is what the source's
     * lookup of the loader's data relies on.
     */
    method FindClass(loader: Option<Ref>, name: string, initialize: bool,
                     loadClass: (Ref, string, bool) -> Result<nat, Throwable>) returns (r: Result<nat, Throwable>)
      requires loader.Some? ==> loader.value in loaderData
      modifies this
      ensures loader.None? && name in bootClasses ==>
        r == Success(bootClasses[name]) && trace == old(trace) + (if initialize then [Initialize(bootClasses[name])] else [])
      ensures loader.None? && name !in bootClasses ==>
        r == Failure(VMException(CLASS_NOT_FOUND_EXCEPTION, ReplaceSlashes(name))) && trace == old(trace)
      ensures loader.Some? && name in loaderData[loader.value] ==>
        var jc := loaderData[loader.value][name];
        r == Success(jc) && trace == old(trace) + (if initialize then [Initialize(jc)] else [])
      ensures loader.Some? && name !in loaderData[loader.value] ==>
        r == loadClass(loader.value, ReplaceSlashes(name), initialize)
        && trace == old(trace) + [LoadClass(loader.value, ReplaceSlashes(name), initialize)]
      ensures backtrace == old(backtrace) && tasks == old(tasks)
    {
      if loader.None? {
        var jc := FindBootstrapClass(name, initialize);
        if jc.None? {
          return Failure(VMException(CLASS_NOT_FOUND_EXCEPTION, ReplaceSlashes(name)));
        }
        return Success(jc.value);
      }
      var data := loaderData[loader.value];
      if name !in data {
        var dotted := ReplaceSlashes(name);
        trace := trace + [LoadClass(loader.value, dotted, initialize)];
        return loadClass(loader.value, dotted, initialize);
      }
      var jc := data[name];
      if initialize {
        trace := trace + [Initialize(jc)];
      }
      return Success(jc);
    }
  }

  // ---------------------------------------------------------------------------
  // Properties of the invocation protocol
  // ---------------------------------------------------------------------------

  lemma {:induction false} CountAppend(a: seq<Event>, b: seq<Event>, e: Event)
    ensures Count(a + b, e) == Count(a, e) + Count(b, e)
    decreases |a|
  {
    if a == [] {
      assert a + b == b;
    } else {
      assert (a + b)[0] == a[0];
      assert (a + b)[1..] == a[1..] + b;
      CountAppend(a[1..], b, e);
    }
  }

  lemma {:induction false} CountAbsent(s: seq<Event>, e: Event)
    requires e !in s
    ensures Count(s, e) == 0
    decreases |s|
  {
    if s != [] {
      assert forall x :: x in s[1..] ==> x in s;
      CountAbsent(s[1..], e);
    }
  }

  /** An event that occurs once, between two runs that do not hold it, is counted once. */
  lemma CountOnce(a: seq<Event>, e: Event, b: seq<Event>)
    requires e !in a && e !in b
    ensures Count(a + [e] + b, e) == 1
  {
    CountAbsent(a, e);
    CountAbsent(b, e);
    CountAppend(a, [e], e);
    CountAppend(a + [e], b, e);
  }

  /** What the body records besides hook calls: at most the interceptor call and the interpreter call. */
  lemma BodyEvents(ctx: Context, useInvokers: bool, env: Collaborators)
    ensures forall e :: e in Body(ctx, useInvokers, env).events ==> (e.Hook? && e.pre) || e == Intercept || e == Interpret
  {
    RunHooksShape(env.preHooks, true, 0);
  }

  /** The exit sequence records hook calls, its release, its monitor exit and its pop. */
  lemma ExitEvents(ctx: Context, env: Collaborators, c: Completion)
    ensures forall e :: e in Exit(ctx, env, c).events ==>
      (e.Hook? && !e.pre) || e == Deallocate || e.MonitorExit? || e == PopFrame
  {
    RunHooksShape(env.postHooks, false, 0);
  }

  /**
   * Every execution pushes the context's frame once, counts the invocation
   * exactly once, and ends by popping the frame; a native method has its line
   * number set to -2 before anything else.
   */
  lemma InvocationCountedOnce(ctx: Context, useInvokers: bool, env: Collaborators)
    ensures var events := Execute(ctx, useInvokers, env).events;
      && Count(events, IncreaseInvocation) == 1
      && Count(events, PushFrame(ctx.id)) == 1
      && events[|events| - 1] == PopFrame
      && (HasFlag(ctx.callee.access, ACC_NATIVE) ==> events[0] == SetLineNumber(-2) && events[1] == PushFrame(ctx.id))
      && (!HasFlag(ctx.callee.access, ACC_NATIVE) ==> events[0] == PushFrame(ctx.id))
  {
    var body := Body(ctx, useInvokers, env);
    var exit := Exit(ctx, env, Translate(body.completion, ctx.callee));
    BodyEvents(ctx, useInvokers, env);
    ExitEvents(ctx, env, Translate(body.completion, ctx.callee));
    EntryCounts(ctx, body.events + exit.events);
    assert Entry(ctx) + body.events + exit.events == Entry(ctx) + (body.events + exit.events);
  }

  /** The counts of the entry calls, whatever follows them. */
  lemma EntryCounts(ctx: Context, rest: seq<Event>)
    requires forall e :: e in rest ==> e.Hook? || e == Intercept || e == Interpret || e == Deallocate || e.MonitorExit? || e == PopFrame
    requires |rest| > 0 && rest[|rest| - 1] == PopFrame
    ensures var events := Entry(ctx) + rest;
      && Count(events, IncreaseInvocation) == 1
      && Count(events, PushFrame(ctx.id)) == 1
      && events[|events| - 1] == PopFrame
      && (HasFlag(ctx.callee.access, ACC_NATIVE) ==> events[0] == SetLineNumber(-2) && events[1] == PushFrame(ctx.id))
      && (!HasFlag(ctx.callee.access, ACC_NATIVE) ==> events[0] == PushFrame(ctx.id))
  {
    var reset := LineReset(ctx);
    var lock := Lock(ctx);
    assert forall e :: e in reset ==> e.SetLineNumber?;
    assert forall e :: e in lock ==> e.MonitorEnter?;
    assert Entry(ctx) + rest == reset + [PushFrame(ctx.id), IncreaseInvocation] + (lock + rest);
    PrefixCounts(reset, ctx.id, lock + rest);
  }

  /** The frame push and the invocation count occur once each when nothing around them repeats them. */
  lemma PrefixCounts(reset: seq<Event>, id: nat, tail: seq<Event>)
    requires forall e :: e in reset ==> e.SetLineNumber?
    requires forall e :: e in tail ==> !e.PushFrame? && e != IncreaseInvocation
    ensures var events := reset + [PushFrame(id), IncreaseInvocation] + tail;
      Count(events, IncreaseInvocation) == 1 && Count(events, PushFrame(id)) == 1
  {
    assert reset + [PushFrame(id), IncreaseInvocation] + tail == reset + [PushFrame(id)] + ([IncreaseInvocation] + tail);
    assert reset + [PushFrame(id), IncreaseInvocation] + tail == (reset + [PushFrame(id)]) + [IncreaseInvocation] + tail;
    CountOnce(reset, PushFrame(id), [IncreaseInvocation] + tail);
    CountOnce(reset + [PushFrame(id)], IncreaseInvocation, tail);
  }

  /**
   * A synchronized method enters the monitor of its lock (local 0 of an
   * instance method, the owner's oop of a static one) right after counting
   * the invocation, before any pre-invocation hook runs.
   */
  lemma LockEnteredBeforeHooks(ctx: Context, useInvokers: bool, env: Collaborators)
    requires HasFlag(ctx.callee.access, ACC_SYNCHRONIZED)
    ensures var events := Execute(ctx, useInvokers, env).events;
      var lock := if HasFlag(ctx.callee.access, ACC_STATIC) then ctx.callee.ownerOop else ctx.local0;
      var k := |Entry(ctx)| - 1;
      && events[k - 1] == IncreaseInvocation
      && events[k] == MonitorEnter(lock)
      && forall j :: 0 <= j < |events| && events[j].Hook? && events[j].pre ==> k < j
  {
    var events := Execute(ctx, useInvokers, env).events;
    var entry := Entry(ctx);
    var body := Body(ctx, useInvokers, env);
    var exit := Exit(ctx, env, Translate(body.completion, ctx.callee));
    assert events == entry + (body.events + exit.events);
    ExitEvents(ctx, env, Translate(body.completion, ctx.callee));
    forall j | 0 <= j < |entry| ensures !(events[j].Hook? && events[j].pre) {
      assert events[j] == entry[j];
    }
  }

  /**
   * An interceptor that returns `ABORT` (after the pre-hooks all returned)
   * skips the native and abstract checks and the interpreter: the execution
   * completes as its post-hooks do.
   */
  lemma AbortSkipsInterpreter(ctx: Context, env: Collaborators)
    requires forall j :: 0 <= j < |env.preHooks| ==> env.preHooks[j] == Normal
    requires env.invoker == Some(Intercepted(Abort))
    ensures var p := Execute(ctx, true, env);
      && Interpret !in p.events
      && p.completion == RunHooks(env.postHooks, false, 0).completion
  {
    var body := Body(ctx, true, env);
    var exit := Exit(ctx, env, Translate(body.completion, ctx.callee));
    RunHooksShape(env.preHooks, true, 0);
    ExitEvents(ctx, env, Translate(body.completion, ctx.callee));
    assert Interpret !in Entry(ctx);
  }

  /**
   * A native method that is not intercepted (no interceptor, `useInvokers`
   * off, or an interceptor that returns `CONTINUE`) throws
   * `UnsatisfiedLinkError` naming the method, unless a post-hook throws
   * instead; the interpreter does not run.
   */
  lemma NativeRaisesLinkError(ctx: Context, useInvokers: bool, env: Collaborators)
    requires HasFlag(ctx.callee.access, ACC_NATIVE)
    requires forall j :: 0 <= j < |env.preHooks| ==> env.preHooks[j] == Normal
    requires !useInvokers || env.invoker.None? || env.invoker == Some(Intercepted(Continue))
    ensures var p := Execute(ctx, useInvokers, env); var post := RunHooks(env.postHooks, false, 0);
      && Interpret !in p.events
      && p.completion == if post.completion.Raise? then post.completion
                         else Raise(VMException(UNSATISFIED_LINK_ERROR, MethodName(ctx.callee)))
  {
    var body := Body(ctx, useInvokers, env);
    BodyEvents(ctx, useInvokers, env);
    var exit := Exit(ctx, env, Translate(body.completion, ctx.callee));
    RunHooksShape(env.preHooks, true, 0);
    ExitEvents(ctx, env, Translate(body.completion, ctx.callee));
    assert Interpret !in Entry(ctx);
  }

  /**
   * An abstract method that is not native and not intercepted throws
   * `AbstractMethodError` naming the method, unless a post-hook throws
   * instead; the interpreter does not run.
   */
  lemma AbstractRaisesMethodError(ctx: Context, useInvokers: bool, env: Collaborators)
    requires HasFlag(ctx.callee.access, ACC_ABSTRACT) && !HasFlag(ctx.callee.access, ACC_NATIVE)
    requires forall j :: 0 <= j < |env.preHooks| ==> env.preHooks[j] == Normal
    requires !useInvokers || env.invoker.None? || env.invoker == Some(Intercepted(Continue))
    ensures var p := Execute(ctx, useInvokers, env); var post := RunHooks(env.postHooks, false, 0);
      && Interpret !in p.events
      && p.completion == if post.completion.Raise? then post.completion
                         else Raise(VMException(ABSTRACT_METHOD_ERROR, MethodName(ctx.callee)))
  {
    var body := Body(ctx, useInvokers, env);
    var exit := Exit(ctx, env, Translate(body.completion, ctx.callee));
    RunHooksShape(env.preHooks, true, 0);
    ExitEvents(ctx, env, Translate(body.completion, ctx.callee));
    assert Interpret !in Entry(ctx);
  }

  /**
   * What the interpreter throws, once the post-hooks returned: a guest
   * exception and a host error propagate unchanged, any other host exception
   * comes out wrapped in an `IllegalStateException` naming the method.
   */
  lemma ExceptionTranslation(ctx: Context, useInvokers: bool, env: Collaborators, t: Throwable)
    requires !HasFlag(ctx.callee.access, ACC_NATIVE) && !HasFlag(ctx.callee.access, ACC_ABSTRACT)
    requires forall j :: 0 <= j < |env.preHooks| ==> env.preHooks[j] == Normal
    requires forall j :: 0 <= j < |env.postHooks| ==> env.postHooks[j] == Normal
    requires !useInvokers || env.invoker.None? || env.invoker == Some(Intercepted(Continue))
    requires env.interpreter == Raise(t)
    ensures var p := Execute(ctx, useInvokers, env);
      && Interpret in p.events
      && (t.VMException? || t.HostError? ==> p.completion == Raise(t))
      && (t.HostException? || t.IllegalState? ==>
            p.completion == Raise(IllegalState("Uncaught VM error at: " + MethodName(ctx.callee), t)))
  {
    var body := Body(ctx, useInvokers, env);
    RunHooksShape(env.preHooks, true, 0);
    RunHooksShape(env.postHooks, false, 0);
    assert Interpret in body.events;
  }

  /**
   * On every path the exit sequence is the same: the post-hooks, then exactly
   * one release of the context, then the monitor exit when the method has a
   * lock the thread still holds, then the backtrace pop, which is last.
   */
  lemma ExitSequence(ctx: Context, useInvokers: bool, env: Collaborators)
    ensures var events := Execute(ctx, useInvokers, env).events;
      var unlock := Unlock(ctx, env.heldAtExit);
      var k := |events| - 2 - |unlock|;
      && 0 <= k
      && events[k] == Deallocate
      && events[k + 1..] == unlock + [PopFrame]
      && Count(events, Deallocate) == 1
      && forall j :: 0 <= j < |events| && events[j].Hook? && !events[j].pre ==> j < k
  {
    var body := Body(ctx, useInvokers, env);
    BodyEvents(ctx, useInvokers, env);
    ExitAfter(ctx, env, body.events, Translate(body.completion, ctx.callee));
  }

  /** The exit sequence after entry calls and a body that makes no release of its own. */
  lemma ExitAfter(ctx: Context, env: Collaborators, body: seq<Event>, c: Completion)
    requires Deallocate !in body
    ensures var events := Entry(ctx) + body + Exit(ctx, env, c).events;
      var unlock := Unlock(ctx, env.heldAtExit);
      var k := |events| - 2 - |unlock|;
      && 0 <= k
      && events[k] == Deallocate
      && events[k + 1..] == unlock + [PopFrame]
      && Count(events, Deallocate) == 1
      && forall j :: 0 <= j < |events| && events[j].Hook? && !events[j].pre ==> j < k
  {
    var post := RunHooks(env.postHooks, false, 0).events;
    var unlock := Unlock(ctx, env.heldAtExit);
    ExitForm(ctx, env, c);
    NoReleaseBefore(ctx, env, body);
    var before := Entry(ctx) + body + post;
    assert Entry(ctx) + body + Exit(ctx, env, c).events == before + [Deallocate] + (unlock + [PopFrame]);
    ExitShape(before, unlock);
  }

  /** Neither the entry calls nor the post-hooks release the frame. */
  lemma NoReleaseBefore(ctx: Context, env: Collaborators, body: seq<Event>)
    requires Deallocate !in body
    ensures Deallocate !in Entry(ctx) + body + RunHooks(env.postHooks, false, 0).events
  {
    EntryForm(ctx);
    RunHooksShape(env.postHooks, false, 0);
  }

  /** The calls of the entry sequence. */
  lemma EntryForm(ctx: Context)
    ensures forall e :: e in Entry(ctx) ==> e.SetLineNumber? || e.PushFrame? || e == IncreaseInvocation || e.MonitorEnter?
  {
  }

  /** The calls of the exit sequence, grouped as the post-hooks, the release, and the unlock and pop after it. */
  lemma ExitForm(ctx: Context, env: Collaborators, c: Completion)
    ensures Exit(ctx, env, c).events == RunHooks(env.postHooks, false, 0).events + [Deallocate] + (Unlock(ctx, env.heldAtExit) + [PopFrame])
    ensures forall e :: e in Unlock(ctx, env.heldAtExit) ==> e.MonitorExit?
  {
  }

  /** A trace made of a run without releases, a release, and the unlock and pop after it. */
  lemma ExitShape(before: seq<Event>, unlock: seq<Event>)
    requires Deallocate !in before && forall e :: e in unlock ==> e.MonitorExit?
    ensures var events := before + [Deallocate] + (unlock + [PopFrame]);
      var k := |events| - 2 - |unlock|;
      && 0 <= k
      && events[k] == Deallocate
      && events[k + 1..] == unlock + [PopFrame]
      && Count(events, Deallocate) == 1
      && forall j :: k < j < |events| ==> !events[j].Hook?
  {
    var after := unlock + [PopFrame];
    var events := before + [Deallocate] + after;
    ExitTail(events, before, after);
    CountOnce(before, Deallocate, after);
  }

  lemma ExitTail(events: seq<Event>, before: seq<Event>, after: seq<Event>)
    requires events == before + [Deallocate] + after
    ensures events[|before|] == Deallocate && events[|before| + 1..] == after
    ensures forall j :: |before| < j < |events| ==> events[j] in after
  {
    forall j | |before| < j < |events| ensures events[j] in after {
      assert events[j] == after[j - |before| - 1];
    }
  }

  /** A post-hook that throws decides how the execution ends, whatever the body did. */
  lemma PostHookExceptionWins(ctx: Context, useInvokers: bool, env: Collaborators, j: nat)
    requires j < |env.postHooks| && env.postHooks[j].Raise?
    requires forall i :: 0 <= i < j ==> env.postHooks[i] == Normal
    ensures Execute(ctx, useInvokers, env).completion == env.postHooks[j]
  {
    PostHooksUpTo(env.postHooks, 0, j);
  }

  lemma {:induction false} PostHooksUpTo(hooks: seq<Completion>, i: nat, j: nat)
    requires i <= j < |hooks| && hooks[j].Raise?
    requires forall k :: i <= k < j ==> hooks[k] == Normal
    ensures RunHooks(hooks, false, i).completion == hooks[j]
    decreases j - i
  {
    if i < j {
      PostHooksUpTo(hooks, i + 1, j);
    }
  }

  // ---------------------------------------------------------------------------
  // Properties of the task queue and of class lookup
  // ---------------------------------------------------------------------------

  /** The run events of a sequence of tasks, in order. */
  function Runs(q: seq<Task>): (r: seq<Event>)
    ensures |r| == |q| && forall i :: 0 <= i < |q| ==> r[i] == RunTask(q[i].id)
  {
    if q == [] then [] else [RunTask(q[0].id)] + Runs(q[1..])
  }

  /** When no task throws, the drain runs every task in queue order and empties the queue. */
  lemma {:induction false} DrainAll(q: seq<Task>)
    requires forall i :: 0 <= i < |q| ==> q[i].outcome == Normal
    ensures Drain(q) == Drained(Runs(q), [], Normal)
    decreases |q|
  {
    if q != [] {
      DrainAll(q[1..]);
    }
  }

  /** Polling the head of the queue's suffix from `n` on runs task `n` after those before it. */
  lemma DrainStep(q: seq<Task>, n: nat)
    requires n < |q|
    ensures q[n..][0] == q[n] && q[n..][1..] == q[n + 1..]
    ensures Runs(q[..n + 1]) == Runs(q[..n]) + [RunTask(q[n].id)]
  {
    assert q[..n + 1][..n] == q[..n];
  }

  /** The first task that throws ends the drain: the tasks up to it ran in order, the rest stay queued. */
  lemma {:induction false} DrainStopsAtThrow(q: seq<Task>, k: nat)
    requires k < |q| && q[k].outcome.Raise?
    requires forall i :: 0 <= i < k ==> q[i].outcome == Normal
    ensures Drain(q) == Drained(Runs(q[..k + 1]), q[k + 1..], q[k].outcome)
    decreases k
  {
    if k > 0 {
      DrainStopsAtThrow(q[1..], k - 1);
      assert q[1..][..k] == q[..k + 1][1..];
      assert q[1..][k..] == q[k + 1..];
    }
  }

  /** The dotted name holds no `/`, and dotting it again changes nothing. */
  lemma ReplaceSlashesDotted(name: string)
    ensures '/' !in ReplaceSlashes(name)
    ensures ReplaceSlashes(ReplaceSlashes(name)) == ReplaceSlashes(name)
    ensures forall i :: 0 <= i < |name| && name[i] != '/' ==> ReplaceSlashes(name)[i] == name[i]
  {
    var r := ReplaceSlashes(name);
    assert forall i :: 0 <= i < |r| ==> r[i] != '/';
  }
}
