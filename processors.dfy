/**
 * Instruction handlers of `dev.xdark.ssvm.execution.asm` that only shuffle
 * the operand stack: `laload`, `l2d` and `d2l` (section 6.5 of the JVMS).
 *
 * Each handler is a method on the interpreter's `Execution.Stack` and is
 * proved to agree with a function on `StackModel.Region` giving its stack
 * effect; the lemmas state that effect.  What the handlers compute on the
 * values themselves (the array load and the floating-point conversions) is
 * passed in as a function.
 */
module Processors {
  import opened Wrappers
  import opened Values
  import M = StackModel
  import opened Execution

  /** `LoadArrayLongProcessor.execute`: pop the index, pop the array, push the loaded element wide. */
  function LoadArrayLongEffect(r: M.Region, load: (Value, Value) -> Result<Value, Fault>): (s: M.Step<Flow>)
    requires M.IsValid(r)
    ensures s.result.Success? ==> s.result.value == Continue && M.IsValid(s.after)
  {
    var index :- M.Pop(r);
    var arrayRef :- M.Pop(index.after);
    match load(arrayRef.Value(), index.Value())
    case Failure(e) => M.Step(arrayRef.after, Failure(e))
    case Success(x) =>
      var p :- M.PushWide(arrayRef.after, Some(x));
      M.Step(p.after, Success(Continue))
  }

  /**
   * `laload` on the interpreter's stack.  `load(array, index)` stands for
   * `JitHelper.arrayLoadLong`, which reads the element out of the heap.
   */
  method LoadArrayLong(stack: Stack, load: (Value, Value) -> Result<Value, Fault>) returns (r: Result<Flow, Fault>)
    requires stack.Valid()
    modifies stack, stack.storage
    ensures M.Step(stack.State(), r) == LoadArrayLongEffect(old(stack.State()), load)
  {
    var index := stack.Pop();
    if index.Failure? {
      return Failure(index.error);
    }
    var arrayRef := stack.Pop();
    if arrayRef.Failure? {
      return Failure(arrayRef.error);
    }
    var x := load(arrayRef.value, index.value);
    if x.Failure? {
      return Failure(x.error);
    }
    var pushed := stack.PushWide(Some(x.value));
    if pushed.Failure? {
      return Failure(pushed.error);
    }
    return Success(Continue);
  }

  /** `LongToDoubleProcessor.execute`: `pushWide(new DoubleValue(popWide().asDouble()))`. */
  function LongToDoubleEffect(r: M.Region, asDouble: Value -> Result<bv64, Fault>): (s: M.Step<Flow>)
    requires M.IsValid(r)
    ensures s.result.Success? ==> s.result.value == Continue && M.IsValid(s.after)
  {
    var w :- M.PopWide(r);
    match asDouble(w.Value())
    case Failure(e) => M.Step(w.after, Failure(e))
    case Success(d) =>
      var p :- M.PushWide(w.after, Some(Double(d)));
      M.Step(p.after, Success(Continue))
  }

  /** `l2d` on the interpreter's stack; `asDouble` is the value's own conversion. */
  method LongToDouble(stack: Stack, asDouble: Value -> Result<bv64, Fault>) returns (r: Result<Flow, Fault>)
    requires stack.Valid()
    modifies stack, stack.storage
    ensures M.Step(stack.State(), r) == LongToDoubleEffect(old(stack.State()), asDouble)
  {
    var w := stack.PopWide();
    if w.Failure? {
      return Failure(w.error);
    }
    var d := asDouble(w.value);
    if d.Failure? {
      return Failure(d.error);
    }
    var pushed := stack.PushWide(Some(Double(d.value)));
    if pushed.Failure? {
      return Failure(pushed.error);
    }
    return Success(Continue);
  }

  /** `DoubleToLongProcessor.execute`: `pushWide(LongValue.of(popWide().asLong()))`. */
  function DoubleToLongEffect(r: M.Region, asLong: Value -> Result<Int64, Fault>): (s: M.Step<Flow>)
    requires M.IsValid(r)
    ensures s.result.Success? ==> s.result.value == Continue && M.IsValid(s.after)
  {
    var w :- M.PopWide(r);
    match asLong(w.Value())
    case Failure(e) => M.Step(w.after, Failure(e))
    case Success(x) =>
      var p :- M.PushWide(w.after, Some(Long(x)));
      M.Step(p.after, Success(Continue))
  }

  /** `d2l` on the interpreter's stack; `asLong` is the value's own conversion. */
  method DoubleToLong(stack: Stack, asLong: Value -> Result<Int64, Fault>) returns (r: Result<Flow, Fault>)
    requires stack.Valid()
    modifies stack, stack.storage
    ensures M.Step(stack.State(), r) == DoubleToLongEffect(old(stack.State()), asLong)
  {
    var w := stack.PopWide();
    if w.Failure? {
      return Failure(w.error);
    }
    var x := asLong(w.value);
    if x.Failure? {
      return Failure(x.error);
    }
    var pushed := stack.PushWide(Some(Long(x.value)));
    if pushed.Failure? {
      return Failure(pushed.error);
    }
    return Success(Continue);
  }

  // ---------------------------------------------------------------------------
  // Stack effects
  // ---------------------------------------------------------------------------

  /** Replacing the two top slots by a wide value and TOP: the contents and every other slot. */
  lemma ReplaceTopPair(r: M.Region, w: Value)
    requires M.IsValid(r) && r.cursor >= 2 && w.IsWide()
    ensures var below := M.Region(r.slots, r.cursor - 2); var p := M.PushWide(below, Some(w));
      && M.IsValid(below)
      && M.Contents(below) == M.Contents(r)[..r.cursor - 2]
      && p.result.Success?
      && p.after.cursor == r.cursor
      && |p.after.slots| == |r.slots|
      && M.Contents(p.after) == M.Contents(r)[..r.cursor - 2] + [w, Top]
      && forall i :: 0 <= i < |r.slots| && i != r.cursor - 2 && i != r.cursor - 1 ==> p.after.slots[i] == r.slots[i]
  {
    var below := M.Region(r.slots, r.cursor - 2);
    M.PushWideContents(below, w);
  }

  /**
   * `laload` with operands [.., array, index]: the load sees the array and
   * then the index, the loaded wide value replaces both operands, the
   * position is unchanged, nothing else in the region changes and the
   * handler continues.
   */
  lemma LoadArrayLongShape(r: M.Region, load: (Value, Value) -> Result<Value, Fault>, w: Value)
    requires M.IsValid(r) && r.cursor >= 2
    requires load(M.Contents(r)[r.cursor - 2], M.Contents(r)[r.cursor - 1]) == Success(w) && w.IsWide()
    ensures var s := LoadArrayLongEffect(r, load); var n := r.cursor;
      && s.result == Success(Continue)
      && s.after.cursor == n
      && M.Contents(s.after) == M.Contents(r)[..n - 2] + [w, Top]
      && s.after.slots[n - 2] == Some(w) && s.after.slots[n - 1] == Some(Top)
      && |s.after.slots| == |r.slots|
      && forall i :: 0 <= i < |r.slots| && i != n - 2 && i != n - 1 ==> s.after.slots[i] == r.slots[i]
  {
    M.PopContents(r);
    M.PopContents(M.Pop(r).after);
    ReplaceTopPair(r, w);
  }

  /** `laload` whose load raises: the exception propagates with both operands popped and nothing pushed. */
  lemma LoadArrayLongLoadFails(r: M.Region, load: (Value, Value) -> Result<Value, Fault>, e: Fault)
    requires M.IsValid(r) && r.cursor >= 2
    requires load(M.Contents(r)[r.cursor - 2], M.Contents(r)[r.cursor - 1]) == Failure(e)
    ensures LoadArrayLongEffect(r, load) == M.Step(M.Region(r.slots, r.cursor - 2), Failure(e))
  {
    M.PopContents(r);
    M.PopContents(M.Pop(r).after);
  }

  /**
   * `l2d` over [.., x, TOP]: the top slot is TOP again and the slot beneath it
   * holds the converted double, the position is unchanged, every other slot
   * is untouched and the handler continues.
   */
  lemma LongToDoubleShape(r: M.Region, asDouble: Value -> Result<bv64, Fault>, d: bv64)
    requires M.IsValid(r) && r.cursor >= 2 && M.Contents(r)[r.cursor - 1] == Top
    requires asDouble(M.Contents(r)[r.cursor - 2]) == Success(d)
    ensures var s := LongToDoubleEffect(r, asDouble); var n := r.cursor;
      && s.result == Success(Continue)
      && s.after.cursor == n
      && M.Contents(s.after) == M.Contents(r)[..n - 2] + [Double(d), Top]
      && s.after.slots[n - 2] == Some(Double(d)) && s.after.slots[n - 1] == Some(Top)
      && |s.after.slots| == |r.slots|
      && forall i :: 0 <= i < |r.slots| && i != n - 2 && i != n - 1 ==> s.after.slots[i] == r.slots[i]
  {
    M.PopGenericWide(r);
    ReplaceTopPair(r, Double(d));
  }

  /** `l2d` without TOP on top: `popWide` raises, after having popped that one slot. */
  lemma LongToDoubleNeedsTop(r: M.Region, asDouble: Value -> Result<bv64, Fault>)
    requires M.IsValid(r) && r.cursor >= 1 && M.Contents(r)[r.cursor - 1] != Top
    ensures LongToDoubleEffect(r, asDouble)
      == M.Step(M.Region(r.slots, r.cursor - 1), Failure(ExpectedTop(M.Contents(r)[r.cursor - 1])))
  {
  }

  /**
   * `d2l` over [.., x, TOP]: the top slot is TOP again and the slot beneath it
   * holds the converted long, the position is unchanged, every other slot is
   * untouched and the handler continues.
   */
  lemma DoubleToLongShape(r: M.Region, asLong: Value -> Result<Int64, Fault>, x: Int64)
    requires M.IsValid(r) && r.cursor >= 2 && M.Contents(r)[r.cursor - 1] == Top
    requires asLong(M.Contents(r)[r.cursor - 2]) == Success(x)
    ensures var s := DoubleToLongEffect(r, asLong); var n := r.cursor;
      && s.result == Success(Continue)
      && s.after.cursor == n
      && M.Contents(s.after) == M.Contents(r)[..n - 2] + [Long(x), Top]
      && s.after.slots[n - 2] == Some(Long(x)) && s.after.slots[n - 1] == Some(Top)
      && |s.after.slots| == |r.slots|
      && forall i :: 0 <= i < |r.slots| && i != n - 2 && i != n - 1 ==> s.after.slots[i] == r.slots[i]
  {
    M.PopGenericWide(r);
    ReplaceTopPair(r, Long(x));
  }

  /** `d2l` without TOP on top: `popWide` raises, after having popped that one slot. */
  lemma DoubleToLongNeedsTop(r: M.Region, asLong: Value -> Result<Int64, Fault>)
    requires M.IsValid(r) && r.cursor >= 1 && M.Contents(r)[r.cursor - 1] != Top
    ensures DoubleToLongEffect(r, asLong)
      == M.Step(M.Region(r.slots, r.cursor - 1), Failure(ExpectedTop(M.Contents(r)[r.cursor - 1])))
  {
  }
}
