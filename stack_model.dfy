/**
 * The interpreter's operand stack (`dev.xdark.ssvm.execution.Stack`) as values.
 *
 * The stack is a region of `maxSize` slots plus a cursor.  This module
 * describes every operation as a function on the pair (slots, cursor),
 * including the exact state an operation leaves behind when it raises, and
 * proves the stack shapes the JVMS prescribes for them.  The class
 * `Execution.Stack` implements the same operations in place on an array and
 * is proved to agree with these functions.
 */
module StackModel {
  import opened Wrappers
  import opened Values

  /** The storage region of a stack: its slots (`None` is a never-written slot) and the cursor. */
  datatype Region = Region(slots: seq<Option<Value>>, cursor: int)

  /**
   * The state after an operation together with what it returned or raised.
   * A `Step` is failure-compatible, so a sequence of stack operations reads
   * like the Java code that performs them one after the other.
   */
  datatype Step<+T> = Step(after: Region, result: Result<T, Fault>) {
    predicate IsFailure() { result.Failure? }

    function PropagateFailure<U>(): Step<U>
      requires IsFailure()
    {
      Step(after, Failure(result.error))
    }

    function Extract(): Step<T>
      requires !IsFailure()
    {
      this
    }

    function Value(): T
      requires result.Success?
    {
      result.value
    }
  }

  /** The object invariant of a stack: the cursor lies within the region and every slot below it is written. */
  ghost predicate IsValid(r: Region) {
    0 <= r.cursor <= |r.slots| && forall i :: 0 <= i < r.cursor ==> r.slots[i].Some?
  }

  /** The values on the stack, bottom first. */
  function Contents(r: Region): (s: seq<Value>)
    requires IsValid(r)
    ensures |s| == r.cursor
    ensures forall i :: 0 <= i < r.cursor ==> r.slots[i] == Some(s[i])
  {
    seq(r.cursor, (i: int) requires 0 <= i < r.cursor && IsValid(r) => r.slots[i].value)
  }

  /** A value that `push` accepts: neither void nor wide. */
  predicate Narrow(v: Value) { !v.IsVoid() && !v.IsWide() }

  /** `checkValue`: null raises `NullPointerException`, a void value `IllegalStateException`. */
  function CheckValue(v: Option<Value>): (f: Option<Fault>)
    ensures v.None? ==> f == Some(NullPointer)
    ensures v.Some? && v.value.IsVoid() ==> f == Some(VoidPushed)
    ensures f.None? <==> v.Some? && !v.value.IsVoid()
  {
    match v
    case None => Some(NullPointer)
    case Some(x) => if x.IsVoid() then Some(VoidPushed) else None
  }

  /** `push`: check the value, refuse a wide one, then `stack.set(cursor++, value)`. */
  function Push(r: Region, v: Option<Value>): (s: Step<()>)
    requires IsValid(r)
    ensures s.result.Success? ==> IsValid(s.after)
    ensures v.None? ==> s == Step(r, Failure(NullPointer))
    ensures v == Some(Void) ==> s == Step(r, Failure(VoidPushed))
    ensures v.Some? && v.value.IsWide() ==> s == Step(r, Failure(MustUsePushWide))
    ensures s.result.Success? <==> v.Some? && Narrow(v.value) && r.cursor < |r.slots|
  {
    match CheckValue(v)
    case Some(f) => Step(r, Failure(f))
    case None =>
      if v.value.IsWide() then Step(r, Failure(MustUsePushWide))
      else if r.cursor < |r.slots| then Step(Region(r.slots[r.cursor := v], r.cursor + 1), Success(()))
      else Step(Region(r.slots, r.cursor + 1), Failure(IndexOutOfBounds(r.cursor)))
  }

  /**
   * `pushWide`: check the value, refuse a narrow one, write the value and then
   * TOP; the cursor field is only updated once both writes succeeded.
   */
  function PushWide(r: Region, v: Option<Value>): (s: Step<()>)
    requires IsValid(r)
    ensures s.result.Success? ==> IsValid(s.after)
    ensures v.None? ==> s == Step(r, Failure(NullPointer))
    ensures v == Some(Void) ==> s == Step(r, Failure(VoidPushed))
    ensures v.Some? && Narrow(v.value) ==> s == Step(r, Failure(MustUsePush))
    ensures s.result.Success? <==> v.Some? && v.value.IsWide() && r.cursor + 2 <= |r.slots|
  {
    match CheckValue(v)
    case Some(f) => Step(r, Failure(f))
    case None =>
      if !v.value.IsWide() then Step(r, Failure(MustUsePush))
      else if r.cursor >= |r.slots| then Step(r, Failure(IndexOutOfBounds(r.cursor)))
      else if r.cursor + 1 >= |r.slots| then
        Step(Region(r.slots[r.cursor := v], r.cursor), Failure(IndexOutOfBounds(r.cursor + 1)))
      else Step(Region(r.slots[r.cursor := v][r.cursor + 1 := Some(Top)], r.cursor + 2), Success(()))
  }

  /** `pushGeneric`: dispatch on `isWide()`, which dereferences the value first. */
  function PushGeneric(r: Region, v: Option<Value>): (s: Step<()>)
    requires IsValid(r)
    ensures s.result.Success? ==> IsValid(s.after)
  {
    match v
    case None => Step(r, Failure(NullPointer))
    case Some(x) => if x.IsWide() then PushWide(r, v) else Push(r, v)
  }

  /** `pop`: `stack.get(--cursor)`; the cursor is decremented before the read can fail. */
  function Pop(r: Region): (s: Step<Value>)
    requires IsValid(r)
    ensures s.result.Success? ==> IsValid(s.after)
  {
    if r.cursor == 0 then Step(Region(r.slots, -1), Failure(IndexOutOfBounds(-1)))
    else Step(Region(r.slots, r.cursor - 1), Success(r.slots[r.cursor - 1].value))
  }

  /** `popWide`: pop TOP (raising if the slot holds anything else), then pop the value. */
  function PopWide(r: Region): (s: Step<Value>)
    requires IsValid(r)
    ensures s.result.Success? ==> IsValid(s.after)
    ensures 0 < r.cursor && r.slots[r.cursor - 1] != Some(Top) ==>
      s == Step(Region(r.slots, r.cursor - 1), Failure(ExpectedTop(r.slots[r.cursor - 1].value)))
  {
    var top :- Pop(r);
    if top.Value() != Top then Step(top.after, Failure(ExpectedTop(top.Value())))
    else Pop(top.after)
  }

  /** `popGeneric`: pop; when that was TOP, pop once more. */
  function PopGeneric(r: Region): (s: Step<Value>)
    requires IsValid(r)
    ensures s.result.Success? ==> IsValid(s.after)
  {
    var top :- Pop(r);
    if top.Value() == Top then Pop(top.after) else top
  }

  /** `peek`: `stack.get(cursor - 1)`, the cursor is left alone. */
  function Peek(r: Region): (s: Step<Value>)
    requires IsValid(r)
    ensures s.after == r
  {
    if r.cursor == 0 then Step(r, Failure(IndexOutOfBounds(-1)))
    else Step(r, Success(r.slots[r.cursor - 1].value))
  }

  /** `poll`: `null` on an empty stack, otherwise `stack.get(--cursor)`. */
  function Poll(r: Region): (s: Step<Option<Value>>)
    requires IsValid(r)
    ensures s.result.Success? && IsValid(s.after)
    ensures r.cursor == 0 ==> s == Step(r, Success(None))
    ensures r.cursor > 0 ==> s.after == Pop(r).after && s.result == Success(Some(Pop(r).Value()))
  {
    if r.cursor == 0 then Step(r, Success(None))
    else Step(Region(r.slots, r.cursor - 1), Success(Some(r.slots[r.cursor - 1].value)))
  }

  /**
   * `dup`: `stack.set(this.cursor++, stack.get(cursor - 1))`.  The field is
   * incremented before the read and the write, so it stays incremented when
   * either of them raises.
   */
  function Dup(r: Region): (s: Step<()>)
    requires IsValid(r)
    ensures s.result.Success? ==> IsValid(s.after)
  {
    if r.cursor == 0 then Step(Region(r.slots, r.cursor + 1), Failure(IndexOutOfBounds(-1)))
    else if r.cursor >= |r.slots| then Step(Region(r.slots, r.cursor + 1), Failure(IndexOutOfBounds(r.cursor)))
    else Step(Region(r.slots[r.cursor := r.slots[r.cursor - 1]], r.cursor + 1), Success(()))
  }

  /** `swap`: read the two top slots (the upper one first) and write them back exchanged. */
  function Swap(r: Region): (s: Step<()>)
    requires IsValid(r)
    ensures s.result.Success? ==> IsValid(s.after)
  {
    if r.cursor < 2 then Step(r, Failure(IndexOutOfBounds(-1)))
    else
      var c := r.cursor;
      Step(Region(r.slots[c - 1 := r.slots[c - 2]][c - 2 := r.slots[c - 1]], c), Success(()))
  }

  /** `dupx1`. */
  function DupX1(r: Region): (s: Step<()>)
    requires IsValid(r)
    ensures s.result.Success? ==> IsValid(s.after)
  {
    var v1 :- Pop(r);
    var v2 :- Pop(v1.after);
    var p1 :- Push(v2.after, Some(v1.Value()));
    var p2 :- Push(p1.after, Some(v2.Value()));
    Push(p2.after, Some(v1.Value()))
  }

  /** `dupx2`. */
  function DupX2(r: Region): (s: Step<()>)
    requires IsValid(r)
    ensures s.result.Success? ==> IsValid(s.after)
  {
    var v1 :- Pop(r);
    var v2 :- PopGeneric(v1.after);
    if v2.Value().IsWide() then
      var p1 :- Push(v2.after, Some(v1.Value()));
      var p2 :- PushWide(p1.after, Some(v2.Value()));
      Push(p2.after, Some(v1.Value()))
    else
      var v3 :- Pop(v2.after);
      var p1 :- Push(v3.after, Some(v1.Value()));
      var p2 :- Push(p1.after, Some(v3.Value()));
      var p3 :- Push(p2.after, Some(v2.Value()));
      Push(p3.after, Some(v1.Value()))
  }

  /** `dup2`. */
  function Dup2(r: Region): (s: Step<()>)
    requires IsValid(r)
    ensures s.result.Success? ==> IsValid(s.after)
  {
    var v :- PopGeneric(r);
    if v.Value().IsWide() then
      var p1 :- PushWide(v.after, Some(v.Value()));
      PushWide(p1.after, Some(v.Value()))
    else
      var v2 :- Pop(v.after);
      var p1 :- Push(v2.after, Some(v2.Value()));
      var p2 :- Push(p1.after, Some(v.Value()));
      var p3 :- Push(p2.after, Some(v2.Value()));
      Push(p3.after, Some(v.Value()))
  }

  /** `dup2x1`. */
  function Dup2X1(r: Region): (s: Step<()>)
    requires IsValid(r)
    ensures s.result.Success? ==> IsValid(s.after)
  {
    var v :- PopGeneric(r);
    if v.Value().IsWide() then
      var v2 :- Pop(v.after);
      var p1 :- PushWide(v2.after, Some(v.Value()));
      var p2 :- Push(p1.after, Some(v2.Value()));
      PushWide(p2.after, Some(v.Value()))
    else
      var v2 :- Pop(v.after);
      var v3 :- Pop(v2.after);
      var p1 :- Push(v3.after, Some(v2.Value()));
      var p2 :- Push(p1.after, Some(v.Value()));
      var p3 :- Push(p2.after, Some(v3.Value()));
      var p4 :- Push(p3.after, Some(v2.Value()));
      Push(p4.after, Some(v.Value()))
  }

  /** `dup2x2`. */
  function Dup2X2(r: Region): (s: Step<()>)
    requires IsValid(r)
    ensures s.result.Success? ==> IsValid(s.after)
  {
    var v1 :- PopGeneric(r);
    var v2 :- PopGeneric(v1.after);
    if v1.Value().IsWide() then
      if v2.Value().IsWide() then
        var p1 :- PushWide(v2.after, Some(v1.Value()));
        var p2 :- PushWide(p1.after, Some(v2.Value()));
        PushWide(p2.after, Some(v1.Value()))
      else
        var v3 :- Pop(v2.after);
        var p1 :- PushWide(v3.after, Some(v1.Value()));
        var p2 :- Push(p1.after, Some(v3.Value()));
        var p3 :- Push(p2.after, Some(v2.Value()));
        PushWide(p3.after, Some(v1.Value()))
    else
      var v3 :- PopGeneric(v2.after);
      if v3.Value().IsWide() then
        var p1 :- Push(v3.after, Some(v2.Value()));
        var p2 :- Push(p1.after, Some(v1.Value()));
        var p3 :- PushWide(p2.after, Some(v3.Value()));
        var p4 :- Push(p3.after, Some(v2.Value()));
        Push(p4.after, Some(v1.Value()))
      else
        var v4 :- Pop(v3.after);
        var p1 :- Push(v4.after, Some(v2.Value()));
        var p2 :- Push(p1.after, Some(v1.Value()));
        var p3 :- Push(p2.after, Some(v4.Value()));
        var p4 :- Push(p3.after, Some(v3.Value()));
        var p5 :- Push(p4.after, Some(v2.Value()));
        Push(p5.after, Some(v1.Value()))
  }

  // ---------------------------------------------------------------------------
  // Properties of the stack operations
  // ---------------------------------------------------------------------------

  /** A category 1 value of section 2.11.1 of the JVMS: one slot, and not the TOP marker. */
  predicate Category1(v: Value) { Narrow(v) && !v.Top? }

  /** The number of slots a value occupies. */
  function Size(v: Value): nat { if v.IsWide() then 2 else 1 }

  lemma PopContents(r: Region)
    requires IsValid(r) && r.cursor > 0
    ensures Pop(r).result == Success(Contents(r)[r.cursor - 1])
    ensures Pop(r).after.slots == r.slots && Pop(r).after.cursor == r.cursor - 1
    ensures Contents(Pop(r).after) == Contents(r)[..r.cursor - 1]
  {
  }

  lemma PushContents(r: Region, v: Value)
    requires IsValid(r) && Narrow(v) && r.cursor < |r.slots|
    ensures Push(r, Some(v)).result.Success?
    ensures |Push(r, Some(v)).after.slots| == |r.slots| && Push(r, Some(v)).after.cursor == r.cursor + 1
    ensures Contents(Push(r, Some(v)).after) == Contents(r) + [v]
  {
    var a := Push(r, Some(v)).after;
    assert forall i :: 0 <= i < a.cursor ==> Contents(a)[i] == (Contents(r) + [v])[i];
  }

  lemma PushWideContents(r: Region, v: Value)
    requires IsValid(r) && v.IsWide() && r.cursor + 2 <= |r.slots|
    ensures PushWide(r, Some(v)).result.Success?
    ensures |PushWide(r, Some(v)).after.slots| == |r.slots| && PushWide(r, Some(v)).after.cursor == r.cursor + 2
    ensures Contents(PushWide(r, Some(v)).after) == Contents(r) + [v, Top]
  {
    var a := PushWide(r, Some(v)).after;
    assert forall i :: 0 <= i < a.cursor ==> Contents(a)[i] == (Contents(r) + [v, Top])[i];
  }

  /** `popGeneric` over a wide value takes its TOP and the value beneath it. */
  lemma PopGenericWide(r: Region)
    requires IsValid(r) && r.cursor >= 2 && Contents(r)[r.cursor - 1] == Top
    ensures PopGeneric(r).result == Success(Contents(r)[r.cursor - 2])
    ensures PopGeneric(r).after.slots == r.slots && PopGeneric(r).after.cursor == r.cursor - 2
    ensures Contents(PopGeneric(r).after) == Contents(r)[..r.cursor - 2]
  {
    PopContents(r);
    PopContents(Pop(r).after);
  }

  /** `popGeneric` over anything but TOP is a single `pop`. */
  lemma PopGenericNarrow(r: Region)
    requires IsValid(r) && r.cursor >= 1 && Contents(r)[r.cursor - 1] != Top
    ensures PopGeneric(r) == Pop(r)
  {
    PopContents(r);
  }

  /**
   * Wide round trip: `pushWide(v)` writes `v` at the cursor and TOP after it
   * and moves the cursor by 2; `popWide` then returns `v` and restores the
   * cursor, and so do two narrow pops (TOP first, then the value).
   */
  lemma PushWideThenPopWide(r: Region, v: Value)
    requires IsValid(r) && v.IsWide() && r.cursor + 2 <= |r.slots|
    ensures var s := PushWide(r, Some(v));
      && s.result.Success?
      && s.after.cursor == r.cursor + 2
      && s.after.slots[r.cursor] == Some(v) && s.after.slots[r.cursor + 1] == Some(Top)
      && PopWide(s.after).result == Success(v)
      && PopWide(s.after).after.cursor == r.cursor
      && Contents(PopWide(s.after).after) == Contents(r)
      && Pop(s.after).result == Success(Top)
      && Pop(Pop(s.after).after).result == Success(v)
  {
    var s := PushWide(r, Some(v));
    PushWideContents(r, v);
    PopContents(s.after);
    PopContents(Pop(s.after).after);
    assert Contents(s.after)[..r.cursor + 1][..r.cursor] == Contents(r);
  }

  /**
   * Generic round trip: `popGeneric` undoes `pushGeneric` for every storable
   * value except the TOP marker itself, consuming exactly `Size(v)` slots.
   */
  lemma PushGenericThenPopGeneric(r: Region, v: Value)
    requires IsValid(r) && !v.IsVoid() && !v.Top? && r.cursor + Size(v) <= |r.slots|
    ensures var s := PushGeneric(r, Some(v));
      && s.result.Success?
      && s.after.cursor == r.cursor + Size(v)
      && PopGeneric(s.after).result == Success(v)
      && PopGeneric(s.after).after.cursor == r.cursor
      && Contents(PopGeneric(s.after).after) == Contents(r)
  {
    var s := PushGeneric(r, Some(v));
    if v.IsWide() {
      PushWideContents(r, v);
      PopGenericWide(s.after);
      assert Contents(s.after)[..r.cursor] == Contents(r);
    } else {
      PushContents(r, v);
      PopGenericNarrow(s.after);
      PopContents(s.after);
    }
  }

  /** `dup` grows the stack by one slot holding a copy of the top slot. */
  lemma DupShape(r: Region)
    requires IsValid(r) && 0 < r.cursor < |r.slots|
    ensures var s := Dup(r);
      && s.result.Success?
      && s.after.cursor == r.cursor + 1
      && Contents(s.after) == Contents(r) + [Contents(r)[r.cursor - 1]]
  {
    var a := Dup(r).after;
    assert forall i :: 0 <= i < a.cursor ==> Contents(a)[i] == (Contents(r) + [Contents(r)[r.cursor - 1]])[i];
  }

  /** `swap` exchanges the two top slots, keeps the cursor and leaves every other slot alone. */
  lemma SwapShape(r: Region)
    requires IsValid(r) && r.cursor >= 2
    ensures var s := Swap(r); var c := Contents(r); var n := r.cursor;
      && s.result.Success?
      && s.after.cursor == n
      && Contents(s.after) == c[..n - 2] + [c[n - 1], c[n - 2]]
      && forall i :: 0 <= i < |r.slots| && i != n - 1 && i != n - 2 ==> s.after.slots[i] == r.slots[i]
  {
    var a := Swap(r).after;
    var c := Contents(r);
    var n := r.cursor;
    assert forall i :: 0 <= i < n ==> Contents(a)[i] == (c[..n - 2] + [c[n - 1], c[n - 2]])[i];
  }

  /** `dup_x1`: [.., v2, v1] becomes [.., v1, v2, v1] (section 6.5 of the JVMS). */
  lemma DupX1Shape(r: Region)
    requires IsValid(r) && 2 <= r.cursor < |r.slots|
    requires Category1(Contents(r)[r.cursor - 1]) && Category1(Contents(r)[r.cursor - 2])
    ensures var s := DupX1(r); var c := Contents(r); var n := r.cursor;
      && s.result.Success?
      && Contents(s.after) == c[..n - 2] + [c[n - 1], c[n - 2], c[n - 1]]
  {
    var c := Contents(r);
    var n := r.cursor;
    var v1 := Pop(r);
    PopContents(r);
    var v2 := Pop(v1.after);
    PopContents(v1.after);
    PushContents(v2.after, c[n - 1]);
    var p1 := Push(v2.after, Some(c[n - 1]));
    PushContents(p1.after, c[n - 2]);
    var p2 := Push(p1.after, Some(c[n - 2]));
    PushContents(p2.after, c[n - 1]);
    assert c[..n - 1][..n - 2] == c[..n - 2];
  }

  /** `dup_x2`, form 1: [.., v3, v2, v1] becomes [.., v1, v3, v2, v1]. */
  lemma DupX2Form1(r: Region)
    requires IsValid(r) && 3 <= r.cursor < |r.slots|
    requires var c := Contents(r); var n := r.cursor;
      Category1(c[n - 1]) && Category1(c[n - 2]) && Category1(c[n - 3])
    ensures var s := DupX2(r); var c := Contents(r); var n := r.cursor;
      && s.result.Success?
      && Contents(s.after) == c[..n - 3] + [c[n - 1], c[n - 3], c[n - 2], c[n - 1]]
  {
    var c := Contents(r);
    var n := r.cursor;
    var v1 := Pop(r);
    PopContents(r);
    PopGenericNarrow(v1.after);
    var v2 := PopGeneric(v1.after);
    PopContents(v1.after);
    var v3 := Pop(v2.after);
    PopContents(v2.after);
    PushContents(v3.after, c[n - 1]);
    var p1 := Push(v3.after, Some(c[n - 1]));
    PushContents(p1.after, c[n - 3]);
    var p2 := Push(p1.after, Some(c[n - 3]));
    PushContents(p2.after, c[n - 2]);
    var p3 := Push(p2.after, Some(c[n - 2]));
    PushContents(p3.after, c[n - 1]);
    assert c[..n - 1][..n - 2][..n - 3] == c[..n - 3];
  }

  /** `dup_x2`, form 2: [.., w, TOP, v1] with `w` wide becomes [.., v1, w, TOP, v1]. */
  lemma DupX2Form2(r: Region)
    requires IsValid(r) && 3 <= r.cursor < |r.slots|
    requires var c := Contents(r); var n := r.cursor;
      Category1(c[n - 1]) && c[n - 2] == Top && c[n - 3].IsWide()
    ensures var s := DupX2(r); var c := Contents(r); var n := r.cursor;
      && s.result.Success?
      && Contents(s.after) == c[..n - 3] + [c[n - 1], c[n - 3], Top, c[n - 1]]
  {
    var c := Contents(r);
    var n := r.cursor;
    var v1 := Pop(r);
    PopContents(r);
    PopGenericWide(v1.after);
    var v2 := PopGeneric(v1.after);
    assert c[..n - 1][..n - 3] == c[..n - 3];
    PushContents(v2.after, c[n - 1]);
    var p1 := Push(v2.after, Some(c[n - 1]));
    PushWideContents(p1.after, c[n - 3]);
    var p2 := PushWide(p1.after, Some(c[n - 3]));
    PushContents(p2.after, c[n - 1]);
  }

  /** `dup2`, form 1: [.., v2, v1] becomes [.., v2, v1, v2, v1]. */
  lemma Dup2Form1(r: Region)
    requires IsValid(r) && 2 <= r.cursor && r.cursor + 2 <= |r.slots|
    requires Category1(Contents(r)[r.cursor - 1]) && Category1(Contents(r)[r.cursor - 2])
    ensures var s := Dup2(r); var c := Contents(r); var n := r.cursor;
      && s.result.Success?
      && s.after.cursor == n + 2
      && Contents(s.after) == c + [c[n - 2], c[n - 1]]
  {
    var c := Contents(r);
    var n := r.cursor;
    PopGenericNarrow(r);
    var v := PopGeneric(r);
    PopContents(r);
    var v2 := Pop(v.after);
    PopContents(v.after);
    PushContents(v2.after, c[n - 2]);
    var p1 := Push(v2.after, Some(c[n - 2]));
    PushContents(p1.after, c[n - 1]);
    var p2 := Push(p1.after, Some(c[n - 1]));
    PushContents(p2.after, c[n - 2]);
    var p3 := Push(p2.after, Some(c[n - 2]));
    PushContents(p3.after, c[n - 1]);
    assert c[..n - 1][..n - 2] + [c[n - 2], c[n - 1]] == c;
  }

  /** `dup2`, form 2: a wide value [.., w, TOP] becomes [.., w, TOP, w, TOP]. */
  lemma Dup2Form2(r: Region)
    requires IsValid(r) && 2 <= r.cursor && r.cursor + 2 <= |r.slots|
    requires Contents(r)[r.cursor - 1] == Top && Contents(r)[r.cursor - 2].IsWide()
    ensures var s := Dup2(r); var c := Contents(r); var n := r.cursor;
      && s.result.Success?
      && s.after.cursor == n + 2
      && Contents(s.after) == c + [c[n - 2], Top]
  {
    var c := Contents(r);
    var n := r.cursor;
    PopGenericWide(r);
    var v := PopGeneric(r);
    PushWideContents(v.after, c[n - 2]);
    var p1 := PushWide(v.after, Some(c[n - 2]));
    PushWideContents(p1.after, c[n - 2]);
    assert c[..n - 2] + [c[n - 2], Top] == c;
  }

  /** `dup2_x1`, form 1: [.., v3, v2, v1] becomes [.., v2, v1, v3, v2, v1]. */
  lemma Dup2X1Form1(r: Region)
    requires IsValid(r) && 3 <= r.cursor && r.cursor + 2 <= |r.slots|
    requires var c := Contents(r); var n := r.cursor;
      Category1(c[n - 1]) && Category1(c[n - 2]) && Category1(c[n - 3])
    ensures var s := Dup2X1(r); var c := Contents(r); var n := r.cursor;
      && s.result.Success?
      && Contents(s.after) == c[..n - 3] + [c[n - 2], c[n - 1], c[n - 3], c[n - 2], c[n - 1]]
  {
    var c := Contents(r);
    var n := r.cursor;
    PopGenericNarrow(r);
    var v := PopGeneric(r);
    PopContents(r);
    var v2 := Pop(v.after);
    PopContents(v.after);
    var v3 := Pop(v2.after);
    PopContents(v2.after);
    assert c[..n - 1][..n - 2][..n - 3] == c[..n - 3];
    PushContents(v3.after, c[n - 2]);
    var p1 := Push(v3.after, Some(c[n - 2]));
    PushContents(p1.after, c[n - 1]);
    var p2 := Push(p1.after, Some(c[n - 1]));
    PushContents(p2.after, c[n - 3]);
    var p3 := Push(p2.after, Some(c[n - 3]));
    PushContents(p3.after, c[n - 2]);
    var p4 := Push(p3.after, Some(c[n - 2]));
    PushContents(p4.after, c[n - 1]);
  }

  /** `dup2_x1`, form 2: [.., v2, w, TOP] with `w` wide becomes [.., w, TOP, v2, w, TOP]. */
  lemma Dup2X1Form2(r: Region)
    requires IsValid(r) && 3 <= r.cursor && r.cursor + 2 <= |r.slots|
    requires var c := Contents(r); var n := r.cursor;
      c[n - 1] == Top && c[n - 2].IsWide() && Category1(c[n - 3])
    ensures var s := Dup2X1(r); var c := Contents(r); var n := r.cursor;
      && s.result.Success?
      && Contents(s.after) == c[..n - 3] + [c[n - 2], Top, c[n - 3], c[n - 2], Top]
  {
    var c := Contents(r);
    var n := r.cursor;
    PopGenericWide(r);
    var v := PopGeneric(r);
    var v2 := Pop(v.after);
    PopContents(v.after);
    assert c[..n - 2][..n - 3] == c[..n - 3];
    PushWideContents(v2.after, c[n - 2]);
    var p1 := PushWide(v2.after, Some(c[n - 2]));
    PushContents(p1.after, c[n - 3]);
    var p2 := Push(p1.after, Some(c[n - 3]));
    PushWideContents(p2.after, c[n - 2]);
  }

  /** `dup2_x2`, form 1: [.., v4, v3, v2, v1] becomes [.., v2, v1, v4, v3, v2, v1]. */
  lemma Dup2X2Form1(r: Region)
    requires IsValid(r) && 4 <= r.cursor && r.cursor + 2 <= |r.slots|
    requires var c := Contents(r); var n := r.cursor;
      Category1(c[n - 1]) && Category1(c[n - 2]) && Category1(c[n - 3]) && Category1(c[n - 4])
    ensures var s := Dup2X2(r); var c := Contents(r); var n := r.cursor;
      && s.result.Success?
      && Contents(s.after) == c[..n - 4] + [c[n - 2], c[n - 1], c[n - 4], c[n - 3], c[n - 2], c[n - 1]]
  {
    var c := Contents(r);
    var n := r.cursor;
    PopGenericNarrow(r);
    var v1 := PopGeneric(r);
    PopContents(r);
    PopGenericNarrow(v1.after);
    var v2 := PopGeneric(v1.after);
    PopContents(v1.after);
    PopGenericNarrow(v2.after);
    var v3 := PopGeneric(v2.after);
    PopContents(v2.after);
    var v4 := Pop(v3.after);
    PopContents(v3.after);
    assert c[..n - 1][..n - 2][..n - 3][..n - 4] == c[..n - 4];
    PushContents(v4.after, c[n - 2]);
    var p1 := Push(v4.after, Some(c[n - 2]));
    PushContents(p1.after, c[n - 1]);
    var p2 := Push(p1.after, Some(c[n - 1]));
    PushContents(p2.after, c[n - 4]);
    var p3 := Push(p2.after, Some(c[n - 4]));
    PushContents(p3.after, c[n - 3]);
    var p4 := Push(p3.after, Some(c[n - 3]));
    PushContents(p4.after, c[n - 2]);
    var p5 := Push(p4.after, Some(c[n - 2]));
    PushContents(p5.after, c[n - 1]);
  }

  /** `dup2_x2`, form 2: [.., v3, v2, w, TOP] becomes [.., w, TOP, v3, v2, w, TOP]. */
  lemma Dup2X2Form2(r: Region)
    requires IsValid(r) && 4 <= r.cursor && r.cursor + 2 <= |r.slots|
    requires var c := Contents(r); var n := r.cursor;
      c[n - 1] == Top && c[n - 2].IsWide() && Category1(c[n - 3]) && Category1(c[n - 4])
    ensures var s := Dup2X2(r); var c := Contents(r); var n := r.cursor;
      && s.result.Success?
      && Contents(s.after) == c[..n - 4] + [c[n - 2], Top, c[n - 4], c[n - 3], c[n - 2], Top]
  {
    var c := Contents(r);
    var n := r.cursor;
    PopGenericWide(r);
    var v1 := PopGeneric(r);
    PopGenericNarrow(v1.after);
    var v2 := PopGeneric(v1.after);
    PopContents(v1.after);
    var v3 := Pop(v2.after);
    PopContents(v2.after);
    assert c[..n - 2][..n - 3][..n - 4] == c[..n - 4];
    PushWideContents(v3.after, c[n - 2]);
    var p1 := PushWide(v3.after, Some(c[n - 2]));
    PushContents(p1.after, c[n - 4]);
    var p2 := Push(p1.after, Some(c[n - 4]));
    PushContents(p2.after, c[n - 3]);
    var p3 := Push(p2.after, Some(c[n - 3]));
    PushWideContents(p3.after, c[n - 2]);
  }

  /** `dup2_x2`, form 3: [.., w, TOP, v2, v1] becomes [.., v2, v1, w, TOP, v2, v1]. */
  lemma Dup2X2Form3(r: Region)
    requires IsValid(r) && 4 <= r.cursor && r.cursor + 2 <= |r.slots|
    requires var c := Contents(r); var n := r.cursor;
      Category1(c[n - 1]) && Category1(c[n - 2]) && c[n - 3] == Top && c[n - 4].IsWide()
    ensures var s := Dup2X2(r); var c := Contents(r); var n := r.cursor;
      && s.result.Success?
      && Contents(s.after) == c[..n - 4] + [c[n - 2], c[n - 1], c[n - 4], Top, c[n - 2], c[n - 1]]
  {
    var c := Contents(r);
    var n := r.cursor;
    PopGenericNarrow(r);
    var v1 := PopGeneric(r);
    PopContents(r);
    PopGenericNarrow(v1.after);
    var v2 := PopGeneric(v1.after);
    PopContents(v1.after);
    PopGenericWide(v2.after);
    var v3 := PopGeneric(v2.after);
    assert c[..n - 1][..n - 2][..n - 4] == c[..n - 4];
    PushContents(v3.after, c[n - 2]);
    var p1 := Push(v3.after, Some(c[n - 2]));
    PushContents(p1.after, c[n - 1]);
    var p2 := Push(p1.after, Some(c[n - 1]));
    PushWideContents(p2.after, c[n - 4]);
    var p3 := PushWide(p2.after, Some(c[n - 4]));
    PushContents(p3.after, c[n - 2]);
    var p4 := Push(p3.after, Some(c[n - 2]));
    PushContents(p4.after, c[n - 1]);
  }

  /** `dup2_x2`, form 4: [.., w2, TOP, w1, TOP] becomes [.., w1, TOP, w2, TOP, w1, TOP]. */
  lemma Dup2X2Form4(r: Region)
    requires IsValid(r) && 4 <= r.cursor && r.cursor + 2 <= |r.slots|
    requires var c := Contents(r); var n := r.cursor;
      c[n - 1] == Top && c[n - 2].IsWide() && c[n - 3] == Top && c[n - 4].IsWide()
    ensures var s := Dup2X2(r); var c := Contents(r); var n := r.cursor;
      && s.result.Success?
      && Contents(s.after) == c[..n - 4] + [c[n - 2], Top, c[n - 4], Top, c[n - 2], Top]
  {
    var c := Contents(r);
    var n := r.cursor;
    PopGenericWide(r);
    var v1 := PopGeneric(r);
    PopGenericWide(v1.after);
    var v2 := PopGeneric(v1.after);
    assert c[..n - 2][..n - 4] == c[..n - 4];
    PushWideContents(v2.after, c[n - 2]);
    var p1 := PushWide(v2.after, Some(c[n - 2]));
    PushWideContents(p1.after, c[n - 4]);
    var p2 := PushWide(p1.after, Some(c[n - 4]));
    PushWideContents(p2.after, c[n - 2]);
  }
}
