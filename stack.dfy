/**
 * The operand stack as the interpreter keeps it: a fixed region of slots,
 * updated in place, and a cursor field.  Every method is proved to leave
 * exactly the state (and to return exactly the value or fault) that the
 * matching function of `StackModel` describes, so the shapes proved there
 * hold of this class too.
 */
module Execution {
  import opened Wrappers
  import opened Values
  import M = StackModel

  class Stack {
    /** The thread region backing the stack; `None` is a slot that was never written. */
    const storage: array<Option<Value>>
    /** The index of the first free slot. */
    var cursor: int

    /** The stack as a value of the stack model. */
    function State(): M.Region
      reads this, storage
    {
      M.Region(storage[..], cursor)
    }

    /** The object invariant: the cursor lies within the region and every slot below it is written. */
    ghost predicate Valid()
      reads this, storage
    {
      M.IsValid(State())
    }

    /** `new Stack(maxSize)`: a region of `maxSize` empty slots and the cursor at 0. */
    constructor(maxSize: nat)
      ensures Valid() && fresh(storage)
      ensures State() == M.Region(seq(maxSize, _ => None), 0)
    {
      storage := new Option<Value>[maxSize](_ => None);
      cursor := 0;
    }

    /** `ThreadRegion.get`: a read outside the region raises. */
    method Get(index: int) returns (r: Result<Option<Value>, Fault>)
      ensures 0 <= index < storage.Length ==> r == Success(storage[index])
      ensures !(0 <= index < storage.Length) ==> r == Failure(IndexOutOfBounds(index))
    {
      if 0 <= index < storage.Length {
        return Success(storage[index]);
      }
      return Failure(IndexOutOfBounds(index));
    }

    /** `ThreadRegion.set`: a write outside the region raises and changes nothing. */
    method Set(index: int, v: Option<Value>) returns (r: Result<(), Fault>)
      modifies storage
      ensures 0 <= index < storage.Length ==> r == Success(()) && storage[..] == old(storage[..])[index := v]
      ensures !(0 <= index < storage.Length) ==> r == Failure(IndexOutOfBounds(index)) && storage[..] == old(storage[..])
    {
      if 0 <= index < storage.Length {
        storage[index] := v;
        return Success(());
      }
      return Failure(IndexOutOfBounds(index));
    }

    method Push(v: Option<Value>) returns (r: Result<(), Fault>)
      requires Valid()
      modifies this, storage
      ensures M.Step(State(), r) == M.Push(old(State()), v)
    {
      var f := M.CheckValue(v);
      if f.Some? {
        return Failure(f.value);
      }
      if v.value.IsWide() {
        return Failure(MustUsePushWide);
      }
      var at := cursor;
      cursor := cursor + 1;
      r := Set(at, v);
    }

    method PushWide(v: Option<Value>) returns (r: Result<(), Fault>)
      requires Valid()
      modifies this, storage
      ensures M.Step(State(), r) == M.PushWide(old(State()), v)
    {
      var f := M.CheckValue(v);
      if f.Some? {
        return Failure(f.value);
      }
      if !v.value.IsWide() {
        return Failure(MustUsePush);
      }
      var at := cursor;
      r := Set(at, v);
      if r.Failure? {
        return;
      }
      at := at + 1;
      r := Set(at, Some(Top));
      if r.Failure? {
        return;
      }
      cursor := at + 1;
    }

    method PushGeneric(v: Option<Value>) returns (r: Result<(), Fault>)
      requires Valid()
      modifies this, storage
      ensures M.Step(State(), r) == M.PushGeneric(old(State()), v)
    {
      if v.None? {
        return Failure(NullPointer);
      }
      if v.value.IsWide() {
        r := PushWide(v);
      } else {
        r := Push(v);
      }
    }

    method Pop() returns (r: Result<Value, Fault>)
      requires Valid()
      modifies this
      ensures M.Step(State(), r) == M.Pop(old(State()))
    {
      cursor := cursor - 1;
      var slot := Get(cursor);
      if slot.Failure? {
        return Failure(slot.error);
      }
      return Success(slot.value.value);
    }

    method PopWide() returns (r: Result<Value, Fault>)
      requires Valid()
      modifies this
      ensures M.Step(State(), r) == M.PopWide(old(State()))
    {
      var top := Pop();
      if top.Failure? {
        return top;
      }
      if top.value != Top {
        return Failure(ExpectedTop(top.value));
      }
      r := Pop();
    }

    method PopGeneric() returns (r: Result<Value, Fault>)
      requires Valid()
      modifies this
      ensures M.Step(State(), r) == M.PopGeneric(old(State()))
    {
      var top := Pop();
      if top.Success? && top.value == Top {
        r := Pop();
      } else {
        r := top;
      }
    }

    method Peek() returns (r: Result<Value, Fault>)
      requires Valid()
      ensures M.Step(State(), r) == M.Peek(State())
    {
      var slot := Get(cursor - 1);
      if slot.Failure? {
        return Failure(slot.error);
      }
      return Success(slot.value.value);
    }

    method Poll() returns (r: Option<Value>)
      requires Valid()
      modifies this
      ensures M.Step(State(), Success(r)) == M.Poll(old(State()))
    {
      if cursor == 0 {
        return None;
      }
      cursor := cursor - 1;
      r := storage[cursor];
    }

    method Dup() returns (r: Result<(), Fault>)
      requires Valid()
      modifies this, storage
      ensures M.Step(State(), r) == M.Dup(old(State()))
    {
      var at := cursor;
      cursor := cursor + 1;
      var top := Get(at - 1);
      if top.Failure? {
        return Failure(top.error);
      }
      r := Set(at, top.value);
    }

    method Swap() returns (r: Result<(), Fault>)
      requires Valid()
      modifies storage
      ensures M.Step(State(), r) == M.Swap(old(State()))
    {
      var c := cursor;
      var v1 := Get(c - 1);
      if v1.Failure? {
        return Failure(v1.error);
      }
      var v2 := Get(c - 2);
      if v2.Failure? {
        return Failure(v2.error);
      }
      r := Set(c - 1, v2.value);
      r := Set(c - 2, v1.value);
    }

    method DupX1() returns (r: Result<(), Fault>)
      requires Valid()
      modifies this, storage
      ensures M.Step(State(), r) == M.DupX1(old(State()))
    {
      var v1 := Pop();
      if v1.Failure? { return Failure(v1.error); }
      var v2 := Pop();
      if v2.Failure? { return Failure(v2.error); }
      r := Push(Some(v1.value));
      if r.Failure? { return; }
      r := Push(Some(v2.value));
      if r.Failure? { return; }
      r := Push(Some(v1.value));
    }

    method DupX2() returns (r: Result<(), Fault>)
      requires Valid()
      modifies this, storage
      ensures M.Step(State(), r) == M.DupX2(old(State()))
    {
      var v1 := Pop();
      if v1.Failure? { return Failure(v1.error); }
      var v2 := PopGeneric();
      if v2.Failure? { return Failure(v2.error); }
      if v2.value.IsWide() {
        r := Push(Some(v1.value));
        if r.Failure? { return; }
        r := PushWide(Some(v2.value));
        if r.Failure? { return; }
        r := Push(Some(v1.value));
      } else {
        var v3 := Pop();
        if v3.Failure? { return Failure(v3.error); }
        r := Push(Some(v1.value));
        if r.Failure? { return; }
        r := Push(Some(v3.value));
        if r.Failure? { return; }
        r := Push(Some(v2.value));
        if r.Failure? { return; }
        r := Push(Some(v1.value));
      }
    }

    method Dup2() returns (r: Result<(), Fault>)
      requires Valid()
      modifies this, storage
      ensures M.Step(State(), r) == M.Dup2(old(State()))
    {
      var v := PopGeneric();
      if v.Failure? { return Failure(v.error); }
      if v.value.IsWide() {
        r := PushWide(Some(v.value));
        if r.Failure? { return; }
        r := PushWide(Some(v.value));
      } else {
        var v2 := Pop();
        if v2.Failure? { return Failure(v2.error); }
        r := Push(Some(v2.value));
        if r.Failure? { return; }
        r := Push(Some(v.value));
        if r.Failure? { return; }
        r := Push(Some(v2.value));
        if r.Failure? { return; }
        r := Push(Some(v.value));
      }
    }

    method Dup2X1() returns (r: Result<(), Fault>)
      requires Valid()
      modifies this, storage
      ensures M.Step(State(), r) == M.Dup2X1(old(State()))
    {
      var v := PopGeneric();
      if v.Failure? { return Failure(v.error); }
      if v.value.IsWide() {
        var v2 := Pop();
        if v2.Failure? { return Failure(v2.error); }
        r := PushWide(Some(v.value));
        if r.Failure? { return; }
        r := Push(Some(v2.value));
        if r.Failure? { return; }
        r := PushWide(Some(v.value));
      } else {
        var v2 := Pop();
        if v2.Failure? { return Failure(v2.error); }
        var v3 := Pop();
        if v3.Failure? { return Failure(v3.error); }
        r := Push(Some(v2.value));
        if r.Failure? { return; }
        r := Push(Some(v.value));
        if r.Failure? { return; }
        r := Push(Some(v3.value));
        if r.Failure? { return; }
        r := Push(Some(v2.value));
        if r.Failure? { return; }
        r := Push(Some(v.value));
      }
    }

    method Dup2X2() returns (r: Result<(), Fault>)
      requires Valid()
      modifies this, storage
      ensures M.Step(State(), r) == M.Dup2X2(old(State()))
    {
      var v1 := PopGeneric();
      if v1.Failure? { return Failure(v1.error); }
      var v2 := PopGeneric();
      if v2.Failure? { return Failure(v2.error); }
      if v1.value.IsWide() {
        if v2.value.IsWide() {
          r := PushWide(Some(v1.value));
          if r.Failure? { return; }
          r := PushWide(Some(v2.value));
          if r.Failure? { return; }
          r := PushWide(Some(v1.value));
        } else {
          var v3 := Pop();
          if v3.Failure? { return Failure(v3.error); }
          r := PushWide(Some(v1.value));
          if r.Failure? { return; }
          r := Push(Some(v3.value));
          if r.Failure? { return; }
          r := Push(Some(v2.value));
          if r.Failure? { return; }
          r := PushWide(Some(v1.value));
        }
      } else {
        var v3 := PopGeneric();
        if v3.Failure? { return Failure(v3.error); }
        if v3.value.IsWide() {
          r := Push(Some(v2.value));
          if r.Failure? { return; }
          r := Push(Some(v1.value));
          if r.Failure? { return; }
          r := PushWide(Some(v3.value));
          if r.Failure? { return; }
          r := Push(Some(v2.value));
          if r.Failure? { return; }
          r := Push(Some(v1.value));
        } else {
          var v4 := Pop();
          if v4.Failure? { return Failure(v4.error); }
          r := Push(Some(v2.value));
          if r.Failure? { return; }
          r := Push(Some(v1.value));
          if r.Failure? { return; }
          r := Push(Some(v4.value));
          if r.Failure? { return; }
          r := Push(Some(v3.value));
          if r.Failure? { return; }
          r := Push(Some(v2.value));
          if r.Failure? { return; }
          r := Push(Some(v1.value));
        }
      }
    }

    /** `isEmpty`: the cursor is at the bottom, so the stack holds no values. */
    predicate IsEmpty()
      reads this, storage
      ensures Valid() ==> (IsEmpty() <==> M.Contents(State()) == [])
    {
      cursor == 0
    }

    /** `clear`: the cursor goes back to 0 and the slots are left as they are. */
    method Clear()
      modifies this
      ensures IsEmpty() && Valid()
      ensures storage[..] == old(storage[..])
    {
      cursor := 0;
    }

    /** `position`: the number of slots in use. */
    function Position(): (p: int)
      reads this, storage
      ensures Valid() ==> p == |M.Contents(State())|
    {
      cursor
    }

    /** `getAt`: the slot at an index of the region, whether or not it is below the cursor. */
    method GetAt(index: int) returns (r: Result<Option<Value>, Fault>)
      ensures 0 <= index < storage.Length ==> r == Success(storage[index])
      ensures !(0 <= index < storage.Length) ==> r == Failure(IndexOutOfBounds(index))
      ensures Valid() && 0 <= index < cursor ==> r == Success(Some(M.Contents(State())[index]))
    {
      r := Get(index);
    }

    /** `view`: a copy of the slots below the cursor; element `i` is what `getAt(i)` reads. */
    method View() returns (r: seq<Value>)
      requires Valid()
      ensures |r| == Position()
      ensures forall i :: 0 <= i < |r| ==> storage[i] == Some(r[i])
    {
      r := [];
      var i := 0;
      while i < cursor
        invariant 0 <= i <= cursor
        invariant |r| == i
        invariant forall j :: 0 <= j < i ==> storage[j] == Some(r[j])
      {
        r := r + [storage[i].value];
        i := i + 1;
      }
    }

    /**
     * `equals`: two stacks are equal when their cursors agree and so does
     * every slot below the cursor; a stack is equal to itself, and to no
     * `null` and no object of another class.
     */
    method Equals(o: object?) returns (eq: bool)
      requires Valid() && (o is Stack ==> (o as Stack).Valid())
      ensures eq <==> o is Stack && M.Contents(State()) == M.Contents((o as Stack).State())
    {
      if o == this {
        return true;
      }
      if !(o is Stack) {
        return false;
      }
      var other := o as Stack;
      if cursor != other.cursor {
        return false;
      }
      var i := 0;
      while i < cursor
        invariant 0 <= i <= cursor
        invariant forall j :: 0 <= j < i ==> storage[j] == other.storage[j]
      {
        if storage[i] != other.storage[i] {
          return false;
        }
        i := i + 1;
      }
      return true;
    }
  }
}
