/**
 * The `putstatic` fast path for a `short` field
 * (`dev.xdark.ssvm.execution.rewrite.PutStaticShortProcessor`): the field is
 * already resolved on the instruction, the value is popped off the operand
 * stack and written as two bytes into the static data of the field's owner.
 */
module Rewrite {
  import opened Wrappers
  import opened Values
  import M = StackModel
  import opened Execution

  /** A byte of raw memory, unsigned. */
  type Byte = x: int | 0 <= x < 0x100

  /** The raw memory of an object (`MemoryData`): a byte buffer with a fixed byte order. */
  class MemoryData {
    const bytes: array<Byte>
    const bigEndian: bool

    constructor(size: nat, bigEndian: bool)
      ensures fresh(bytes) && bytes.Length == size && this.bigEndian == bigEndian
      ensures forall i :: 0 <= i < size ==> bytes[i] == 0
    {
      this.bytes := new Byte[size](_ => 0);
      this.bigEndian := bigEndian;
    }

    /** `writeShort`: two bytes at `offset`; an access outside the buffer raises and writes nothing. */
    method WriteShort(offset: int, value: Int16) returns (r: Result<(), Fault>)
      modifies bytes
      ensures 0 <= offset && offset + 2 <= bytes.Length ==>
        r == Success(()) && bytes[..] == StoreShort(old(bytes[..]), offset, value, bigEndian)
      ensures !(0 <= offset && offset + 2 <= bytes.Length) ==>
        r == Failure(IndexOutOfBounds(offset)) && bytes[..] == old(bytes[..])
    {
      if !(0 <= offset && offset + 2 <= bytes.Length) {
        return Failure(IndexOutOfBounds(offset));
      }
      var b := ShortBytes(value, bigEndian);
      bytes[offset] := b.0;
      bytes[offset + 1] := b.1;
      return Success(());
    }
  }

  /** The two's complement encoding of a short, as its two bytes in memory order. */
  function ShortBytes(value: Int16, bigEndian: bool): (Byte, Byte) {
    var u := (value + 0x1_0000) % 0x1_0000;
    var hi: Byte := u / 0x100;
    var lo: Byte := u % 0x100;
    if bigEndian then (hi, lo) else (lo, hi)
  }

  /** The short whose two's complement encoding has high byte `hi` and low byte `lo`. */
  function JoinBytes(hi: Byte, lo: Byte): Int16 {
    var u := hi * 0x100 + lo;
    if u >= 0x8000 then u - 0x1_0000 else u
  }

  /** The short stored in the two bytes at `offset`. */
  function LoadShort(data: seq<Byte>, offset: int, bigEndian: bool): (v: Int16)
    requires 0 <= offset && offset + 2 <= |data|
  {
    if bigEndian then JoinBytes(data[offset], data[offset + 1]) else JoinBytes(data[offset + 1], data[offset])
  }

  /** The buffer after a short is written at `offset`. */
  function StoreShort(data: seq<Byte>, offset: int, value: Int16, bigEndian: bool): (d: seq<Byte>)
    requires 0 <= offset && offset + 2 <= |data|
    ensures |d| == |data|
    ensures forall i :: 0 <= i < |data| && i != offset && i != offset + 1 ==> d[i] == data[i]
  {
    var b := ShortBytes(value, bigEndian);
    data[offset := b.0][offset + 1 := b.1]
  }

  /** The short written at an offset is the short read back there. */
  lemma LoadStoredShort(data: seq<Byte>, offset: int, value: Int16, bigEndian: bool)
    requires 0 <= offset && offset + 2 <= |data|
    ensures LoadShort(StoreShort(data, offset, value, bigEndian), offset, bigEndian) == value
  {
    StoredBytes(data, offset, value, bigEndian);
    ShortBytesJoin(value);
  }

  /** `StoreShort` puts the high byte of a short's encoding first in big-endian order, the low byte first otherwise. */
  lemma StoredBytes(data: seq<Byte>, offset: int, value: Int16, bigEndian: bool)
    requires 0 <= offset && offset + 2 <= |data|
    ensures var hl := ShortBytes(value, true);
      var d := StoreShort(data, offset, value, bigEndian);
      d[offset] == (if bigEndian then hl.0 else hl.1) && d[offset + 1] == (if bigEndian then hl.1 else hl.0)
  {
  }

  /** The high and the low byte of a short's encoding, joined again, give the short. */
  lemma ShortBytesJoin(value: Int16)
    ensures JoinBytes(ShortBytes(value, true).0, ShortBytes(value, true).1) == value
  {
    var u := (value + 0x1_0000) % 0x1_0000;
    assert u == if value >= 0 then value as int else value + 0x1_0000;
  }

  /** Java's `(short)` cast of an `int`: keep the low 16 bits, two's complement. */
  function ToShort(i: Int32): (s: Int16)
    ensures (s - i) % 0x1_0000 == 0
    ensures -0x8000 <= i < 0x8000 ==> s == i
  {
    var u := i % 0x1_0000;
    if u >= 0x8000 then u - 0x1_0000 else u
  }

  /** `Stack.popShort` of the interpreter's stack: a narrow pop of an int, narrowed to a short. */
  function PopShortEffect(r: M.Region): (s: M.Step<Int16>)
    requires M.IsValid(r)
    ensures s.result.Success? ==> M.IsValid(s.after)
    ensures s.after == M.Region(r.slots, r.cursor - 1)
    ensures r.cursor == 0 ==> s.result == Failure(IndexOutOfBounds(-1))
    ensures r.cursor > 0 ==> var top := M.Contents(r)[r.cursor - 1];
      && (top.Int? ==> s.result == Success(ToShort(top.i)))
      && (!top.Int? ==> s.result == Failure(NotAnInt(top)))
  {
    var v :- M.Pop(r);
    match v.Value()
    case Int(i) => M.Step(v.after, Success(ToShort(i)))
    case _ => M.Step(v.after, Failure(NotAnInt(v.Value())))
  }

  method PopShort(stack: Stack) returns (r: Result<Int16, Fault>)
    requires stack.Valid()
    modifies stack
    ensures M.Step(stack.State(), r) == PopShortEffect(old(stack.State()))
  {
    var v := stack.Pop();
    if v.Failure? {
      return Failure(v.error);
    }
    if v.value.Int? {
      return Success(ToShort(v.value.i));
    }
    return Failure(NotAnInt(v.value));
  }

  /** A class mirror whose oop carries the class's static storage. */
  class InstanceClass {
    const staticData: MemoryData

    constructor(staticData: MemoryData)
      ensures this.staticData == staticData
    {
      this.staticData := staticData;
    }
  }

  /** A field resolved by the linker: its owner class and its offset in the owner's static storage. */
  datatype JavaField = JavaField(owner: InstanceClass, offset: int)

  /** A field instruction after rewriting, carrying its resolved field. */
  datatype FieldInsn = FieldInsn(resolved: JavaField)

  /**
   * `PutStaticShortProcessor.execute`.  Java evaluates the receiver
   * `klass.getOop().getData()` and the offset before the argument
   * `popShort()`, and that before the write, so a failed pop writes nothing.
   * The owner is the one recorded on the resolved field: there is neither a
   * lookup by name nor a class initialisation here.
   */
  method PutStaticShort(insn: FieldInsn, stack: Stack) returns (r: Result<Flow, Fault>)
    requires stack.Valid()
    // a value region and a byte buffer are objects of different Java types
    requires stack.storage as object != insn.resolved.owner.staticData.bytes
    modifies stack, insn.resolved.owner.staticData.bytes
    ensures var data := insn.resolved.owner.staticData; var off := insn.resolved.offset;
      var popped := PopShortEffect(old(stack.State()));
      && stack.State() == popped.after
      && (popped.result.Failure? ==> r == Failure(popped.result.error) && data.bytes[..] == old(data.bytes[..]))
      && (popped.result.Success? && 0 <= off && off + 2 <= data.bytes.Length ==>
            r == Success(Continue)
            && data.bytes[..] == StoreShort(old(data.bytes[..]), off, popped.Value(), data.bigEndian))
      && (popped.result.Success? && !(0 <= off && off + 2 <= data.bytes.Length) ==>
            r == Failure(IndexOutOfBounds(off)) && data.bytes[..] == old(data.bytes[..]))
  {
    var field := insn.resolved;
    var data := field.owner.staticData;
    var offset := field.offset;
    var value := PopShort(stack);
    if value.Failure? {
      return Failure(value.error);
    }
    var written := data.WriteShort(offset, value.value);
    if written.Failure? {
      return Failure(written.error);
    }
    return Success(Continue);
  }

  /**
   * The effect of a successful `putstatic`: exactly one slot is popped and the
   * rest of the stack is kept, the field's offset then reads back the popped
   * int narrowed to a short, and no other byte of the owner's storage changes.
   */
  lemma PutStaticShortEffect(r: M.Region, data: seq<Byte>, offset: int, bigEndian: bool, i: Int32)
    requires M.IsValid(r) && r.cursor >= 1 && M.Contents(r)[r.cursor - 1] == Int(i)
    requires 0 <= offset && offset + 2 <= |data|
    ensures var popped := PopShortEffect(r); var d := StoreShort(data, offset, popped.Value(), bigEndian);
      && popped.result == Success(ToShort(i))
      && popped.after.cursor == r.cursor - 1
      && M.Contents(popped.after) == M.Contents(r)[..r.cursor - 1]
      && LoadShort(d, offset, bigEndian) == ToShort(i)
      && |d| == |data|
      && forall j :: 0 <= j < |data| && j != offset && j != offset + 1 ==> d[j] == data[j]
  {
    M.PopContents(r);
    LoadStoredShort(data, offset, ToShort(i), bigEndian);
  }
}
