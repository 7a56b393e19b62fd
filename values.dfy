/**
 * Interpreter values (the `dev.xdark.ssvm.value` package) and the host-side
 * exceptions that the modelled operations can raise.
 */
module Values {

  /** Identity of a heap object (its memory block). */
  type Ref = nat

  /** Java `int`, two's complement 32 bits. */
  type Int32 = x: int | -0x8000_0000 <= x < 0x8000_0000

  /** Java's `int` arithmetic: a mathematical result reduced to 32 bits, two's complement. */
  function Wrap32(x: int): (r: Int32)
    ensures (r - x) % 0x1_0000_0000 == 0
    ensures -0x8000_0000 <= x < 0x8000_0000 ==> r == x
  {
    var u := x % 0x1_0000_0000;
    if u >= 0x8000_0000 then u - 0x1_0000_0000 else u
  }

  /** Adding a multiple of 2^32 does not change a wrapped result. */
  lemma WrapShift(z: int, k: int)
    ensures Wrap32(z + k * 0x1_0000_0000) == Wrap32(z)
  {
    assert (z + k * 0x1_0000_0000) % 0x1_0000_0000 == z % 0x1_0000_0000;
  }

  /** Wrapping an intermediate result of a sum does not change the wrapped sum. */
  lemma WrapInner(x: int, y: int)
    ensures Wrap32(Wrap32(x) + y) == Wrap32(x + y)
  {
    var k := (Wrap32(x) - x) / 0x1_0000_0000;
    assert Wrap32(x) == x + k * 0x1_0000_0000;
    assert Wrap32(x) + y == (x + y) + k * 0x1_0000_0000;
    WrapShift(x + y, k);
  }

  /** Wrapping an intermediate subtrahend does not change the wrapped difference. */
  lemma WrapInnerNeg(x: int, y: int)
    ensures Wrap32(y - Wrap32(x)) == Wrap32(y - x)
  {
    var k := (Wrap32(x) - x) / 0x1_0000_0000;
    assert Wrap32(x) == x + k * 0x1_0000_0000;
    assert y - Wrap32(x) == (y - x) + (-k) * 0x1_0000_0000;
    WrapShift(y - x, -k);
  }

  /** Java `long`, two's complement 64 bits. */
  type Int64 = x: int | -0x8000_0000_0000_0000 <= x < 0x8000_0000_0000_0000

  /** Java `short`, two's complement 16 bits. */
  type Int16 = x: int | -0x8000 <= x < 0x8000

  /**
   * A value held in an operand-stack slot or a local.  `Long` and `Double`
   * are the wide (category 2) values of section 2.6.2 of the Java Virtual
   * Machine Specification; `Top` is the marker that fills their second slot.
   * Floating-point values are kept as their IEEE bit patterns, uninterpreted.
   */
  datatype Value =
    | Int(i: Int32)
    | Long(l: Int64)
    | Float(fbits: bv32)
    | Double(dbits: bv64)
    | Obj(ref: Ref)
    | Null
    | Top
    | Void
  {
    /** `Value.isWide()`: the value occupies two slots. */
    predicate IsWide() { Long? || Double? }

    /** `Value.isVoid()`: the result of a `void` method, never storable. */
    predicate IsVoid() { Void? }

    /** `instanceof ObjectValue`: a reference, possibly the null reference. */
    predicate IsObject() { Obj? || Null? }
  }

  /** Exceptions raised on the host side by the modelled code. */
  datatype Fault =
    | NullPointer                 // Objects.requireNonNull / a null dereference
    | VoidPushed                  // "Cannot push void value"
    | MustUsePushWide             // push of a wide value
    | MustUsePush                 // pushWide of a narrow value
    | ExpectedTop(got: Value)     // popWide found no TOP marker
    | IndexOutOfBounds(index: int)
    | IllegalArgument             // Arrays.copyOfRange with from > to
    | NotAnInt(got: Value)        // a narrowing read of a non-int value
    | Raised(exception: Ref)      // a guest exception (VMException) raised by a callee
    | Panic                       // PanicException: the collector could not free a block

  /** `dev.xdark.ssvm.execution.Result`: what an instruction or an interceptor tells the interpreter. */
  datatype Flow = Continue | Abort
}
