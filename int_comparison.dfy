/**
 * The branch scenario of `IntComparisonTest`: a static method `test()Z` is
 * generated with a method visitor as
 *
 *     ldc value; if<cond> L; iconst_0; ireturn; L: iconst_1; ireturn
 *
 * and invoked; the test asserts that it returns true.  The generated code is
 * run here by a small interpreter of those five instructions, following
 * section 6.5 of the JVMS (`ldc`, `if<cond>`, `iconst_<i>`, `ireturn`): an
 * `if<cond>` pops an `int` and jumps when the comparison with zero holds.
 */
module IntComparison {
  import opened Wrappers
  import opened Values

  /** The `if<cond>` comparisons with zero, with their opcodes. */
  datatype Cond = IFEQ | IFNE | IFLT | IFGE | IFGT | IFLE {
    function Opcode(): int {
      match this
      case IFEQ => 153
      case IFNE => 154
      case IFLT => 155
      case IFGE => 156
      case IFGT => 157
      case IFLE => 158
    }
  }

  /** Whether `if<cond>` jumps for the popped `value`. */
  function Jumps(cond: Cond, value: Int32): bool {
    match cond
    case IFEQ => value == 0
    case IFNE => value != 0
    case IFLT => value < 0
    case IFGE => value >= 0
    case IFGT => value > 0
    case IFLE => value <= 0
  }

  /** The instructions the test emits; a label is a pseudo-instruction marking a jump target. */
  datatype Insn = Ldc(constant: Int32) | Jump(cond: Cond, target: nat) | IConst(n: Int32) | IReturn | Label(id: nat)

  /** The method body under construction: the instructions visited so far, in order. */
  class MethodVisitor {
    var code: seq<Insn>

    constructor()
      ensures code == []
    {
      code := [];
    }

    method VisitLdcInsn(c: Int32)
      modifies this
      ensures code == old(code) + [Ldc(c)]
    {
      code := code + [Ldc(c)];
    }

    method VisitJumpInsn(cond: Cond, target: nat)
      modifies this
      ensures code == old(code) + [Jump(cond, target)]
    {
      code := code + [Jump(cond, target)];
    }

    method VisitInsn(n: Int32)
      modifies this
      ensures code == old(code) + [IConst(n)]
    {
      code := code + [IConst(n)];
    }

    method VisitReturn()
      modifies this
      ensures code == old(code) + [IReturn]
    {
      code := code + [IReturn];
    }

    method VisitLabel(target: nat)
      modifies this
      ensures code == old(code) + [Label(target)]
    {
      code := code + [Label(target)];
    }
  }

  /** The position of the first occurrence of a label. */
  function LabelAt(code: seq<Insn>, id: nat): (r: Option<nat>)
    ensures r.Some? ==> r.value < |code| && code[r.value] == Label(id)
    ensures r.Some? ==> forall k :: 0 <= k < r.value ==> code[k] != Label(id)
    ensures r.None? ==> forall k :: 0 <= k < |code| ==> code[k] != Label(id)
  {
    if code == [] then None
    else if code[0] == Label(id) then Some(0)
    else match LabelAt(code[1..], id)
      case None => None
      case Some(k) => Some(k + 1)
  }

  /**
   * Run `code` from `pc` with operand stack `stack` for at most `fuel`
   * instructions: the `int` that `ireturn` returns, or `None` when the code
   * runs off its end, pops an empty stack, jumps to a missing label or runs
   * out of fuel.
   */
  function Run(code: seq<Insn>, pc: nat, stack: seq<Int32>, fuel: nat): Option<Int32>
    decreases fuel
  {
    if fuel == 0 || pc >= |code| then None
    else match code[pc]
      case Ldc(c) => Run(code, pc + 1, stack + [c], fuel - 1)
      case IConst(n) => Run(code, pc + 1, stack + [n], fuel - 1)
      case Label(_) => Run(code, pc + 1, stack, fuel - 1)
      case IReturn => if stack == [] then None else Some(stack[|stack| - 1])
      case Jump(cond, target) =>
        if stack == [] then None
        else
          var v := stack[|stack| - 1];
          var rest := stack[..|stack| - 1];
          if !Jumps(cond, v) then Run(code, pc + 1, rest, fuel - 1)
          else match LabelAt(code, target)
            case None => None
            case Some(t) => Run(code, t, rest, fuel - 1)
  }

  /** The code `doIntJump(value, opcode)` generates, with its one label numbered 0. */
  function Program(value: Int32, cond: Cond): seq<Insn> {
    [Ldc(value), Jump(cond, 0), IConst(0), IReturn, Label(0), IConst(1), IReturn]
  }

  /** `asBoolean` of an `int` result. */
  function AsBoolean(i: Int32): bool {
    i != 0
  }

  /**
   * The generated method returns 1 when the jump is taken and 0 when it
   * falls through, so it returns true exactly when the `if<cond>`
   * comparison of `value` with zero holds.
   */
  lemma {:induction false} ProgramDecides(value: Int32, cond: Cond)
    ensures Run(Program(value, cond), 0, [], |Program(value, cond)|) == Some(if Jumps(cond, value) then 1 else 0)
  {
    var code := Program(value, cond);
    assert Run(code, 0, [], 7) == Run(code, 1, [value], 6);
    assert LabelAt(code, 0) == Some(4) by {
      assert code[4] == Label(0);
      assert forall k :: 0 <= k < 4 ==> code[k] != Label(0);
    }
    if Jumps(cond, value) {
      assert [value][..0] == [];
      assert Run(code, 1, [value], 6) == Run(code, 4, [], 5);
      assert Run(code, 4, [], 5) == Run(code, 5, [], 4);
      assert Run(code, 5, [], 4) == Run(code, 6, [1], 3);
    } else {
      assert [value][..0] == [];
      assert Run(code, 1, [value], 6) == Run(code, 2, [], 5);
      assert Run(code, 2, [], 5) == Run(code, 3, [0], 4);
    }
  }

  /**
   * `doIntJump(value, opcode)`: emit the method body through the visitor,
   * run it, and read its result as a boolean.
   */
  method DoIntJump(value: Int32, cond: Cond) returns (b: bool)
    ensures b <==> Jumps(cond, value)
  {
    var mv := new MethodVisitor();
    var target := 0;
    mv.VisitLdcInsn(value);
    mv.VisitJumpInsn(cond, target);
    mv.VisitInsn(0);
    mv.VisitReturn();
    mv.VisitLabel(target);
    mv.VisitInsn(1);
    mv.VisitReturn();
    assert mv.code == Program(value, cond);
    ProgramDecides(value, cond);
    var result := Run(mv.code, 0, [], |mv.code|);
    b := result.Some? && AsBoolean(result.value);
  }

  /** A value for which the comparison holds makes the generated method return 1 within its seven instructions. */
  lemma Accepts(value: Int32, cond: Cond)
    requires Jumps(cond, value)
    ensures Run(Program(value, cond), 0, [], 7) == Some(1)
  {
    ProgramDecides(value, cond);
  }

  /** The values `nextInt` draws: from 1 up to, not including, `Integer.MAX_VALUE - 1`. */
  predicate Drawn(v: int) {
    1 <= v < 0x7FFF_FFFF - 1
  }

  /** A drawn value and its negation are both `int`s other than zero: the negation cannot overflow. */
  lemma DrawnNegates(v: int)
    requires Drawn(v)
    ensures -0x8000_0000 < -v < 0 < v < 0x8000_0000
  {
  }

  /** `test_IFNE` and `test_IFEQ`: `ifne` jumps for a drawn value, `ifeq` for zero. */
  lemma TestIFNEAndIFEQ(v: Int32)
    requires Drawn(v)
    ensures Run(Program(v, IFNE), 0, [], 7) == Some(1)
    ensures Run(Program(0, IFEQ), 0, [], 7) == Some(1)
  {
    Accepts(v, IFNE);
    Accepts(0, IFEQ);
  }

  /** `test_IFLT`: `iflt` jumps for the negation of a drawn value. */
  lemma TestIFLT(v: Int32)
    requires Drawn(v)
    ensures Run(Program(-v, IFLT), 0, [], 7) == Some(1)
  {
    var w: Int32 := -v;
    Accepts(w, IFLT);
  }

  /** `test_IFLE`: `ifle` jumps for the negation of a drawn value and for zero. */
  lemma TestIFLE(v: Int32)
    requires Drawn(v)
    ensures Run(Program(-v, IFLE), 0, [], 7) == Some(1)
    ensures Run(Program(0, IFLE), 0, [], 7) == Some(1)
  {
    var w: Int32 := -v;
    Accepts(w, IFLE);
    Accepts(0, IFLE);
  }

  /** `test_IFGT`: `ifgt` jumps for a drawn value. */
  lemma TestIFGT(v: Int32)
    requires Drawn(v)
    ensures Run(Program(v, IFGT), 0, [], 7) == Some(1)
  {
    Accepts(v, IFGT);
  }

  /** `test_IFGE`: `ifge` jumps for a drawn value and for zero. */
  lemma TestIFGE(v: Int32)
    requires Drawn(v)
    ensures Run(Program(v, IFGE), 0, [], 7) == Some(1)
    ensures Run(Program(0, IFGE), 0, [], 7) == Some(1)
  {
    Accepts(v, IFGE);
    Accepts(0, IFGE);
  }

  /**
   * The comparisons are exact: each `if<cond>` and the one for the opposite
   * condition (`ifeq`/`ifne`, `iflt`/`ifge`, `ifgt`/`ifle`) never both jump,
   * and one of them always does.
   */
  lemma OppositeConditions(v: Int32)
    ensures Jumps(IFEQ, v) != Jumps(IFNE, v)
    ensures Jumps(IFLT, v) != Jumps(IFGE, v)
    ensures Jumps(IFGT, v) != Jumps(IFLE, v)
  {
  }
}
