/**
 * Method metadata (`dev.xdark.ssvm.mirror.JavaMethod`): the method's owner,
 * its ASM node and descriptor, and the values derived from the descriptor,
 * each computed on first use and cached in a field.
 *
 * The descriptor parser (`org.objectweb.asm.Type.getMethodType`) is not part
 * of this model: each method carries it as the function `typeOf`.
 */
module Mirror {
  import opened Wrappers

  const ACC_STATIC: bv32 := 0x0008

  /** The descriptor of the annotation that marks a signature-polymorphic method (section 2.9.3 of the JVMS). */
  const POLYMORPHIC_SIGNATURE := "Ljava/lang/invoke/MethodHandle$PolymorphicSignature;"

  /** The sort of an ASM `Type`. */
  datatype Sort = VoidSort | BooleanSort | CharSort | ByteSort | ShortSort | IntSort
                | FloatSort | LongSort | DoubleSort | ArraySort | ObjectSort | MethodSort

  /** An ASM `Type`: its sort and its descriptor. */
  datatype JType = JType(sort: Sort, descriptor: string)

  /** `Type.getSize()`: the number of local-variable slots a value of the type takes (section 2.6.1 of the JVMS). */
  function Size(t: JType): (n: nat)
    ensures n == 2 <==> t.sort == LongSort || t.sort == DoubleSort
    ensures n == 0 <==> t.sort == VoidSort
    ensures n <= 2
  {
    match t.sort
    case VoidSort => 0
    case LongSort => 2
    case DoubleSort => 2
    case _ => 1
  }

  /** A method type: its argument types and its return type. */
  datatype MethodType = MethodType(arguments: seq<JType>, returnType: JType)

  /** An ASM `AnnotationNode`, of which only the descriptor is read. */
  datatype AnnotationNode = AnnotationNode(desc: string)

  /** An ASM `MethodNode`, which keeps `Object`'s identity `equals` and `hashCode`. */
  class MethodNode {
    const name: string
    const desc: string
    const access: bv32
    const signature: Option<string>
    /** `visibleAnnotations`, `null` when the method has none. */
    const visibleAnnotations: Option<seq<AnnotationNode>>
    /** `System.identityHashCode` of the node. */
    const identityHash: int

    constructor(name: string, desc: string, access: bv32, signature: Option<string>,
                visibleAnnotations: Option<seq<AnnotationNode>>, identityHash: int)
      ensures this.name == name && this.desc == desc && this.access == access
      ensures this.signature == signature && this.visibleAnnotations == visibleAnnotations
      ensures this.identityHash == identityHash
    {
      this.name := name;
      this.desc := desc;
      this.access := access;
      this.signature := signature;
      this.visibleAnnotations := visibleAnnotations;
      this.identityHash := identityHash;
    }
  }

  /** The owner class of a method, of which only its internal name is read. */
  class ClassMirror {
    const internalName: string

    constructor(internalName: string)
      ensures this.internalName == internalName
    {
      this.internalName := internalName;
    }
  }

  /** The slots a list of argument types takes, added up from the first argument on. */
  function ArgumentSlots(ts: seq<JType>): nat {
    if ts == [] then 0 else ArgumentSlots(ts[..|ts| - 1]) + Size(ts[|ts| - 1])
  }

  /** The number of arguments including `this`: the receiver's slot when the method is not static, then every argument's slots. */
  function MaxArgs(access: bv32, arguments: seq<JType>): nat {
    (if access & ACC_STATIC == 0 then 1 else 0) + ArgumentSlots(arguments)
  }

  /** Whether some annotation of a list has the descriptor `desc` (`stream().anyMatch`), scanning left to right. */
  function AnyMatch(annotations: seq<AnnotationNode>, desc: string): (b: bool)
    ensures b <==> exists i :: 0 <= i < |annotations| && annotations[i].desc == desc
  {
    if annotations == [] then false
    else annotations[0].desc == desc || AnyMatch(annotations[1..], desc)
  }

  /** Whether a method node is signature-polymorphic: it has visible annotations and one of them is `@PolymorphicSignature`. */
  function Polymorphic(node: MethodNode): bool {
    node.visibleAnnotations.Some? && AnyMatch(node.visibleAnnotations.value, POLYMORPHIC_SIGNATURE)
  }

  class JavaMethod {
    const owner: ClassMirror
    const node: MethodNode
    const desc: string
    const slot: int
    /** `Type.getMethodType`, the parser of method descriptors. */
    const typeOf: string -> MethodType

    /** The caches; `None`, `null` or -1 until first computed. */
    var methodType: Option<MethodType>
    var argumentTypes: array?<JType>
    var returnType: Option<JType>
    var polymorphic: Option<bool>
    var maxArgs: int

    /** Every cache is empty or holds the value derived from the descriptor and the node. */
    ghost predicate Valid()
      reads this, argumentTypes
    {
      && (methodType.Some? ==> methodType.value == typeOf(desc))
      && (argumentTypes != null ==> argumentTypes[..] == typeOf(desc).arguments)
      && (returnType.Some? ==> returnType.value == typeOf(desc).returnType)
      && (polymorphic.Some? ==> polymorphic.value == Polymorphic(node))
      && (maxArgs == -1 || maxArgs == MaxArgs(node.access, typeOf(desc).arguments))
    }

    /** `JavaMethod(owner, node, desc, slot)`: a method with a descriptor given apart from its node. */
    constructor(owner: ClassMirror, node: MethodNode, desc: string, slot: int, typeOf: string -> MethodType)
      ensures Valid()
      ensures this.owner == owner && this.node == node && this.desc == desc && this.slot == slot && this.typeOf == typeOf
      ensures methodType.None? && argumentTypes == null && returnType.None? && polymorphic.None? && maxArgs == -1
    {
      this.owner := owner;
      this.node := node;
      this.desc := desc;
      this.slot := slot;
      this.typeOf := typeOf;
      methodType := None;
      argumentTypes := null;
      returnType := None;
      polymorphic := None;
      maxArgs := -1;
    }

    /** `JavaMethod(owner, node, slot)`: the descriptor is the node's own. */
    constructor FromNode(owner: ClassMirror, node: MethodNode, slot: int, typeOf: string -> MethodType)
      ensures Valid()
      ensures this.owner == owner && this.node == node && desc == node.desc && this.slot == slot && this.typeOf == typeOf
      ensures methodType.None? && argumentTypes == null && returnType.None? && polymorphic.None? && maxArgs == -1
    {
      this.owner := owner;
      this.node := node;
      this.desc := node.desc;
      this.slot := slot;
      this.typeOf := typeOf;
      methodType := None;
      argumentTypes := null;
      returnType := None;
      polymorphic := None;
      maxArgs := -1;
    }

    /** `getType`: the parsed descriptor, parsed on the first call only. */
    method GetType() returns (t: MethodType)
      requires Valid()
      modifies this
      ensures Valid()
      ensures t == typeOf(desc) && methodType == Some(t)
      ensures argumentTypes == old(argumentTypes) && returnType == old(returnType)
      ensures polymorphic == old(polymorphic) && maxArgs == old(maxArgs)
    {
      if methodType.None? {
        methodType := Some(typeOf(desc));
      }
      return methodType.value;
    }

    /**
     * `getArgumentTypes`: the argument types, cached in an array on the first
     * call; every call hands out a fresh copy, so no caller can alter the
     * cache.
     */
    method GetArgumentTypes() returns (a: array<JType>)
      requires Valid()
      modifies this
      ensures Valid()
      ensures fresh(a) && a[..] == typeOf(desc).arguments
      ensures argumentTypes != null && a != argumentTypes
      ensures old(argumentTypes) != null ==> argumentTypes == old(argumentTypes)
      ensures old(argumentTypes) == null ==> methodType == Some(typeOf(desc))
      ensures old(argumentTypes) != null ==> methodType == old(methodType)
      ensures returnType == old(returnType) && polymorphic == old(polymorphic) && maxArgs == old(maxArgs)
    {
      if argumentTypes == null {
        var t := GetType();
        var args := t.arguments;
        argumentTypes := new JType[|args|](i requires 0 <= i < |args| => args[i]);
      }
      var cache := argumentTypes;
      a := new JType[cache.Length](i reads cache requires 0 <= i < cache.Length => cache[i]);
    }

    /** `getReturnType`: the return type, cached on the first call. */
    method GetReturnType() returns (r: JType)
      requires Valid()
      modifies this
      ensures Valid()
      ensures r == typeOf(desc).returnType && returnType == Some(r)
      ensures methodType == Some(typeOf(desc)) || (old(returnType).Some? && methodType == old(methodType))
      ensures argumentTypes == old(argumentTypes) && polymorphic == old(polymorphic) && maxArgs == old(maxArgs)
    {
      if returnType.None? {
        var t := GetType();
        returnType := Some(t.returnType);
      }
      return returnType.value;
    }

    /** `isPolymorphic`: whether the method carries `@PolymorphicSignature`, found once and cached. */
    method IsPolymorphic() returns (b: bool)
      requires Valid()
      modifies this
      ensures Valid()
      ensures b == Polymorphic(node) && polymorphic == Some(b)
      ensures b <==> node.visibleAnnotations.Some?
                     && exists i :: 0 <= i < |node.visibleAnnotations.value| && node.visibleAnnotations.value[i].desc == POLYMORPHIC_SIGNATURE
      ensures methodType == old(methodType) && argumentTypes == old(argumentTypes)
      ensures returnType == old(returnType) && maxArgs == old(maxArgs)
    {
      if polymorphic.None? {
        polymorphic := Some(node.visibleAnnotations.Some? && AnyMatch(node.visibleAnnotations.value, POLYMORPHIC_SIGNATURE));
      }
      return polymorphic.value;
    }

    /**
     * `getMaxArgs`: the slots the method's arguments take, `this` included;
     * the first call adds them up and caches the sum in place of the -1
     * sentinel, later calls return the cached sum.
     */
    method GetMaxArgs() returns (n: int)
      requires Valid()
      modifies this
      ensures Valid()
      ensures n == MaxArgs(node.access, typeOf(desc).arguments) && maxArgs == n
      ensures old(maxArgs) != -1 ==> methodType == old(methodType) && argumentTypes == old(argumentTypes)
      ensures returnType == old(returnType) && polymorphic == old(polymorphic)
    {
      if maxArgs != -1 {
        return maxArgs;
      }
      var x := 0;
      if node.access & ACC_STATIC == 0 {
        x := x + 1;
      }
      var base := x;
      var ts := GetArgumentTypes();
      var i := 0;
      while i < ts.Length
        invariant 0 <= i <= ts.Length
        invariant x == base + ArgumentSlots(ts[..i])
      {
        assert ts[..i + 1][..i] == ts[..i];
        x := x + Size(ts[i]);
        i := i + 1;
      }
      assert ts[..] == ts[..ts.Length];
      maxArgs := x;
      return x;
    }

    /**
     * `equals`: the same object, or another `JavaMethod` with an equal owner
     * and an equal node.  Owners and nodes compare by identity: neither class
     * overrides `equals`.
     */
    function Equals(o: object?): bool {
      this == o || (o is JavaMethod && (o as JavaMethod).owner == owner && (o as JavaMethod).node == node)
    }

    /** `hashCode`: the node's hash. */
    function HashCode(): int {
      node.identityHash
    }

    /** `toString`: the owner's internal name, `.`, the node's name and the descriptor. */
    function ToString(): string {
      owner.internalName + ['.'] + node.name + desc
    }
  }

  // ---------------------------------------------------------------------------
  // Properties
  // ---------------------------------------------------------------------------

  /** Adding up slots over two lists is adding up each. */
  lemma {:induction false} ArgumentSlotsAppend(a: seq<JType>, b: seq<JType>)
    ensures ArgumentSlots(a + b) == ArgumentSlots(a) + ArgumentSlots(b)
    decreases |b|
  {
    if b == [] {
      assert a + b == a;
    } else {
      assert (a + b)[..|a + b| - 1] == a + b[..|b| - 1];
      ArgumentSlotsAppend(a, b[..|b| - 1]);
    }
  }

  /** The number of `long` and `double` arguments. */
  function WideCount(ts: seq<JType>): nat {
    if ts == [] then 0 else WideCount(ts[1..]) + (if Size(ts[0]) == 2 then 1 else 0)
  }

  /**
   * Argument slots counted one argument at a time: one per argument and one
   * more per `long` or `double`, so between one and two per argument, when
   * there is no `void` among them (a method descriptor has none).
   */
  lemma {:induction false} ArgumentSlotsCount(ts: seq<JType>)
    requires forall i :: 0 <= i < |ts| ==> ts[i].sort != VoidSort
    ensures ArgumentSlots(ts) == |ts| + WideCount(ts)
    ensures |ts| <= ArgumentSlots(ts) <= 2 * |ts|
    decreases |ts|
  {
    if ts != [] {
      assert ts == [ts[0]] + ts[1..];
      ArgumentSlotsAppend([ts[0]], ts[1..]);
      assert [ts[0]][..0] == [];
      ArgumentSlotsCount(ts[1..]);
    }
  }

  /** `getMaxArgs` of a static method is its argument slots; an instance method has one more, for `this`. */
  lemma MaxArgsReceiver(access: bv32, arguments: seq<JType>)
    requires forall i :: 0 <= i < |arguments| ==> arguments[i].sort != VoidSort
    ensures access & ACC_STATIC != 0 ==> MaxArgs(access, arguments) == |arguments| + WideCount(arguments)
    ensures access & ACC_STATIC == 0 ==> MaxArgs(access, arguments) == 1 + |arguments| + WideCount(arguments)
  {
    ArgumentSlotsCount(arguments);
  }

  /** `equals` is an equivalence relation on methods, and every equal pair has equal hashes. */
  lemma EqualsEquivalence(a: JavaMethod, b: JavaMethod, c: JavaMethod)
    ensures a.Equals(a)
    ensures a.Equals(b) <==> b.Equals(a)
    ensures a.Equals(b) && b.Equals(c) ==> a.Equals(c)
    ensures a.Equals(b) ==> a.HashCode() == b.HashCode()
    ensures a.Equals(b) <==> a.owner == b.owner && a.node == b.node
  {
  }

  /** `equals` is false for `null` and for any object that is not a `JavaMethod`. */
  lemma EqualsOnlyMethods(a: JavaMethod, o: object?)
    ensures o == null ==> !a.Equals(o)
    ensures !(o is JavaMethod) ==> !a.Equals(o)
  {
  }

  /** `toString` splits back into the owner's internal name, a dot, the method's name and its descriptor. */
  lemma ToStringParts(m: JavaMethod)
    ensures var s := m.ToString(); var k := |m.owner.internalName|;
      && |s| == k + 1 + |m.node.name| + |m.desc|
      && s[..k] == m.owner.internalName
      && s[k] == '.'
      && s[k + 1..k + 1 + |m.node.name|] == m.node.name
      && s[k + 1 + |m.node.name|..] == m.desc
  {
    var s := m.ToString();
    var k := |m.owner.internalName|;
    assert s == m.owner.internalName + (['.'] + (m.node.name + m.desc));
  }
}
