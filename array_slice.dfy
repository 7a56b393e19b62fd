/**
 * A window onto a Java array (`dev.xdark.ssvm.util.ArraySlice`): the window
 * starts at `fromIndex` and ends before `toIndex` of a backing array that
 * slices of the slice share.  Index `i` of the window is `i + fromIndex`
 * of the backing array, computed in Java `int` arithmetic; the bounds are
 * never checked against the window, only against the backing array.
 * Elements are `Option<V>`, `None` standing for a Java `null`.
 */
module Slices {
  import opened Wrappers
  import opened Values

  class ArraySlice<V> {
    const backing: array<Option<V>>
    const fromIndex: Int32
    const toIndex: Int32

    constructor(backing: array<Option<V>>, fromIndex: Int32, toIndex: Int32)
      ensures this.backing == backing && this.fromIndex == fromIndex && this.toIndex == toIndex
    {
      this.backing := backing;
      this.fromIndex := fromIndex;
      this.toIndex := toIndex;
    }

    /** `map`: the backing index of a window index. */
    function Map(index: Int32): (k: Int32)
      ensures (k - index - fromIndex) % 0x1_0000_0000 == 0
    {
      Wrap32(index + fromIndex)
    }

    /** `get`: the backing element at the mapped index; outside the backing array it raises. */
    function Get(index: Int32): (r: Result<Option<V>, Fault>)
      reads backing
      ensures r.Success? <==> 0 <= Map(index) < backing.Length
    {
      var k := Map(index);
      if 0 <= k < backing.Length then Success(backing[k]) else Failure(IndexOutOfBounds(k))
    }

    /** `set`: store at the mapped index of the shared backing array; outside it nothing is written and the store raises. */
    method Set(index: Int32, value: Option<V>) returns (r: Result<(), Fault>)
      modifies backing
      ensures var k := Map(index);
        && (0 <= k < backing.Length ==> r == Success(()) && backing[..] == old(backing[..])[k := value])
        && (!(0 <= k < backing.Length) ==> r == Failure(IndexOutOfBounds(k)) && backing[..] == old(backing[..]))
      ensures r.Success? ==> Get(index) == Success(value)
      ensures forall j: Int32 :: j != index ==> Get(j) == old(Get(j))
    {
      var k := Map(index);
      if !(0 <= k < backing.Length) {
        return Failure(IndexOutOfBounds(k));
      }
      backing[k] := value;
      forall j: Int32 | j != index ensures Get(j) == old(Get(j)) {
        if Map(j) == k {
          MapInjective(this, j, index);
        }
      }
      return Success(());
    }

    /** `length`: `toIndex - fromIndex` in `int` arithmetic. */
    function Length(): (n: Int32)
      ensures fromIndex <= toIndex && toIndex - fromIndex < 0x8000_0000 ==> n == toIndex - fromIndex
    {
      Wrap32(toIndex - fromIndex)
    }

    /**
     * `unwrap`, that is `Arrays.copyOfRange(array, fromIndex, toIndex)`: a
     * fresh array of `toIndex - fromIndex` elements copied from `fromIndex`
     * on, padded with `null` past the end of the backing array.  A negative
     * length raises `IllegalArgumentException`, a start outside the backing
     * array raises `ArrayIndexOutOfBoundsException`.
     */
    function Copy(): (r: Result<seq<Option<V>>, Fault>)
      reads backing
      ensures r.Success? ==> |r.value| == Length()
    {
      var n := Wrap32(toIndex - fromIndex);
      if n < 0 then Failure(IllegalArgument)
      else if !(0 <= fromIndex <= backing.Length) then Failure(IndexOutOfBounds(fromIndex))
      else Success(seq(n, i requires 0 <= i < n reads backing =>
                         if fromIndex + i < backing.Length then backing[fromIndex + i] else None))
    }

    method Unwrap() returns (r: Result<array<Option<V>>, Fault>)
      ensures Copy().Success? ==> r.Success? && fresh(r.value) && r.value[..] == Copy().value
      ensures Copy().Failure? ==> r == Failure(Copy().error)
    {
      var n := Wrap32(toIndex - fromIndex);
      if n < 0 {
        return Failure(IllegalArgument);
      }
      if !(0 <= fromIndex <= backing.Length) {
        return Failure(IndexOutOfBounds(fromIndex));
      }
      var src := backing;
      var from := fromIndex;
      var copy := new Option<V>[n](i reads src => if 0 <= i && from + i < src.Length then src[from + i] else None);
      return Success(copy);
    }

    /** `slice(a, b)`: a window of this window over the same backing array, with mapped bounds. */
    method Slice(a: Int32, b: Int32) returns (sub: ArraySlice<V>)
      ensures fresh(sub)
      ensures sub.backing == backing && sub.fromIndex == Map(a) && sub.toIndex == Map(b)
    {
      sub := new ArraySlice(backing, Map(a), Map(b));
    }
  }

  // ---------------------------------------------------------------------------
  // Properties
  // ---------------------------------------------------------------------------

  /** Distinct window indices map to distinct backing indices. */
  lemma MapInjective<V>(s: ArraySlice<V>, i: Int32, j: Int32)
    requires s.Map(i) == s.Map(j)
    ensures i == j
  {
    var f := s.fromIndex as int;
    UnMap(i, f);
    UnMap(j, f);
  }

  /** Taking the start off a mapped index gives the index back. */
  lemma UnMap(i: Int32, f: int)
    ensures Wrap32(Wrap32(i + f) - f) == i
  {
    WrapInner(i + f, -f);
    assert i + f + -f == i;
  }

  /**
   * A slice `sub` made by `parent.slice(a, b)` reads index `i` where the
   * parent reads index `a + i` (in `int` arithmetic), in every state of the
   * shared backing array; so a write through either is seen through the
   * other.  Its length is `b - a`.
   */
  lemma SliceShares<V>(parent: ArraySlice<V>, sub: ArraySlice<V>, a: Int32, b: Int32)
    requires sub.backing == parent.backing && sub.fromIndex == parent.Map(a) && sub.toIndex == parent.Map(b)
    ensures forall i: Int32 :: sub.Map(i) == parent.Map(Wrap32(a + i))
    ensures forall i: Int32 :: sub.Get(i) == parent.Get(Wrap32(a + i))
    ensures sub.Length() == Wrap32(b - a)
  {
    forall i: Int32 ensures sub.Map(i) == parent.Map(Wrap32(a + i)) {
      SliceMap(parent, a, i);
    }
    forall i: Int32 ensures sub.Get(i) == parent.Get(Wrap32(a + i)) {
      SliceMap(parent, a, i);
    }
    SliceLength(parent.fromIndex, a, b);
  }

  /** The distance between two mapped bounds is the distance between the bounds. */
  lemma SliceLength(f: int, a: int, b: int)
    ensures Wrap32(Wrap32(b + f) - Wrap32(a + f)) == Wrap32(b - a)
  {
    WrapInner(b + f, -(Wrap32(a + f) as int));
    WrapInnerNeg(a + f, b + f);
    assert b + f - (a + f) == b - a;
  }

  lemma SliceMap<V>(parent: ArraySlice<V>, a: Int32, i: Int32)
    ensures Wrap32(i + parent.Map(a)) == parent.Map(Wrap32(a + i))
  {
    var f := parent.fromIndex;
    WrapInner(a + f, i);
    WrapInner(a + i, f);
  }

  /**
   * What `unwrap` copies out of a window that starts inside its backing
   * array: the window's length in elements, element `i` being what `get(i)`
   * reads, or `null` where `get(i)` would run past the backing array.
   */
  lemma CopyAgreesWithGet<V>(s: ArraySlice<V>)
    requires 0 <= s.fromIndex <= s.toIndex && s.fromIndex <= s.backing.Length
    ensures s.Copy().Success? && |s.Copy().value| == s.toIndex - s.fromIndex
    ensures forall i: Int32 :: 0 <= i < s.toIndex - s.fromIndex ==>
      s.Copy().value[i] == (if s.Get(i).Success? then s.Get(i).value else None)
    ensures s.toIndex <= s.backing.Length ==> s.Copy().value == s.backing[s.fromIndex..s.toIndex]
  {
  }
}
