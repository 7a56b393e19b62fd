/**
 * The object graph the mark-and-sweep collector walks, its one-byte header
 * marks, and what recursive marking computes: the closure of a set of start
 * objects through objects that were not yet marked.
 */
module Reachability {
  import opened Wrappers
  import opened Values

  /** `MARK_NONE`, `MARK_SET` and `MARK_REF`: the values of an object's header byte. */
  const MARK_NONE: bv8 := 0
  const MARK_SET: bv8 := 1
  const MARK_REF: bv8 := 2

  /** The marks at which `setMark` stops: the object was already reached, or is pinned by a handle. */
  predicate Marked(b: bv8) { b == MARK_SET || b == MARK_REF }

  /** ASM's `Type.ARRAY` sort; `Type.OBJECT` is the only sort above it a field can have. */
  const SORT_ARRAY: int := 9

  /** A field of a layout: the sort of its type and the reference it holds when read as one. */
  datatype FieldSlot = FieldSlot(sort: int, value: Option<Ref>)

  /** What the collector sees of an object: an array and whether its component is primitive, or an instance and its fields. */
  datatype HeapObject =
    | ArrayObject(primitiveComponent: bool, elements: seq<Option<Ref>>)
    | InstanceObject(fields: seq<FieldSlot>)

  type Graph = map<Ref, HeapObject>
  type Headers = map<Ref, bv8>

  /** The object a possibly-null reference names, as a set. */
  function Opt(x: Option<Ref>): set<Ref> {
    if x.Some? then {x.value} else {}
  }

  /** The objects a sequence of possibly-null references names. */
  function Refs(s: seq<Option<Ref>>): (r: set<Ref>)
    ensures forall i :: 0 <= i < |s| && s[i].Some? ==> s[i].value in r
  {
    if s == [] then {} else Refs(s[..|s| - 1]) + Opt(s[|s| - 1])
  }

  /** The object a field contributes to marking: only fields of sort `ARRAY` or above are read as references. */
  function FieldRef(f: FieldSlot): set<Ref> {
    if f.sort >= SORT_ARRAY then Opt(f.value) else {}
  }

  /** The objects the reference-typed fields of a layout name. */
  function FieldRefs(fs: seq<FieldSlot>): (r: set<Ref>)
    ensures forall i :: 0 <= i < |fs| && fs[i].sort >= SORT_ARRAY && fs[i].value.Some? ==> fs[i].value.value in r
  {
    if fs == [] then {} else FieldRefs(fs[..|fs| - 1]) + FieldRef(fs[|fs| - 1])
  }

  /** The objects marking visits from `x`: every element of a reference array, none of a primitive array, the reference fields of an instance. */
  function Succ(g: Graph, x: Ref): set<Ref> {
    if x !in g then {}
    else match g[x]
      case ArrayObject(primitive, elements) => if primitive then {} else Refs(elements)
      case InstanceObject(fields) => FieldRefs(fields)
  }

  /** Every reference stored in the heap names an object of the heap. */
  ghost predicate Closed(g: Graph) {
    forall x, c :: x in g && c in Succ(g, x) ==> c in g
  }

  ghost predicate Unmarked(h: Headers, n: Ref) {
    n in h && !Marked(h[n])
  }

  /** A walk along references that only passes through unmarked objects. */
  ghost predicate IsPath(g: Graph, h: Headers, p: seq<Ref>) {
    && |p| > 0
    && (forall i :: 0 <= i < |p| ==> Unmarked(h, p[i]))
    && (forall i :: 0 <= i < |p| - 1 ==> p[i + 1] in Succ(g, p[i]))
  }

  /** `n` can be reached from a start object through unmarked objects only. */
  ghost predicate Reach(g: Graph, h: Headers, starts: set<Ref>, n: Ref) {
    exists p :: IsPath(g, h, p) && p[0] in starts && p[|p| - 1] == n
  }

  /**
   * The headers after marking from `starts` with `k`: every object reachable
   * through unmarked objects carries `k`, every other header is as it was.
   */
  ghost function Closure(g: Graph, h: Headers, starts: set<Ref>, k: bv8): (c: Headers)
    ensures c.Keys == h.Keys
  {
    map n | n in h :: if Reach(g, h, starts, n) then k else h[n]
  }

  ghost function UnmarkedSet(h: Headers): set<Ref> {
    set n | n in h && !Marked(h[n])
  }

  /** The number of unmarked objects, which marking decreases. */
  ghost function U(h: Headers): nat {
    |UnmarkedSet(h)|
  }

  /** One more reference names its own object on top of those of the prefix. */
  lemma RefsPrefix(s: seq<Option<Ref>>, i: nat)
    requires i < |s|
    ensures Refs(s[..i + 1]) == Refs(s[..i]) + Opt(s[i])
    ensures Opt(s[i]) <= Refs(s)
  {
    assert s[..i + 1][..i] == s[..i];
  }

  /** One more field adds its own reference to those of the prefix. */
  lemma FieldRefsPrefix(fs: seq<FieldSlot>, i: nat)
    requires i < |fs|
    ensures FieldRefs(fs[..i + 1]) == FieldRefs(fs[..i]) + FieldRef(fs[i])
    ensures FieldRef(fs[i]) <= FieldRefs(fs)
  {
    assert fs[..i + 1][..i] == fs[..i];
  }

  // ---------------------------------------------------------------------------
  // Paths
  // ---------------------------------------------------------------------------

  /** Two walks joined at a shared object form a walk. */
  lemma PathJoin(g: Graph, h: Headers, p: seq<Ref>, q: seq<Ref>)
    requires IsPath(g, h, p) && IsPath(g, h, q) && p[|p| - 1] == q[0]
    ensures IsPath(g, h, p + q[1..])
    ensures (p + q[1..])[0] == p[0] && (p + q[1..])[|p + q[1..]| - 1] == q[|q| - 1]
  {
    var r := p + q[1..];
    forall i | 0 <= i < |r| - 1
      ensures r[i + 1] in Succ(g, r[i])
    {
      if i < |p| - 1 {
      } else if i == |p| - 1 {
        assert r[i] == q[0] && r[i + 1] == q[1];
      } else {
        assert r[i] == q[i - |p| + 1] && r[i + 1] == q[i - |p| + 2];
      }
    }
  }

  /** A walk that stays away from `x` is still a walk once `x` is marked. */
  lemma PathAvoiding(g: Graph, h: Headers, p: seq<Ref>, x: Ref, k: bv8)
    requires IsPath(g, h, p) && x !in p
    ensures IsPath(g, h[x := k], p)
  {
  }

  /**
   * A walk out of `x` to another object has a suffix that starts at a
   * successor of `x` and never returns to it.
   */
  lemma {:induction false} LeaveStart(g: Graph, h: Headers, x: Ref, k: bv8, p: seq<Ref>)
    requires IsPath(g, h, p) && p[0] == x && p[|p| - 1] != x
    ensures Reach(g, h[x := k], Succ(g, x), p[|p| - 1])
    decreases |p|
  {
    var q := p[1..];
    if x in q {
      var j :| 0 <= j < |q| && q[j] == x;
      var rest := p[j + 1..];
      assert rest[0] == x;
      assert IsPath(g, h, rest);
      LeaveStart(g, h, x, k, rest);
    } else {
      assert IsPath(g, h, q);
      PathAvoiding(g, h, q, x, k);
      assert q[0] in Succ(g, x) && q[|q| - 1] == p[|p| - 1];
    }
  }

  // ---------------------------------------------------------------------------
  // Closure
  // ---------------------------------------------------------------------------

  /** Marking never unmarks: the unmarked objects after a closure are among those before. */
  lemma ClosureShrinks(g: Graph, h: Headers, starts: set<Ref>, k: bv8)
    requires Marked(k)
    ensures UnmarkedSet(Closure(g, h, starts, k)) <= UnmarkedSet(h)
    ensures U(Closure(g, h, starts, k)) <= U(h)
  {
    SubsetCard(UnmarkedSet(Closure(g, h, starts, k)), UnmarkedSet(h));
  }

  lemma {:induction false} SubsetCard(a: set<Ref>, b: set<Ref>)
    requires a <= b
    ensures |a| <= |b|
    decreases |b|
  {
    if a != {} {
      var x :| x in a;
      SubsetCard(a - {x}, b - {x});
    }
  }

  /** Marking one object with a mark takes it out of the unmarked objects, if it was there. */
  lemma MarkOne(h: Headers, x: Ref, k: bv8)
    requires x in h && Marked(k)
    ensures UnmarkedSet(h[x := k]) == UnmarkedSet(h) - {x}
    ensures Unmarked(h, x) ==> U(h[x := k]) == U(h) - 1
    ensures !Unmarked(h, x) ==> U(h[x := k]) == U(h)
  {
    assert UnmarkedSet(h[x := k]) == UnmarkedSet(h) - {x};
  }

  /** Marking from start objects that are all marked already changes nothing. */
  lemma ClosureOfMarked(g: Graph, h: Headers, starts: set<Ref>, k: bv8)
    requires forall s :: s in starts ==> !Unmarked(h, s)
    ensures Closure(g, h, starts, k) == h
  {
    assert forall n | n in h :: !Reach(g, h, starts, n);
  }

  /** Marking leaves every header that is already `SET` or `REF` as it was. */
  lemma ClosureKeepsMarked(g: Graph, h: Headers, starts: set<Ref>, k: bv8, n: Ref)
    requires n in h && Marked(h[n])
    ensures Closure(g, h, starts, k)[n] == h[n]
  {
  }

  /** An object still unmarked after a closure was unmarked before and is out of its reach. */
  lemma UnmarkedAfterClosure(g: Graph, h: Headers, a: set<Ref>, k: bv8, m: Ref)
    requires Marked(k) && Unmarked(Closure(g, h, a, k), m)
    ensures Unmarked(h, m) && !Reach(g, h, a, m)
  {
  }

  /** A walk through objects unmarked after a closure is a walk before it. */
  lemma PathBeforeClosure(g: Graph, h: Headers, a: set<Ref>, k: bv8, p: seq<Ref>)
    requires Marked(k) && IsPath(g, Closure(g, h, a, k), p)
    ensures IsPath(g, h, p)
  {
    forall i | 0 <= i < |p|
      ensures Unmarked(h, p[i])
    {
      UnmarkedAfterClosure(g, h, a, k, p[i]);
    }
  }

  /**
   * A walk from `a` or `b` either is a walk from `a`, or is still a walk
   * from `b` once the reach of `a` is marked: otherwise it crosses the reach
   * of `a`, which then leads on to its end.
   */
  lemma UnionSplit(g: Graph, h: Headers, a: set<Ref>, b: set<Ref>, k: bv8, n: Ref)
    requires Marked(k)
    ensures Reach(g, h, a + b, n) ==> Reach(g, h, a, n) || Reach(g, Closure(g, h, a, k), b, n)
  {
    var h1 := Closure(g, h, a, k);
    if p :| IsPath(g, h, p) && p[0] in a + b && p[|p| - 1] == n {
      if p[0] !in a && !IsPath(g, h1, p) {
        var i :| 0 <= i < |p| && !Unmarked(h1, p[i]);
        assert Reach(g, h, a, p[i]);
        var q :| IsPath(g, h, q) && q[0] in a && q[|q| - 1] == p[i];
        var tail := p[i..];
        assert IsPath(g, h, tail);
        PathJoin(g, h, q, tail);
      }
    }
  }

  /**
   * Marking from `a` and then from `b` marks exactly what marking from both
   * at once marks: the order in which roots are visited does not matter.
   */
  lemma ClosureUnion(g: Graph, h: Headers, a: set<Ref>, b: set<Ref>, k: bv8)
    requires Marked(k)
    ensures Closure(g, Closure(g, h, a, k), b, k) == Closure(g, h, a + b, k)
  {
    var h1 := Closure(g, h, a, k);
    var left := Closure(g, h1, b, k);
    var right := Closure(g, h, a + b, k);
    forall n | n in h
      ensures left[n] == right[n]
    {
      if Reach(g, h, a, n) {
        var p :| IsPath(g, h, p) && p[0] in a && p[|p| - 1] == n;
        assert p[0] in a + b;
      } else if Reach(g, h1, b, n) {
        var p :| IsPath(g, h1, p) && p[0] in b && p[|p| - 1] == n;
        PathBeforeClosure(g, h, a, k, p);
        assert p[0] in a + b;
      } else {
        UnionSplit(g, h, a, b, k, n);
      }
    }
  }

  /**
   * What `setMarkImpl` does on an unmarked object: marking from `x` is
   * marking `x` itself and then marking from each of its successors.
   */
  lemma ClosureUnfold(g: Graph, h: Headers, x: Ref, k: bv8)
    requires Unmarked(h, x) && Marked(k)
    ensures Closure(g, h, {x}, k) == Closure(g, h[x := k], Succ(g, x), k)
  {
    var h1 := h[x := k];
    var left := Closure(g, h, {x}, k);
    var right := Closure(g, h1, Succ(g, x), k);
    assert IsPath(g, h, [x]);
    forall n | n in h
      ensures left[n] == right[n]
    {
      if n != x {
        if Reach(g, h, {x}, n) {
          var p :| IsPath(g, h, p) && p[0] in {x} && p[|p| - 1] == n;
          LeaveStart(g, h, x, k, p);
        }
        if Reach(g, h1, Succ(g, x), n) {
          var q :| IsPath(g, h1, q) && q[0] in Succ(g, x) && q[|q| - 1] == n;
          assert IsPath(g, h, q);
          PathJoin(g, h, [x], [x] + q);
        }
      }
    }
  }

  /** Marking from no object changes nothing. */
  lemma ClosureOfNothing(g: Graph, h: Headers, k: bv8)
    ensures Closure(g, h, {}, k) == h
  {
    ClosureOfMarked(g, h, {}, k);
  }
}
