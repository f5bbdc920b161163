/** The BVH candidate walk of src/raytracer.cpp (getBVHList).

    The box test ray_box(node, e, d, near, far) is floating-point slab arithmetic
    whose result depends on the node's box and on the ray only (it ignores near
    and far); for the one ray being traced it is a predicate `test` on boxes. */
module Traverse {
  import opened Geometry
  import opened Schema
  import opened Bvh

  /** getBVHList: a leaf yields its object iff its own box passes; an internal node
      yields the list of its left child, then that of its right child, descending only
      into a child whose box passes. The root's own box is never tested. */
  function BVHList(n: Node, test: Box -> bool): seq<Object> {
    match n
    case Leaf(o, b) => if test(b) then [o] else []
    case Internal(l, r, _) =>
      (if test(l.box) then BVHList(l, test) else []) + (if test(r.box) then BVHList(r, test) else [])
  }

  /** The objects of the entries whose box passes, in order. */
  function Passing(s: seq<Entry>, test: Box -> bool): seq<Object> {
    if s == [] then []
    else (if test(s[0].box) then [s[0].obj] else []) + Passing(s[1..], test)
  }

  /** `a` is `b` with some elements dropped, order kept. */
  predicate SubseqOf<T(==)>(a: seq<T>, b: seq<T>)
    decreases |b|
  {
    if a == [] then true
    else if b == [] then false
    else (a[0] == b[0] && SubseqOf(a[1..], b[1..])) || SubseqOf(a, b[1..])
  }

  lemma {:induction false} SubseqOfRefl<T>(a: seq<T>)
    ensures SubseqOf(a, a)
    decreases |a|
  {
    if a != [] {
      SubseqOfRefl(a[1..]);
    }
  }

  lemma {:induction false} SubseqOfLonger<T>(a: seq<T>, b1: seq<T>, b2: seq<T>)
    requires SubseqOf(a, b2)
    ensures SubseqOf(a, b1 + b2)
    decreases |b1|
  {
    if b1 == [] {
      assert b1 + b2 == b2;
    } else if a != [] {
      SubseqOfLonger(a, b1[1..], b2);
      assert (b1 + b2)[1..] == b1[1..] + b2;
    }
  }

  /** Subsequences concatenate. */
  lemma {:induction false} SubseqOfConcat<T>(a1: seq<T>, b1: seq<T>, a2: seq<T>, b2: seq<T>)
    requires SubseqOf(a1, b1) && SubseqOf(a2, b2)
    ensures SubseqOf(a1 + a2, b1 + b2)
    decreases |b1|
  {
    if a1 == [] {
      assert a1 + a2 == a2;
      SubseqOfLonger(a2, b1, b2);
    } else {
      assert (b1 + b2)[1..] == b1[1..] + b2;
      if a1[0] == b1[0] && SubseqOf(a1[1..], b1[1..]) {
        SubseqOfConcat(a1[1..], b1[1..], a2, b2);
        assert (a1 + a2)[1..] == a1[1..] + a2;
      } else {
        SubseqOfConcat(a1, b1[1..], a2, b2);
      }
    }
  }

  lemma {:induction false} PassingConcat(a: seq<Entry>, b: seq<Entry>, test: Box -> bool)
    ensures Passing(a + b, test) == Passing(a, test) + Passing(b, test)
    decreases |a|
  {
    if a == [] {
      assert a + b == b;
    } else {
      assert (a + b)[0] == a[0];
      assert (a + b)[1..] == a[1..] + b;
      PassingConcat(a[1..], b, test);
      var head := if test(a[0].box) then [a[0].obj] else [];
      assert Passing(a + b, test) == head + Passing(a[1..] + b, test);
      assert head + (Passing(a[1..], test) + Passing(b, test)) == (head + Passing(a[1..], test)) + Passing(b, test);
    }
  }

  /** The passing objects are exactly the objects of passing entries. */
  lemma {:induction false} PassingMembers(s: seq<Entry>, test: Box -> bool)
    ensures forall o :: o in Passing(s, test) <==> exists e :: e in s && e.obj == o && test(e.box)
    decreases |s|
  {
    if s != [] {
      PassingMembers(s[1..], test);
      assert s == [s[0]] + s[1..];
    }
  }

  lemma {:induction false} PassingNone(s: seq<Entry>, test: Box -> bool)
    requires forall e :: e in s ==> !test(e.box)
    ensures Passing(s, test) == []
    decreases |s|
  {
    if s != [] {
      PassingNone(s[1..], test);
    }
  }

  /** Soundness: the walk returns, in leaf order, some of the objects of leaves whose box
      passes (each only if every box on its path passes as well). */
  lemma {:induction false} BVHListSound(n: Node, test: Box -> bool)
    ensures SubseqOf(BVHList(n, test), Passing(Leaves(n), test))
    ensures forall o :: o in BVHList(n, test) ==> exists e :: e in Leaves(n) && e.obj == o && test(e.box)
  {
    match n
    case Leaf(o, b) =>
      SubseqOfRefl(BVHList(n, test));
    case Internal(l, r, _) =>
      BVHListSound(l, test);
      BVHListSound(r, test);
      PassingConcat(Leaves(l), Leaves(r), test);
      SubseqOfConcat(if test(l.box) then BVHList(l, test) else [], Passing(Leaves(l), test),
                     if test(r.box) then BVHList(r, test) else [], Passing(Leaves(r), test));
  }

  /** When every box passes, the walk returns every leaf object, in order. */
  lemma {:induction false} BVHListAllPass(n: Node, test: Box -> bool)
    requires forall b :: test(b)
    ensures BVHList(n, test) == LeafObjects(n)
  {
    match n
    case Leaf(_, _) =>
    case Internal(l, r, _) =>
      BVHListAllPass(l, test);
      BVHListAllPass(r, test);
  }

  /** A box test that passes a box passes every box containing it, as an exact ray/box
      test does. */
  ghost predicate Monotone(test: Box -> bool) {
    forall outer: Box, inner: Box :: ContainsBox(outer, inner) && test(inner) ==> test(outer)
  }

  /** Completeness: over a tree whose boxes nest, with a monotone test, pruning loses
      nothing: the walk returns exactly the objects of the passing leaves, in leaf order. */
  lemma {:induction false} BVHListComplete(n: Node, test: Box -> bool)
    requires Nested(n) && Monotone(test)
    ensures BVHList(n, test) == Passing(Leaves(n), test)
  {
    match n
    case Leaf(o, b) =>
      assert Leaves(n)[1..] == [];
    case Internal(l, r, _) =>
      BVHListComplete(l, test);
      BVHListComplete(r, test);
      PassingConcat(Leaves(l), Leaves(r), test);
      if !test(l.box) {
        PrunedIsEmpty(l, test);
      }
      if !test(r.box) {
        PrunedIsEmpty(r, test);
      }
  }

  /** A subtree whose box fails a monotone test has no passing leaf. */
  lemma PrunedIsEmpty(n: Node, test: Box -> bool)
    requires Nested(n) && Monotone(test) && !test(n.box)
    ensures Passing(Leaves(n), test) == []
  {
    NestedCoversLeaves(n);
    PassingNone(Leaves(n), test);
  }

  /** getBVHList, appending each child's list to the result as the source does. */
  method GetBVHList(n: Node, test: Box -> bool) returns (list: seq<Object>)
    ensures list == BVHList(n, test)
  {
    match n
    case Leaf(o, b) =>
      if test(b) {
        list := [o];
      } else {
        list := [];
      }
    case Internal(l, r, _) =>
      list := [];
      if test(l.box) {
        var append := GetBVHList(l, test);
        list := list + append;
      }
      if test(r.box) {
        var append := GetBVHList(r, test);
        list := list + append;
      }
  }
}
