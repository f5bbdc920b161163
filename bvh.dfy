/** Construction of the bounding-volume hierarchy (src/bvh.cpp).

    buildBVH turns every sphere and every mesh triangle into an entry
    (object, min corner, max corner); planes and any other kind are left out.
    subdivide then builds a binary tree: one entry is a leaf; otherwise the node
    stores the union box of its entries, sorts them along the longest axis of
    that box and recurses on the first size/2 entries and on the rest. */
module Bvh {
  import opened Geometry
  import opened Schema

  /** The +-1e30 sentinels the source starts its min/max folds from. */
  const BIG: real := 1.0e30
  const EmptyBounds := Box(Vec3(BIG, BIG, BIG), Vec3(-BIG, -BIG, -BIG))

  /** One element of the BVH input: the tuple (Object*, minBound, maxBound). */
  datatype Entry = Entry(obj: Object, box: Box)

  // ---------------------------------------------------------------------------
  // Per-object boxes

  /** A sphere's box: position - radius .. position + radius on every axis. */
  function SphereBox(position: Vec3, radius: real): Box {
    Box(Sub(position, Vec3(radius, radius, radius)), Add(position, Vec3(radius, radius, radius)))
  }

  /** The centre of a box, (max + min) / 2 on every axis. */
  function Centre(b: Box): Vec3 {
    Vec3((b.hi.x + b.lo.x) / 2.0, (b.hi.y + b.lo.y) / 2.0, (b.hi.z + b.lo.z) / 2.0)
  }

  lemma SquareGrows(r: real, u: real)
    requires 0.0 <= r
    ensures r < u ==> r * r < u * u
  {
    if r < u {
      var d := u - r;
      assert u * u == r * r + 2.0 * r * d + d * d;
      assert 0.0 < d * d;
      assert 0.0 <= r * d;
    }
  }

  lemma SquareBound(u: real, r: real)
    requires 0.0 <= r && u * u <= r * r
    ensures -r <= u <= r
  {
    SquareGrows(r, u);
    SquareGrows(r, -u);
  }

  /** Every point of a sphere of non-negative radius lies in its box, and the box is
      centred on the sphere's position. */
  lemma SphereBoxEncloses(position: Vec3, radius: real, p: Vec3)
    requires 0.0 <= radius
    requires Dot(Sub(p, position), Sub(p, position)) <= radius * radius
    ensures ContainsPoint(SphereBox(position, radius), p)
    ensures Centre(SphereBox(position, radius)) == position
  {
    var u := Sub(p, position);
    assert 0.0 <= u.x * u.x && 0.0 <= u.y * u.y && 0.0 <= u.z * u.z;
    SquareBound(u.x, radius);
    SquareBound(u.y, radius);
    SquareBound(u.z, radius);
  }

  /** A triangle's box: the min/max folds of bvh.cpp, started from the sentinels. */
  function TriangleBox(t: Triangle): Box {
    Box(Vec3(Min(t.c.x, Min(t.b.x, Min(t.a.x, BIG))),
             Min(t.c.y, Min(t.b.y, Min(t.a.y, BIG))),
             Min(t.c.z, Min(t.b.z, Min(t.a.z, BIG)))),
        Vec3(Max(t.c.x, Max(t.b.x, Max(t.a.x, -BIG))),
             Max(t.c.y, Max(t.b.y, Max(t.a.y, -BIG))),
             Max(t.c.z, Max(t.b.z, Max(t.a.z, -BIG)))))
  }

  /** Coordinates strictly inside the sentinel range. */
  predicate InRange(v: Vec3) {
    -BIG <= v.x <= BIG && -BIG <= v.y <= BIG && -BIG <= v.z <= BIG
  }

  /** The triangle box holds all three vertices; within the sentinel range it is exactly the
      componentwise minimum and maximum of the vertices. */
  lemma TriangleBoxIsHull(t: Triangle)
    ensures ContainsPoint(TriangleBox(t), t.a)
    ensures ContainsPoint(TriangleBox(t), t.b)
    ensures ContainsPoint(TriangleBox(t), t.c)
    ensures InRange(t.a) && InRange(t.b) && InRange(t.c) ==>
      TriangleBox(t) == Box(MinV(MinV(t.a, t.b), t.c), MaxV(MaxV(t.a, t.b), t.c))
  {
  }

  /** The entry for one mesh triangle: a new MTriangle with the mesh's material whose
      midPoint is set to the centre of the triangle's box. */
  function TriangleEntry(material: Material, t: Triangle): (e: Entry)
    ensures e.obj.MTriangle? && e.obj.material == material && e.obj.triangle == t
    ensures e.box == TriangleBox(t) && e.obj.midPoint == Centre(e.box)
  {
    var box := TriangleBox(t);
    Entry(NewMTriangle(material, t).(midPoint := Centre(box)), box)
  }

  function MeshEntries(material: Material, ts: seq<Triangle>): seq<Entry>
    decreases |ts|
  {
    if ts == [] then [] else MeshEntries(material, ts[..|ts| - 1]) + [TriangleEntry(material, ts[|ts| - 1])]
  }

  /** The entries one scene object contributes: one per sphere, one per mesh triangle,
      none for anything else. */
  function ObjectEntries(o: Object): seq<Entry> {
    match o
    case Sphere(_, radius, position) => [Entry(o, SphereBox(position, radius))]
    case Mesh(material, triangles) => MeshEntries(material, triangles)
    case _ => []
  }

  /** The BVH input buildBVH assembles, in push_back order. */
  function Entries(objects: seq<Object>): seq<Entry>
    decreases |objects|
  {
    if objects == [] then []
    else Entries(objects[..|objects| - 1]) + ObjectEntries(objects[|objects| - 1])
  }

  function SphereCount(objects: seq<Object>): nat
    decreases |objects|
  {
    if objects == [] then 0
    else SphereCount(objects[..|objects| - 1]) + (if objects[|objects| - 1].Sphere? then 1 else 0)
  }

  function TriangleCount(objects: seq<Object>): nat
    decreases |objects|
  {
    if objects == [] then 0
    else
      var o := objects[|objects| - 1];
      TriangleCount(objects[..|objects| - 1]) + (if o.Mesh? then |o.triangles| else 0)
  }

  lemma {:induction false} MeshEntriesCount(material: Material, ts: seq<Triangle>)
    ensures |MeshEntries(material, ts)| == |ts|
    decreases |ts|
  {
    if ts != [] {
      MeshEntriesCount(material, ts[..|ts| - 1]);
    }
  }

  /** One entry per sphere and one per mesh triangle. */
  lemma {:induction false} EntriesCount(objects: seq<Object>)
    ensures |Entries(objects)| == SphereCount(objects) + TriangleCount(objects)
    decreases |objects|
  {
    if objects != [] {
      EntriesCount(objects[..|objects| - 1]);
      var o := objects[|objects| - 1];
      if o.Mesh? {
        MeshEntriesCount(o.material, o.triangles);
      }
    }
  }

  /** What an entry of the BVH input is: a sphere of the scene with its box, or a triangle of
      one of the scene's meshes, carrying that mesh's material, with its box and midpoint. */
  ghost predicate FromScene(e: Entry, objects: seq<Object>) {
    match e.obj
    case Sphere(_, radius, position) => e.obj in objects && e.box == SphereBox(position, radius)
    case MTriangle(material, t, midPoint) =>
      e.box == TriangleBox(t) && midPoint == Centre(e.box) &&
      exists m :: m in objects && m.Mesh? && m.material == material && t in m.triangles
    case _ => false
  }

  lemma {:induction false} MeshEntriesFromScene(m: Object, ts: seq<Triangle>, objects: seq<Object>)
    requires m in objects && m.Mesh?
    requires forall t :: t in ts ==> t in m.triangles
    ensures forall e :: e in MeshEntries(m.material, ts) ==> FromScene(e, objects)
    decreases |ts|
  {
    if ts != [] {
      MeshEntriesFromScene(m, ts[..|ts| - 1], objects);
      assert ts[|ts| - 1] in ts;
    }
  }

  /** Planes and meshes never enter the BVH: every entry is a sphere or a mesh triangle of
      the scene, with the box buildBVH computes for it. */
  lemma {:induction false} EntriesFromScene(objects: seq<Object>)
    ensures forall e :: e in Entries(objects) ==> FromScene(e, objects)
    decreases |objects|
  {
    if objects != [] {
      var init := objects[..|objects| - 1];
      var o := objects[|objects| - 1];
      EntriesFromScene(init);
      forall e | e in Entries(init) ensures FromScene(e, objects) {
        assert FromScene(e, init);
        match e.obj
        case Sphere(_, _, _) =>
        case MTriangle(material, t, _) =>
          var m :| m in init && m.Mesh? && m.material == material && t in m.triangles;
          assert m in objects;
      }
      if o.Mesh? {
        MeshEntriesFromScene(o, o.triangles, objects);
      }
    }
  }

  lemma {:induction false} MeshEntriesCover(material: Material, ts: seq<Triangle>)
    ensures forall t :: t in ts ==> TriangleEntry(material, t) in MeshEntries(material, ts)
    decreases |ts|
  {
    if ts != [] {
      var init := ts[..|ts| - 1];
      MeshEntriesCover(material, init);
      assert ts == init + [ts[|ts| - 1]];
    }
  }

  /** The converse: every sphere of the scene enters with its box, and every triangle of
      every scene mesh enters as an MTriangle with that mesh's material. */
  lemma {:induction false} EntriesCoverScene(objects: seq<Object>)
    ensures forall o :: o in objects && o.Sphere? ==> Entry(o, SphereBox(o.position, o.radius)) in Entries(objects)
    ensures forall m, t :: m in objects && m.Mesh? && t in m.triangles ==>
      TriangleEntry(m.material, t) in Entries(objects)
    decreases |objects|
  {
    if objects != [] {
      var init := objects[..|objects| - 1];
      var last := objects[|objects| - 1];
      EntriesCoverScene(init);
      assert objects == init + [last];
      assert Entries(objects) == Entries(init) + ObjectEntries(last);
      if last.Mesh? {
        MeshEntriesCover(last.material, last.triangles);
      }
    }
  }

  // ---------------------------------------------------------------------------
  // Ordering (compareAxis and std::sort)

  /** The coordinate compareAxis sorts by: the sphere's centre or the triangle's midpoint on
      the axis; 0 for any other kind. */
  function SortKey(axis: nat, e: Entry): real
    requires axis < 3
  {
    match e.obj
    case Sphere(_, _, position) => At(position, axis)
    case MTriangle(_, _, midPoint) => At(midPoint, axis)
    case _ => 0.0
  }

  /** compareAxis(axis, a, b). */
  predicate CompareAxis(axis: nat, a: Entry, b: Entry)
    requires axis < 3
  {
    SortKey(axis, a) < SortKey(axis, b)
  }

  /** compareAxis is a strict weak ordering, as std::sort demands of its comparator. */
  lemma CompareAxisIsStrictWeakOrder(axis: nat, a: Entry, b: Entry, c: Entry)
    requires axis < 3
    ensures !CompareAxis(axis, a, a)
    ensures CompareAxis(axis, a, b) && CompareAxis(axis, b, c) ==> CompareAxis(axis, a, c)
    ensures !CompareAxis(axis, a, b) && !CompareAxis(axis, b, a) &&
            !CompareAxis(axis, b, c) && !CompareAxis(axis, c, b) ==>
            !CompareAxis(axis, a, c) && !CompareAxis(axis, c, a)
  {
  }

  /** No element compares less than an element before it. */
  predicate SortedBy(axis: nat, s: seq<Entry>)
    requires axis < 3
  {
    forall i, j :: 0 <= i < j < |s| ==> !CompareAxis(axis, s[j], s[i])
  }

  function Insert(axis: nat, e: Entry, s: seq<Entry>): (r: seq<Entry>)
    requires axis < 3
    requires SortedBy(axis, s)
    ensures SortedBy(axis, r)
    ensures multiset(r) == multiset(s) + multiset{e}
    decreases |s|
  {
    if s == [] || !CompareAxis(axis, s[0], e) then
      [e] + s
    else
      var rest := Insert(axis, e, s[1..]);
      assert s == [s[0]] + s[1..];
      assert forall x :: x in rest ==> x in multiset(s[1..]) + multiset{e};
      assert forall x :: x in rest ==> !CompareAxis(axis, x, s[0]);
      [s[0]] + rest
  }

  /** The sorted order std::sort produces with compareAxis. std::sort is not stable, so the
      model promises only what std::sort does: an ordering by the key that permutes the input.
      Insertion sort is one such ordering. */
  function SortByAxis(axis: nat, s: seq<Entry>): (r: seq<Entry>)
    requires axis < 3
    ensures SortedBy(axis, r)
    ensures multiset(r) == multiset(s)
    ensures |r| == |s|
    decreases |s|
  {
    if s == [] then []
    else
      assert s == [s[0]] + s[1..];
      Insert(axis, s[0], SortByAxis(axis, s[1..]))
  }

  // ---------------------------------------------------------------------------
  // Union box and longest axis

  /** One step of the global-bound loop: grow the running box by an entry's box. */
  function Grow(acc: Box, b: Box): Box {
    Box(MinV(acc.lo, b.lo), MaxV(acc.hi, b.hi))
  }

  /** globalMinBound/globalMaxBound after the loop over the entries. */
  function Bounds(s: seq<Entry>): Box
    decreases |s|
  {
    if s == [] then EmptyBounds else Grow(Bounds(s[..|s| - 1]), s[|s| - 1].box)
  }

  lemma ContainsBoxTransitive(a: Box, b: Box, c: Box)
    requires ContainsBox(a, b) && ContainsBox(b, c)
    ensures ContainsBox(a, c)
  {
  }

  /** The union box contains every entry's box (and the sentinel box it starts from). */
  lemma {:induction false} BoundsContainsAll(s: seq<Entry>)
    ensures ContainsBox(Bounds(s), EmptyBounds)
    ensures forall e :: e in s ==> ContainsBox(Bounds(s), e.box)
    decreases |s|
  {
    if s != [] {
      var init := s[..|s| - 1];
      BoundsContainsAll(init);
      assert s == init + [s[|s| - 1]];
      forall e | e in s ensures ContainsBox(Bounds(s), e.box) {
        if e in init {
          ContainsBoxTransitive(Bounds(s), Bounds(init), e.box);
        }
      }
    }
  }

  /** Any box that contains every entry's box and the sentinel box contains the union box. */
  lemma {:induction false} BoundsLeast(s: seq<Entry>, b: Box)
    requires ContainsBox(b, EmptyBounds)
    requires forall e :: e in s ==> ContainsBox(b, e.box)
    ensures ContainsBox(b, Bounds(s))
    decreases |s|
  {
    if s != [] {
      var init := s[..|s| - 1];
      assert s == init + [s[|s| - 1]];
      BoundsLeast(init, b);
    }
  }

  /** Entry boxes whose min corner is at most 1e30 and max corner at least -1e30 on
      every axis: the sentinels then never survive the min/max fold. */
  predicate BoxInRange(b: Box) {
    LessEq(b.lo, EmptyBounds.lo) && LessEq(EmptyBounds.hi, b.hi)
  }

  /** For a non-empty input within the sentinel range the union box is the smallest box
      containing every entry's box: the componentwise min and max over the entries. */
  lemma {:induction false} BoundsTight(s: seq<Entry>, b: Box)
    requires s != []
    requires forall e :: e in s ==> BoxInRange(e.box)
    requires forall e :: e in s ==> ContainsBox(b, e.box)
    ensures ContainsBox(b, Bounds(s))
    decreases |s|
  {
    var init := s[..|s| - 1];
    assert s == init + [s[|s| - 1]];
    if init != [] {
      BoundsTight(init, b);
    } else {
      assert Bounds(s) == s[|s| - 1].box;
    }
  }

  /** The axis subdivide sorts along: y if x < y and z < y; else z if x < z and y < z; else x.
      The chosen axis has a maximal extent, except when y and z tie above x: then x is
      chosen although it is the shortest. */
  function LongestAxis(extent: Vec3): (axis: nat)
    ensures axis < 3
    ensures !(extent.y == extent.z && extent.x < extent.y) ==>
      At(extent, axis) >= extent.x && At(extent, axis) >= extent.y && At(extent, axis) >= extent.z
    ensures extent.y == extent.z && extent.x < extent.y ==> axis == 0
    ensures axis == 0 <==> !(extent.x < extent.y && extent.z < extent.y) && !(extent.x < extent.z && extent.y < extent.z)
  {
    if extent.x < extent.y && extent.z < extent.y then 1
    else if extent.x < extent.z && extent.y < extent.z then 2
    else 0
  }

  // ---------------------------------------------------------------------------
  // The hierarchy

  /** The tree subdivide builds. The source recurses forever on an empty input (both halves
      of an empty vector are empty), so a non-empty input is required. */
  function Hierarchy(s: seq<Entry>): Node
    requires |s| > 0
    decreases |s|
  {
    if |s| == 1 then Leaf(s[0].obj, s[0].box)
    else
      var box := Bounds(s);
      var axis := LongestAxis(Sub(box.hi, box.lo));
      var sorted := SortByAxis(axis, s);
      var half := |sorted| / 2;
      Internal(Hierarchy(sorted[..half]), Hierarchy(sorted[half..]), box)
  }

  /** The leaves of a tree, left to right, as entries. */
  function Leaves(n: Node): seq<Entry> {
    match n
    case Leaf(o, b) => [Entry(o, b)]
    case Internal(l, r, _) => Leaves(l) + Leaves(r)
  }

  /** The objects of the leaves, left to right. */
  function LeafObjects(n: Node): seq<Object> {
    match n
    case Leaf(o, _) => [o]
    case Internal(l, r, _) => LeafObjects(l) + LeafObjects(r)
  }

  lemma {:induction false} LeafObjectsAreLeaves(n: Node)
    ensures |LeafObjects(n)| == |Leaves(n)|
    ensures forall i :: 0 <= i < |Leaves(n)| ==> LeafObjects(n)[i] == Leaves(n)[i].obj
  {
    match n
    case Leaf(_, _) =>
    case Internal(l, r, _) =>
      LeafObjectsAreLeaves(l);
      LeafObjectsAreLeaves(r);
  }

  /** Every internal node's box contains both children's boxes, all the way down. */
  ghost predicate Nested(n: Node) {
    match n
    case Leaf(_, _) => true
    case Internal(l, r, b) => ContainsBox(b, l.box) && ContainsBox(b, r.box) && Nested(l) && Nested(r)
  }

  /** In a nested tree every node's box contains the box of every leaf below it. */
  lemma {:induction false} NestedCoversLeaves(n: Node)
    requires Nested(n)
    ensures forall e :: e in Leaves(n) ==> ContainsBox(n.box, e.box)
  {
    match n
    case Leaf(_, _) =>
    case Internal(l, r, b) =>
      NestedCoversLeaves(l);
      NestedCoversLeaves(r);
      forall e | e in Leaves(n) ensures ContainsBox(b, e.box) {
        if e in Leaves(l) {
          ContainsBoxTransitive(b, l.box, e.box);
        } else {
          ContainsBoxTransitive(b, r.box, e.box);
        }
      }
  }

  lemma SplitMultiset(s: seq<Entry>, k: nat)
    requires k <= |s|
    ensures multiset(s[..k]) + multiset(s[k..]) == multiset(s)
  {
    assert s == s[..k] + s[k..];
  }

  /** The leaves of the tree are a permutation of the input. */
  lemma {:induction false} HierarchyLeaves(s: seq<Entry>)
    requires |s| > 0
    ensures multiset(Leaves(Hierarchy(s))) == multiset(s)
    ensures |Leaves(Hierarchy(s))| == |s|
    decreases |s|
  {
    if |s| > 1 {
      var box := Bounds(s);
      var axis := LongestAxis(Sub(box.hi, box.lo));
      var sorted := SortByAxis(axis, s);
      var half := |sorted| / 2;
      HierarchyLeaves(sorted[..half]);
      HierarchyLeaves(sorted[half..]);
      SplitMultiset(sorted, half);
    }
    assert |multiset(Leaves(Hierarchy(s)))| == |multiset(s)|;
  }

  /** A single entry becomes a leaf carrying that object and its own box unchanged. */
  lemma HierarchySingleton(e: Entry)
    ensures Hierarchy([e]) == Leaf(e.obj, e.box)
    ensures Leaves(Hierarchy([e])) == [e]
  {
  }

  /** Every node contains its children's boxes; the root's box contains the box of every input
      entry; an internal root's box is the union box of the input. */
  lemma {:induction false} HierarchyNested(s: seq<Entry>)
    requires |s| > 0
    ensures Nested(Hierarchy(s))
    ensures forall e :: e in s ==> ContainsBox(Hierarchy(s).box, e.box)
    ensures |s| > 1 ==> Hierarchy(s).box == Bounds(s)
    ensures |s| == 1 ==> Hierarchy(s).box == s[0].box
    decreases |s|
  {
    if |s| > 1 {
      var box := Bounds(s);
      var axis := LongestAxis(Sub(box.hi, box.lo));
      var sorted := SortByAxis(axis, s);
      var half := |sorted| / 2;
      var left, right := sorted[..half], sorted[half..];
      HierarchyNested(left);
      HierarchyNested(right);
      BoundsContainsAll(s);
      SplitMultiset(sorted, half);
      assert forall e :: e in left ==> e in multiset(s);
      assert forall e :: e in right ==> e in multiset(s);
      ChildInside(left, box);
      ChildInside(right, box);
    }
  }

  /** A child built from entries that all lie in `box` (which contains the sentinel box)
      has its box inside `box`. */
  lemma ChildInside(part: seq<Entry>, box: Box)
    requires |part| > 0
    requires ContainsBox(box, EmptyBounds)
    requires forall e :: e in part ==> ContainsBox(box, e.box)
    requires |part| > 1 ==> Hierarchy(part).box == Bounds(part)
    requires |part| == 1 ==> Hierarchy(part).box == part[0].box
    ensures ContainsBox(box, Hierarchy(part).box)
  {
    if |part| > 1 {
      BoundsLeast(part, box);
    } else {
      assert part[0] in part;
    }
  }

  /** The median split: the left child holds floor(n/2) entries and the right child the rest,
      both non-empty, and on the sort axis no left entry lies after a right entry. */
  lemma HierarchySplit(s: seq<Entry>)
    requires |s| >= 2
    ensures Hierarchy(s).Internal?
    ensures |Leaves(Hierarchy(s).left)| == |s| / 2 >= 1
    ensures |Leaves(Hierarchy(s).right)| == |s| - |s| / 2 >= 1
    ensures var box := Bounds(s); var axis := LongestAxis(Sub(box.hi, box.lo));
      forall x, y :: x in Leaves(Hierarchy(s).left) && y in Leaves(Hierarchy(s).right) ==>
        SortKey(axis, x) <= SortKey(axis, y)
  {
    var box := Bounds(s);
    var axis := LongestAxis(Sub(box.hi, box.lo));
    var sorted := SortByAxis(axis, s);
    var half := |sorted| / 2;
    var left, right := sorted[..half], sorted[half..];
    assert Hierarchy(s) == Internal(Hierarchy(left), Hierarchy(right), box);
    HierarchyLeaves(left);
    HierarchyLeaves(right);
    SortedHalves(axis, sorted, half);
    OrderedUnderPermutation(axis, left, right, Leaves(Hierarchy(left)), Leaves(Hierarchy(right)));
  }

  /** Reordering either side keeps every left entry at or below every right entry. */
  lemma OrderedUnderPermutation(axis: nat, left: seq<Entry>, right: seq<Entry>, l: seq<Entry>, r: seq<Entry>)
    requires axis < 3
    requires multiset(l) == multiset(left) && multiset(r) == multiset(right)
    requires forall x, y :: x in left && y in right ==> SortKey(axis, x) <= SortKey(axis, y)
    ensures forall x, y :: x in l && y in r ==> SortKey(axis, x) <= SortKey(axis, y)
  {
    forall x, y | x in l && y in r
      ensures SortKey(axis, x) <= SortKey(axis, y)
    {
      assert x in multiset(l);
      assert y in multiset(r);
    }
  }

  /** In a sorted sequence no entry of a prefix lies after an entry of the rest. */
  lemma SortedHalves(axis: nat, sorted: seq<Entry>, half: nat)
    requires axis < 3 && SortedBy(axis, sorted) && half <= |sorted|
    ensures forall x, y :: x in sorted[..half] && y in sorted[half..] ==> SortKey(axis, x) <= SortKey(axis, y)
  {
    forall x, y | x in sorted[..half] && y in sorted[half..]
      ensures SortKey(axis, x) <= SortKey(axis, y)
    {
      var i :| 0 <= i < half && sorted[..half][i] == x;
      var j :| 0 <= j < |sorted| - half && sorted[half..][j] == y;
      assert sorted[i] == x && sorted[half + j] == y;
    }
  }

  /** buildBVH(objects): the hierarchy over the entries; the caller must supply at least one
      sphere or mesh triangle. */
  function BuildHierarchy(objects: seq<Object>): Node
    requires |Entries(objects)| > 0
  {
    Hierarchy(Entries(objects))
  }

  /** The leaves of the built tree are exactly the entries (as a multiset): every sphere and
      every mesh triangle of the scene, once each, and nothing else. */
  lemma BuildHierarchyLeaves(objects: seq<Object>)
    requires |Entries(objects)| > 0
    ensures multiset(Leaves(BuildHierarchy(objects))) == multiset(Entries(objects))
    ensures |Leaves(BuildHierarchy(objects))| == SphereCount(objects) + TriangleCount(objects)
    ensures forall e :: e in Leaves(BuildHierarchy(objects)) ==> FromScene(e, objects)
    ensures Nested(BuildHierarchy(objects))
  {
    HierarchyLeaves(Entries(objects));
    EntriesCount(objects);
    EntriesFromScene(objects);
    HierarchyNested(Entries(objects));
    forall e | e in Leaves(BuildHierarchy(objects)) ensures FromScene(e, objects) {
      assert e in multiset(Entries(objects));
    }
  }

  // ---------------------------------------------------------------------------
  // The imperative code of bvh.cpp

  /** The global-bound loop of subdivide. */
  method GlobalBounds(entries: seq<Entry>) returns (b: Box)
    ensures b == Bounds(entries)
  {
    var globalMinBound := EmptyBounds.lo;
    var globalMaxBound := EmptyBounds.hi;
    for i := 0 to |entries|
      invariant Box(globalMinBound, globalMaxBound) == Bounds(entries[..i])
    {
      var current := entries[i].box;
      assert entries[..i + 1][..i] == entries[..i];
      globalMinBound := globalMinBound.(x := Min(globalMinBound.x, current.lo.x));
      globalMinBound := globalMinBound.(y := Min(globalMinBound.y, current.lo.y));
      globalMinBound := globalMinBound.(z := Min(globalMinBound.z, current.lo.z));
      globalMaxBound := globalMaxBound.(x := Max(globalMaxBound.x, current.hi.x));
      globalMaxBound := globalMaxBound.(y := Max(globalMaxBound.y, current.hi.y));
      globalMaxBound := globalMaxBound.(z := Max(globalMaxBound.z, current.hi.z));
    }
    assert entries[..|entries|] == entries;
    b := Box(globalMinBound, globalMaxBound);
  }

  /** subdivide(bvhObjects). */
  method Subdivide(entries: seq<Entry>) returns (node: Node)
    requires |entries| > 0
    ensures node == Hierarchy(entries)
    decreases |entries|
  {
    if |entries| == 1 {
      return Leaf(entries[0].obj, entries[0].box);
    }
    var box := GlobalBounds(entries);
    var longestAxis := LongestAxis(Sub(box.hi, box.lo));
    var sorted := SortByAxis(longestAxis, entries);
    var half := |sorted| / 2;
    var left := Subdivide(sorted[..half]);
    var right := Subdivide(sorted[half..]);
    node := Internal(left, right, box);
  }

  /** The box loop for one mesh triangle, exactly as bvh.cpp writes it. */
  method TriangleBounds(t: Triangle) returns (b: Box)
    ensures b == TriangleBox(t)
  {
    var minBound := EmptyBounds.lo;
    var maxBound := EmptyBounds.hi;
    minBound := minBound.(x := Min(t.a.x, minBound.x));
    minBound := minBound.(x := Min(t.b.x, minBound.x));
    minBound := minBound.(x := Min(t.c.x, minBound.x));
    minBound := minBound.(y := Min(t.a.y, minBound.y));
    minBound := minBound.(y := Min(t.b.y, minBound.y));
    minBound := minBound.(y := Min(t.c.y, minBound.y));
    minBound := minBound.(z := Min(t.a.z, minBound.z));
    minBound := minBound.(z := Min(t.b.z, minBound.z));
    minBound := minBound.(z := Min(t.c.z, minBound.z));
    maxBound := maxBound.(x := Max(t.a.x, maxBound.x));
    maxBound := maxBound.(x := Max(t.b.x, maxBound.x));
    maxBound := maxBound.(x := Max(t.c.x, maxBound.x));
    maxBound := maxBound.(y := Max(t.a.y, maxBound.y));
    maxBound := maxBound.(y := Max(t.b.y, maxBound.y));
    maxBound := maxBound.(y := Max(t.c.y, maxBound.y));
    maxBound := maxBound.(z := Max(t.a.z, maxBound.z));
    maxBound := maxBound.(z := Max(t.b.z, maxBound.z));
    maxBound := maxBound.(z := Max(t.c.z, maxBound.z));
    b := Box(minBound, maxBound);
  }

  /** The inner loop of buildBVH over one mesh's triangles, pushing one MTriangle entry each. */
  method PushMeshEntries(bvhObjects: seq<Entry>, material: Material, triangles: seq<Triangle>)
    returns (r: seq<Entry>)
    ensures r == bvhObjects + MeshEntries(material, triangles)
  {
    r := bvhObjects;
    for j := 0 to |triangles|
      invariant r == bvhObjects + MeshEntries(material, triangles[..j])
    {
      assert triangles[..j + 1][..j] == triangles[..j];
      var box := TriangleBounds(triangles[j]);
      var mTriangle := NewMTriangle(material, triangles[j]);
      mTriangle := mTriangle.(midPoint := Centre(box));
      r := r + [Entry(mTriangle, box)];
    }
    assert triangles[..|triangles|] == triangles;
  }

  /** buildBVH(objects): collect the entries in two nested loops, then subdivide. */
  method BuildBVH(objects: seq<Object>) returns (root: Node)
    requires |Entries(objects)| > 0
    ensures root == BuildHierarchy(objects)
  {
    var bvhObjects: seq<Entry> := [];
    for i := 0 to |objects|
      invariant bvhObjects == Entries(objects[..i])
    {
      var obj := objects[i];
      assert objects[..i + 1][..i] == objects[..i];
      match obj
      case Sphere(_, radius, position) =>
        bvhObjects := bvhObjects + [Entry(obj, SphereBox(position, radius))];
      case Mesh(material, triangles) =>
        bvhObjects := PushMeshEntries(bvhObjects, material, triangles);
      case _ =>
    }
    assert objects[..|objects|] == objects;
    root := Subdivide(bvhObjects);
  }
}
