/** `BvhNode`: a bounding volume hierarchy built by sorting a copy of the
    object vector along a random axis and splitting it at the median by
    count. Its `hit` consults the left child first and returns the left
    child's hit without looking at the right child; its cached box is
    built with the `surround` of `aabb`, as written. */
module Bvh {
  import opened Util
  import opened Vectors
  import opened Rays
  import opened HitRecords
  import opened Materials
  import opened Numerics
  import opened Aabbs
  import opened Rectangles
  import opened Hittables
  import opened HittableLists
  import opened Sorting

  predicate AllWellFormed(s: seq<Hittable>)
  {
    forall o :: o in s ==> WellFormedScene(o)
  }

  /** The sort key of an object along `axis`: `minimum()[axis]` of the box
      it reports into a fresh `aabb`. */
  function Key(o: Hittable, axis: int): real
    requires WellFormedScene(o) && 0 <= axis < 3
  {
    Index(MemberBox(o).box.minPoint, axis)
  }

  /** `compareObjects(a, b, axis)`: false when either object reports no
      box, otherwise `minA[axis] < minB[axis]`. */
  function CompareObjects(a: Hittable, b: Hittable, axis: int): (r: bool)
    requires WellFormedScene(a) && WellFormedScene(b) && 0 <= axis < 3
    ensures !MemberBox(a).ok || !MemberBox(b).ok ==> !r
    ensures MemberBox(a).ok && MemberBox(b).ok ==> (r <==> Key(a, axis) < Key(b, axis))
  {
    var boxA := MemberBox(a);
    var boxB := MemberBox(b);
    if !boxA.ok || !boxB.ok then false
    else Index(boxA.box.minPoint, axis) < Index(boxB.box.minPoint, axis)
  }

  /** `box_x_compare`: `a` precedes `b` iff both report a box and `a`'s
      minimum x is smaller. */
  function BoxXCompare(a: Hittable, b: Hittable): (less: bool)
    requires WellFormedScene(a) && WellFormedScene(b)
    ensures less <==> MemberBox(a).ok && MemberBox(b).ok &&
                      MemberBox(a).box.minPoint.x < MemberBox(b).box.minPoint.x
  {
    CompareObjects(a, b, 0)
  }

  /** `box_y_compare`: `a` precedes `b` iff both report a box and `a`'s
      minimum y is smaller. */
  function BoxYCompare(a: Hittable, b: Hittable): (less: bool)
    requires WellFormedScene(a) && WellFormedScene(b)
    ensures less <==> MemberBox(a).ok && MemberBox(b).ok &&
                      MemberBox(a).box.minPoint.y < MemberBox(b).box.minPoint.y
  {
    CompareObjects(a, b, 1)
  }

  /** `box_z_compare`: `a` precedes `b` iff both report a box and `a`'s
      minimum z is smaller. */
  function BoxZCompare(a: Hittable, b: Hittable): (less: bool)
    requires WellFormedScene(a) && WellFormedScene(b)
    ensures less <==> MemberBox(a).ok && MemberBox(b).ok &&
                      MemberBox(a).box.minPoint.z < MemberBox(b).box.minPoint.z
  {
    CompareObjects(a, b, 2)
  }

  /** The comparator is irreflexive and asymmetric. */
  lemma CompareStrict(a: Hittable, b: Hittable, axis: int)
    requires WellFormedScene(a) && WellFormedScene(b) && 0 <= axis < 3
    ensures !CompareObjects(a, a, axis)
    ensures CompareObjects(a, b, axis) ==> !CompareObjects(b, a, axis)
  {
  }

  /** An object without a box (a sphere, say) is incomparable with every
      object, so incomparability is not transitive and the comparator is
      no strict weak ordering once such an object is in the range: `a` and
      `c` are each incomparable with `s`, yet `a` sorts before `c`. */
  lemma MissingBoxBreaksOrdering(a: Hittable, s: Hittable, c: Hittable, axis: int)
    requires WellFormedScene(a) && WellFormedScene(s) && WellFormedScene(c) && 0 <= axis < 3
    requires s.Sphere?
    requires MemberBox(a).ok && MemberBox(c).ok && Key(a, axis) < Key(c, axis)
    ensures !CompareObjects(a, s, axis) && !CompareObjects(s, a, axis)
    ensures !CompareObjects(s, c, axis) && !CompareObjects(c, s, axis)
    ensures CompareObjects(a, c, axis)
  {
  }

  predicate AllBoxed(s: seq<Hittable>)
    requires AllWellFormed(s)
  {
    forall o :: o in s ==> MemberBox(o).ok
  }

  /** Ordered by key along `axis`. */
  predicate SortedByKey(s: seq<Hittable>, axis: int)
    requires AllWellFormed(s) && 0 <= axis < 3
  {
    forall p, q :: 0 <= p < q < |s| ==> Key(s[p], axis) <= Key(s[q], axis)
  }

  /** The comparator handed to `std::sort`. */
  function Less(axis: int): (Hittable, Hittable) -> bool
    requires 0 <= axis < 3
  {
    (x: Hittable, y: Hittable) => WellFormedScene(x) && WellFormedScene(y) && CompareObjects(x, y, axis)
  }

  /** The key the comparator compares, extended to every object. */
  function SortKey(axis: int): Hittable -> real
    requires 0 <= axis < 3
  {
    (x: Hittable) => if WellFormedScene(x) then Key(x, axis) else 0.0
  }

  /** When every object reports a box, the comparator compares by key. */
  lemma LessIsByKey(s: seq<Hittable>, axis: int)
    requires AllWellFormed(s) && 0 <= axis < 3 && AllBoxed(s)
    ensures Consistent(s, Less(axis), SortKey(axis))
  {
    forall x, y | x in s && y in s
      ensures Less(axis)(x, y) <==> SortKey(axis)(x) < SortKey(axis)(y)
    {
      assert Less(axis)(x, y) == CompareObjects(x, y, axis);
      assert SortKey(axis)(x) == Key(x, axis) && SortKey(axis)(y) == Key(y, axis);
    }
  }

  /** Ordered by the extended key is ordered by key. */
  lemma KeyOrderedIsSorted(s: seq<Hittable>, axis: int)
    requires AllWellFormed(s) && 0 <= axis < 3
    requires KeyOrdered(s, SortKey(axis))
    ensures SortedByKey(s, axis)
  {
    forall p, q | 0 <= p < q < |s|
      ensures Key(s[p], axis) <= Key(s[q], axis)
    {
      assert SortKey(axis)(s[p]) <= SortKey(axis)(s[q]);
      assert SortKey(axis)(s[p]) == Key(s[p], axis) && SortKey(axis)(s[q]) == Key(s[q], axis);
    }
  }

  /** `std::sort(objects.begin() + start, objects.begin() + end, comparator)`:
      the range is permuted, the rest of the array is untouched, and when
      every object in the range reports a box (so that the comparator is a
      strict weak ordering) the range ends up ordered by key. */
  method SortAlong(a: array<Hittable>, start: int, end: int, axis: int)
    requires 0 <= start <= end <= a.Length && 0 <= axis < 3
    requires AllWellFormed(a[start..end])
    modifies a
    ensures multiset(a[start..end]) == multiset(old(a[start..end]))
    ensures a[..start] == old(a[..start]) && a[end..] == old(a[end..])
    ensures AllWellFormed(a[start..end])
    ensures AllBoxed(old(a[start..end])) ==> SortedByKey(a[start..end], axis)
  {
    ghost var original := a[start..end];
    ghost var boxed := AllBoxed(original);
    if boxed {
      LessIsByKey(original, axis);
    }
    SortRange(a, start, end, Less(axis), SortKey(axis));
    SameElements(a[start..end], original);
    if boxed {
      KeyOrderedIsSorted(a[start..end], axis);
    }
  }

  /** How the constructor split its range: a single object (both children
      are that object), a pair of objects, or a sorted split along `axis`
      into two sub-hierarchies. */
  datatype BuildTree =
    | Single(obj: Hittable)
    | Pair(first: Hittable, second: Hittable)
    | Split(axis: int, left: BuildTree, right: BuildTree)

  /** The objects at the leaves, the span-1 object counted once. */
  function Leaves(t: BuildTree): multiset<Hittable>
  {
    match t
    case Single(o) => multiset{o}
    case Pair(a, b) => multiset{a, b}
    case Split(_, l, r) => Leaves(l) + Leaves(r)
  }

  /** The number of constructor calls, one `random_int` draw each. */
  function NodeCount(t: BuildTree): nat
  {
    match t
    case Single(_) => 1
    case Pair(_, _) => 1
    case Split(_, l, r) => 1 + NodeCount(l) + NodeCount(r)
  }

  /** The box the constructor caches: a default `aabb` surrounded by the
      left child's box and then by the right child's; the right child is
      asked only when the left one reports a box. */
  function NodeBox(left: Hittable, right: Hittable): (b: Aabb)
    requires WellFormedScene(left) && WellFormedScene(right)
    ensures b.minPoint == Zero
    ensures MemberBox(left).ok ==> b.maxPoint == MemberBox(right).box.maxPoint
    ensures !MemberBox(left).ok ==> b.maxPoint == Zero
  {
    var boxA := MemberBox(left);
    var boxB := if boxA.ok then MemberBox(right).box else DefaultBox;
    Surrounded(Surrounded(DefaultBox, boxA.box), boxB)
  }

  /** `node` is the hierarchy that `t` describes, with every node's box as
      the constructor caches it. */
  predicate Realises(t: BuildTree, node: Hittable)
  {
    node.BvhNode? &&
    WellFormedScene(node.left) && WellFormedScene(node.right) &&
    node.bBox == NodeBox(node.left, node.right) &&
    match t
    case Single(o) => node.left == o && node.right == o
    case Pair(a, b) => node.left == a && node.right == b
    case Split(_, l, r) => Realises(l, node.left) && Realises(r, node.right)
  }

  /** At every split, when all objects below it report boxes, every object
      on the left has a key along the split's axis no larger than every
      object on the right. */
  predicate SplitOrdered(t: BuildTree)
  {
    match t
    case Single(_) => true
    case Pair(_, _) => true
    case Split(axis, l, r) =>
      SplitOrdered(l) && SplitOrdered(r) &&
      (0 <= axis < 3 && AllBoxedIn(Leaves(l) + Leaves(r)) ==> KeysSeparated(Leaves(l), Leaves(r), axis))
  }

  /** A well-formed object that reports a box. */
  predicate Boxed(o: Hittable)
  {
    WellFormedScene(o) && MemberBox(o).ok
  }

  predicate AllBoxedIn(m: multiset<Hittable>)
  {
    forall x :: x in m ==> Boxed(x)
  }

  /** Every boxed object of `l` has a key along `axis` at or below that of
      every boxed object of `r`. */
  predicate KeysSeparated(l: multiset<Hittable>, r: multiset<Hittable>, axis: int)
    requires 0 <= axis < 3
  {
    forall x, y :: x in l && y in r && Boxed(x) && Boxed(y) ==> Key(x, axis) <= Key(y, axis)
  }

  /** Splitting an ordered sequence puts every key of the front part at or
      below every key of the back part. */
  lemma SortedSplit(s: seq<Hittable>, axis: int, mid: int)
    requires AllWellFormed(s) && 0 <= axis < 3 && 0 <= mid <= |s|
    requires SortedByKey(s, axis)
    ensures KeysSeparated(multiset(s[..mid]), multiset(s[mid..]), axis)
  {
    forall x, y | x in multiset(s[..mid]) && y in multiset(s[mid..]) && Boxed(x) && Boxed(y)
      ensures Key(x, axis) <= Key(y, axis)
    {
      var p :| 0 <= p < mid && s[..mid][p] == x;
      var q :| 0 <= q < |s| - mid && s[mid..][q] == y;
      assert s[p] == x && s[mid + q] == y;
    }
  }

  /** `BvhNode(objectsList, start, end, time_0, time_1)`. `rand(n)` is the
      `n`-th value `rand()` returns, starting from `next`, and `after` is
      where the draws stop; `ptrGreater` is the comparison of two object
      addresses. The range must not be empty: a span of 0 recurses without
      end. */
  method Build(objectsList: seq<Hittable>, start: int, end: int, rand: nat -> RandDraw, next: nat,
               ptrGreater: (Hittable, Hittable) -> bool)
    returns (node: Hittable, after: nat, ghost tree: BuildTree)
    requires 0 <= start < end <= |objectsList|
    requires AllWellFormed(objectsList[start..end])
    ensures WellFormedScene(node)
    ensures Realises(tree, node)
    ensures Leaves(tree) == multiset(objectsList[start..end])
    ensures SplitOrdered(tree)
    ensures after == next + NodeCount(tree)
    ensures end - start == 1 ==> tree == Single(objectsList[start])
    ensures end - start == 2 ==>
      tree == if ptrGreater(objectsList[start], objectsList[end - 1])
              then Pair(objectsList[end - 1], objectsList[start])
              else Pair(objectsList[start], objectsList[end - 1])
    ensures end - start > 2 ==>
      tree.Split? && tree.axis == RandomInt(0, 2, rand(next)) &&
      |Leaves(tree.left)| == (end - start) / 2 >= 1 && |Leaves(tree.right)| == end - start - (end - start) / 2 >= 1
    decreases end - start, 1
  {
    var objects := new Hittable[|objectsList|](i requires 0 <= i < |objectsList| => objectsList[i]);
    assert objects[..] == objectsList;
    var axis := RandomInt(0, 2, rand(next));
    var left, right;
    if end - start <= 2 {
      left, right, tree := BuildSmall(objects, start, end, ptrGreater);
      after := next + 1;
    } else {
      assert objects[start..end] == objectsList[start..end];
      left, right, after, tree := BuildSplit(objects, start, end, axis, rand, next, ptrGreater);
    }
    node := MakeNode(left, right);
    RealisesNode(tree, left, right);
  }

  /** A node over `left` and `right` realises the tree whose top matches
      them. */
  lemma RealisesNode(t: BuildTree, left: Hittable, right: Hittable)
    requires WellFormedScene(left) && WellFormedScene(right)
    requires t.Single? ==> left == t.obj && right == t.obj
    requires t.Pair? ==> left == t.first && right == t.second
    requires t.Split? ==> Realises(t.left, left) && Realises(t.right, right)
    ensures Realises(t, BvhNode(left, right, NodeBox(left, right)))
  {
  }

  /** The cases of one and two objects: a single object becomes both
      children; of two, the one with the greater address goes right (the
      copy's two elements are swapped when `ptrGreater` says so). */
  method BuildSmall(objects: array<Hittable>, start: int, end: int, ptrGreater: (Hittable, Hittable) -> bool)
    returns (left: Hittable, right: Hittable, ghost tree: BuildTree)
    requires 0 <= start < end <= objects.Length && end - start <= 2
    requires AllWellFormed(objects[start..end])
    modifies objects
    ensures WellFormedScene(left) && WellFormedScene(right)
    ensures end - start == 1 ==> tree == Single(old(objects[start])) && left == tree.obj && right == tree.obj
    ensures end - start == 2 ==>
      tree == (if ptrGreater(old(objects[start]), old(objects[end - 1]))
               then Pair(old(objects[end - 1]), old(objects[start]))
               else Pair(old(objects[start]), old(objects[end - 1]))) &&
      left == tree.first && right == tree.second
    ensures Leaves(tree) == multiset(old(objects[start..end]))
    ensures SplitOrdered(tree) && NodeCount(tree) == 1
  {
    if end - start == 1 {
      assert objects[start..end] == [objects[start]];
      left, right := objects[start], objects[start];
      tree := Single(left);
    } else {
      assert objects[start..end] == [objects[start], objects[end - 1]];
      if ptrGreater(objects[start], objects[end - 1]) {
        objects[start], objects[end - 1] := objects[end - 1], objects[start];
      }
      left, right := objects[start], objects[end - 1];
      tree := Pair(left, right);
    }
  }

  /** The case of three or more objects: the range of the copy is sorted
      along `axis` and each half, split at `mid = start + span / 2`, is
      built from the sorted copy, the left half first. */
  method BuildSplit(objects: array<Hittable>, start: int, end: int, axis: int, rand: nat -> RandDraw, next: nat,
                    ptrGreater: (Hittable, Hittable) -> bool)
    returns (left: Hittable, right: Hittable, after: nat, ghost tree: BuildTree)
    requires 0 <= start && end - start > 2 && end <= objects.Length && 0 <= axis < 3
    requires AllWellFormed(objects[start..end])
    modifies objects
    ensures tree.Split? && tree.axis == axis
    ensures WellFormedScene(left) && WellFormedScene(right)
    ensures Realises(tree.left, left) && Realises(tree.right, right)
    ensures Leaves(tree) == multiset(old(objects[start..end]))
    ensures SplitOrdered(tree)
    ensures after == next + NodeCount(tree)
    ensures |Leaves(tree.left)| == (end - start) / 2 && |Leaves(tree.right)| == end - start - (end - start) / 2
    decreases end - start, 0
  {
    ghost var original := objects[start..end];
    SortAlong(objects, start, end, axis);
    var mid := start + (end - start) / 2;
    assert start < mid < end;
    var sorted := objects[..];
    assert sorted[start..end] == objects[start..end];
    PartsWellFormed(sorted, start, mid, end);
    ghost var lt, rt;
    var afterLeft;
    left, afterLeft, lt := Build(sorted, start, mid, rand, next + 1, ptrGreater);
    right, after, rt := Build(sorted, mid, end, rand, afterLeft, ptrGreater);
    tree := Split(axis, lt, rt);
    assert sorted[start..end][..mid - start] == sorted[start..mid];
    assert sorted[start..end][mid - start..] == sorted[mid..end];
    SplitOrderedAfterSort(original, sorted[start..end], mid - start, axis, lt, rt);
  }

  /** Both halves of a well-formed range are well formed, and together
      they hold the range's objects. */
  lemma PartsWellFormed(s: seq<Hittable>, start: int, mid: int, end: int)
    requires 0 <= start <= mid <= end <= |s|
    requires AllWellFormed(s[start..end])
    ensures AllWellFormed(s[start..mid]) && AllWellFormed(s[mid..end])
    ensures s[start..end] == s[start..mid] + s[mid..end]
  {
    assert s[start..end] == s[start..mid] + s[mid..end];
  }

  /** The end of the constructor: `bboxA` and `bboxB` are filled in by the
      children (the right child only if the left one reports a box), and
      the default `bBox` surrounds `bboxA` and then `bboxB`. */
  method MakeNode(left: Hittable, right: Hittable) returns (node: Hittable)
    requires WellFormedScene(left) && WellFormedScene(right)
    ensures node == BvhNode(left, right, NodeBox(left, right))
  {
    var boxA := BoundingBox(left, DefaultBox);
    var boxB := DefaultBox;
    if boxA.ok {
      var rb := BoundingBox(right, DefaultBox);
      boxB := rb.box;
    }
    var bBox := new AabbVar.Default();
    bBox.Surround(boxA.box);
    bBox.Surround(boxB);
    node := BvhNode(left, right, bBox.Value());
  }

  /** The split made after sorting is ordered. */
  lemma SplitOrderedAfterSort(original: seq<Hittable>, sorted: seq<Hittable>, mid: int,
                              axis: int, lt: BuildTree, rt: BuildTree)
    requires 0 <= mid <= |sorted| && 0 <= axis < 3
    requires AllWellFormed(original) && AllWellFormed(sorted)
    requires multiset(sorted) == multiset(original)
    requires AllBoxed(original) ==> SortedByKey(sorted, axis)
    requires Leaves(lt) == multiset(sorted[..mid]) && Leaves(rt) == multiset(sorted[mid..])
    requires SplitOrdered(lt) && SplitOrdered(rt)
    ensures SplitOrdered(Split(axis, lt, rt))
    ensures Leaves(Split(axis, lt, rt)) == multiset(original)
    ensures |Leaves(lt)| == mid && |Leaves(rt)| == |sorted| - mid
  {
    SplitMultiset(sorted, mid);
    if AllBoxedIn(Leaves(lt) + Leaves(rt)) {
      assert AllBoxedIn(multiset(original));
      BoxedFromMultiset(original);
      SortedSplit(sorted, axis, mid);
    }
  }

  /** Every object of `s` is boxed when every member of its multiset is. */
  lemma BoxedFromMultiset(s: seq<Hittable>)
    requires AllWellFormed(s) && AllBoxedIn(multiset(s))
    ensures AllBoxed(s)
  {
    forall o | o in s
      ensures MemberBox(o).ok
    {
      assert o in multiset(s);
    }
  }

  /** `BvhNode(hittableList, time_0, time_1)`: the whole list; the list
      must not be empty. */
  method BuildFromList(list: HittableList, rand: nat -> RandDraw, next: nat,
                       ptrGreater: (Hittable, Hittable) -> bool)
    returns (node: Hittable, after: nat, ghost tree: BuildTree)
    requires |list.list| > 0 && AllWellFormed(list.list)
    ensures WellFormedScene(node)
    ensures Realises(tree, node)
    ensures Leaves(tree) == multiset(list.list)
    ensures SplitOrdered(tree)
    ensures after == next + NodeCount(tree)
  {
    assert list.list[0..|list.list|] == list.list;
    node, after, tree := Build(list.list, 0, |list.list|, rand, next, ptrGreater);
  }

  /** `BvhNode::hit` as a case split: a missed box misses, keeping the
      record; a left hit is returned as it is; otherwise the right child
      answers, handed the record the left child left. */
  lemma BvhHitCases(left: Hittable, right: Hittable, bBox: Aabb, lib: Lib, r: Ray, tMin: real, tMax: Bound, rec: Record)
    requires WellFormedScene(left) && WellFormedScene(right)
    ensures var res := Hit(BvhNode(left, right, bBox), lib, r, tMin, tMax, rec);
            var lr := Hit(left, lib, r, tMin, tMax, rec);
            (!HitBox(bBox, r, tMin, tMax) ==> res == HitResult(false, rec)) &&
            (HitBox(bBox, r, tMin, tMax) && lr.hit ==> res == lr) &&
            (HitBox(bBox, r, tMin, tMax) && !lr.hit ==> res == Hit(right, lib, r, tMin, tMax, rec))
  {
    var node := BvhNode(left, right, bBox);
    var lr := Hit(left, lib, r, tMin, tMax, rec);
    if HitBox(bBox, r, tMin, tMax) && !lr.hit {
      assert lr.rec == rec;
    }
  }

  /** The cached box never decides anything when `tMin < tMax`: the slab
      test then always passes, so any two boxes give the same answer. */
  lemma BvhBoxIrrelevant(left: Hittable, right: Hittable, b1: Aabb, b2: Aabb, lib: Lib, r: Ray,
                         tMin: real, tMax: Bound, rec: Record)
    requires WellFormedScene(left) && WellFormedScene(right)
    requires !AtMost(tMax, tMin)
    ensures Hit(BvhNode(left, right, b1), lib, r, tMin, tMax, rec) == Hit(BvhNode(left, right, b2), lib, r, tMin, tMax, rec)
  {
    MissMeansClosedInterval(b1, r, tMin, tMax);
    MissMeansClosedInterval(b2, r, tMin, tMax);
  }

  /** The node is not a nearest-hit query: with two parallel rectangles
      over the same square, a ray along +z that crosses the right one
      first is reported at the left one, farther away. */
  lemma BvhReportsFartherHit(m: Material, x0: real, x1: real, y0: real, y1: real, kl: real, kr: real,
                             bBox: Aabb, lib: Lib, r: Ray, tMin: real, rec: Record)
    requires x0 < x1 && y0 < y1
    requires r.direction.x == 0.0 && r.direction.y == 0.0 && r.direction.z > 0.0
    requires x0 <= r.origin.x <= x1 && y0 <= r.origin.y <= y1
    requires r.origin.z < kr < kl
    requires tMin <= (kr - r.origin.z) / r.direction.z
    ensures var node := BvhNode(RectXY(m, x0, x1, y0, y1, kl), RectXY(m, x0, x1, y0, y1, kr), bBox);
            var near := Hit(RectXY(m, x0, x1, y0, y1, kr), lib, r, tMin, Infinity, rec);
            var res := Hit(node, lib, r, tMin, Infinity, rec);
            near.hit && res.hit && near.rec.t < res.rec.t
  {
    var dz := r.direction.z;
    var tl := (kl - r.origin.z) / dz;
    var tr := (kr - r.origin.z) / dz;
    assert tl * dz == kl - r.origin.z && tr * dz == kr - r.origin.z;
    assert tr < tl by {
      if tl <= tr {
        calc { kl - r.origin.z; == tl * dz; <= tr * dz; == kr - r.origin.z; }
      }
    }
    RectCrossedAlongZ(m, x0, x1, y0, y1, kl, lib, r, tMin, rec);
    RectCrossedAlongZ(m, x0, x1, y0, y1, kr, lib, r, tMin, rec);
    MissMeansClosedInterval(bBox, r, tMin, Infinity);
    BvhHitCases(RectXY(m, x0, x1, y0, y1, kl), RectXY(m, x0, x1, y0, y1, kr), bBox, lib, r, tMin, Infinity, rec);
  }

  /** A ray along +z from over the square hits the rectangle at height
      `k` above it, at the parameter where it reaches that height. */
  lemma RectCrossedAlongZ(m: Material, x0: real, x1: real, y0: real, y1: real, k: real,
                          lib: Lib, r: Ray, tMin: real, rec: Record)
    requires x0 < x1 && y0 < y1
    requires r.direction.x == 0.0 && r.direction.y == 0.0 && r.direction.z > 0.0
    requires x0 <= r.origin.x <= x1 && y0 <= r.origin.y <= y1
    requires tMin <= (k - r.origin.z) / r.direction.z
    ensures var res := Hit(RectXY(m, x0, x1, y0, y1, k), lib, r, tMin, Infinity, rec);
            res.hit && res.rec.t == (k - r.origin.z) / r.direction.z
  {
    var t := (k - r.origin.z) / r.direction.z;
    assert PlaneParameter(k, 2, r) == Some(t);
    IndexAt(r, t, 0);
    IndexAt(r, t, 1);
  }

  /** The cached box need not contain the left child's box: its maximum
      corner comes from the right child alone. */
  lemma NodeBoxMissesLeft(left: Hittable, right: Hittable)
    requires WellFormedScene(left) && WellFormedScene(right)
    requires MemberBox(left).ok && MemberBox(right).ok
    requires MemberBox(right).box.maxPoint.x < MemberBox(left).box.maxPoint.x
    ensures NodeBox(left, right).maxPoint.x < MemberBox(left).box.maxPoint.x
    ensures BoundingBox(BvhNode(left, right, NodeBox(left, right)), DefaultBox) == BoxResult(true, NodeBox(left, right))
  {
  }
}
