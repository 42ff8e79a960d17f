/** `visitSceneNode` of gloom/src/program.cpp: a pre-order walk over a scene
    tree that stores on each node the product of the transforms from the root
    down to it, and issues a draw call for each node that has geometry. */
module Traversal {
  import opened Floats
  import opened Unsigned
  import opened SceneGraph

  /** One `glDrawElements` call, with the matrix sent to the shader just
      before it. */
  datatype Draw = Draw(transform: Mat4, vao: int, indexCount: UInt)

  /** The fields of a node that the walk reads and never writes. */
  datatype Placement = Placement(position: Float3, rotation: Float3, referencePoint: Float3, vao: int, indexCount: UInt)

  /** The tree below a node as the caller built it: the node, the values of
      its fields, and, in order, the trees below its children. It only
      describes the heap; `IsTree` says when it does so faithfully. */
  datatype Shape = Shape(node: SceneNode, at: Placement, kids: seq<Shape>)

  /** The subtrees of `s` in pre-order: `s` itself, then those of each child
      in list order. */
  function Subtrees(s: Shape): (r: seq<Shape>)
    ensures |r| >= 1 && r[0] == s
    decreases s, 1
  {
    [s] + KidsSubtrees(s, |s.kids|)
  }

  /** The subtrees below the first n children of `s`, in pre-order. */
  function KidsSubtrees(s: Shape, n: nat): seq<Shape>
    requires n <= |s.kids|
    decreases s, 0, n
  {
    if n == 0 then [] else KidsSubtrees(s, n - 1) + Subtrees(s.kids[n - 1])
  }

  /** Every node of the tree. */
  ghost function Nodes(s: Shape): set<SceneNode>
  {
    set j | 0 <= j < |Subtrees(s)| :: Subtrees(s)[j].node
  }

  /** No node occurs twice in the tree: no child list holds a node twice,
      no two subtrees share a node, and no node is its own descendant. */
  predicate Distinct(s: Shape)
  {
    forall a, b :: 0 <= a < b < |Subtrees(s)| ==> Subtrees(s)[a].node != Subtrees(s)[b].node
  }

  /** One subtree agrees with the heap: its node has the recorded field
      values, and its children are the roots of the recorded subtrees. */
  predicate Holds(t: Shape)
    reads t.node`children, t.node`position, t.node`rotation, t.node`referencePoint,
          t.node`vertexArrayObjectID, t.node`VAOIndexCount
  {
    && t.at == Placement(t.node.position, t.node.rotation, t.node.referencePoint,
                         t.node.vertexArrayObjectID, t.node.VAOIndexCount)
    && |t.node.children| == |t.kids|
    && (forall i :: 0 <= i < |t.kids| ==> t.node.children[i] == t.kids[i].node)
  }

  /** The heap holds the shape as a tree. */
  ghost predicate IsTree(s: Shape)
    reads Nodes(s)`children, Nodes(s)`position, Nodes(s)`rotation, Nodes(s)`referencePoint,
          Nodes(s)`vertexArrayObjectID, Nodes(s)`VAOIndexCount
  {
    Distinct(s) && forall j :: 0 <= j < |Subtrees(s)| ==> Holds(Subtrees(s)[j])
  }

  const XAxis: Float3 := Float3(1.0, 0.0, 0.0)
  const YAxis: Float3 := Float3(0.0, 1.0, 0.0)
  const ZAxis: Float3 := Float3(0.0, 0.0, 1.0)

  function Negated(v: Float3): Float3
  {
    Float3(-v.x, -v.y, -v.z)
  }

  /** The six factors a node appends to its parent's transform, in order:
      its position, the translation to its reference point, the rotations
      about z, y and x, and the translation back from the reference point. */
  function LocalFactors(position: Float3, rotation: Float3, referencePoint: Float3): (r: seq<Mat4>)
    ensures |r| == 6
  {
    [Translate(position), Translate(referencePoint), Rotate(rotation.z, ZAxis),
     Rotate(rotation.y, YAxis), Rotate(rotation.x, XAxis), Translate(Negated(referencePoint))]
  }

  /** The transform `visitSceneNode` stores on a node: the left-nested product
      of the parent's transform and the local factors. */
  function NodeTransform(parent: Mat4, position: Float3, rotation: Float3, referencePoint: Float3): Mat4
  {
    var f := LocalFactors(position, rotation, referencePoint);
    Mul(Mul(Mul(Mul(Mul(Mul(parent, f[0]), f[1]), f[2]), f[3]), f[4]), f[5])
  }

  /** The factors of a left-nested product, leftmost first. */
  function Factors(m: Mat4): seq<Mat4>
  {
    if m.Mul? then Factors(m.left) + Factors(m.right) else [m]
  }

  /** A node's transform is its parent's factors followed by its six own. */
  lemma NodeTransformFactors(parent: Mat4, position: Float3, rotation: Float3, referencePoint: Float3)
    ensures Factors(NodeTransform(parent, position, rotation, referencePoint))
         == Factors(parent) + LocalFactors(position, rotation, referencePoint)
  {
    var f := LocalFactors(position, rotation, referencePoint);
    var m0 := Mul(parent, f[0]);
    var m1 := Mul(m0, f[1]);
    var m2 := Mul(m1, f[2]);
    var m3 := Mul(m2, f[3]);
    var m4 := Mul(m3, f[4]);
    var m5 := Mul(m4, f[5]);
    var p := Factors(parent);
    assert Factors(m0) == p + [f[0]];
    assert Factors(m1) == p + [f[0], f[1]];
    assert Factors(m2) == p + [f[0], f[1], f[2]];
    assert Factors(m3) == p + [f[0], f[1], f[2], f[3]];
    assert Factors(m4) == p + [f[0], f[1], f[2], f[3], f[4]];
    assert Factors(m5) == p + [f[0], f[1], f[2], f[3], f[4], f[5]];
  }

  function TransformOf(s: Shape, parent: Mat4): Mat4
  {
    NodeTransform(parent, s.at.position, s.at.rotation, s.at.referencePoint)
  }

  /** The draw a node issues under transform t: one exactly when it has a
      vertex array, with that array and its index count. */
  function OwnDraw(p: Placement, t: Mat4): (r: seq<Draw>)
    ensures p.vao != NoVertexArray <==> |r| == 1
    ensures p.vao == NoVertexArray <==> r == []
    ensures |r| == 1 ==> r[0] == Draw(t, p.vao, p.indexCount)
  {
    if p.vao != NoVertexArray then [Draw(t, p.vao, p.indexCount)] else []
  }

  /** The draws of a walk from `s` under the parent transform: the node's
      own, then those of each child in list order under the node's transform. */
  function DrawsOf(s: Shape, parent: Mat4): seq<Draw>
    decreases s, 1
  {
    var t := TransformOf(s, parent);
    OwnDraw(s.at, t) + KidsDraws(s, t, |s.kids|)
  }

  /** The draws of the first n children of `s` under transform t. */
  function KidsDraws(s: Shape, t: Mat4, n: nat): seq<Draw>
    requires n <= |s.kids|
    decreases s, 0, n
  {
    if n == 0 then [] else KidsDraws(s, t, n - 1) + DrawsOf(s.kids[n - 1], t)
  }

  // ---- where the subtrees of a child sit among those of its parent ----

  /** Adding children only extends the list of subtrees at its end. */
  lemma {:induction false} KidsSubtreesPrefix(s: Shape, m: nat, n: nat)
    requires m <= n <= |s.kids|
    ensures |KidsSubtrees(s, m)| <= |KidsSubtrees(s, n)|
    ensures forall k :: 0 <= k < |KidsSubtrees(s, m)| ==> KidsSubtrees(s, n)[k] == KidsSubtrees(s, m)[k]
    decreases n
  {
    if m < n {
      KidsSubtreesPrefix(s, m, n - 1);
    }
  }

  /** The first subtree of child i sits after `Offset(s, i)` others. */
  function Offset(s: Shape, i: nat): nat
    requires i <= |s.kids|
  {
    1 + |KidsSubtrees(s, i)|
  }

  /** Child i's subtrees occupy the positions from `Offset(s, i)` on. */
  lemma {:induction false} KidAt(s: Shape, i: nat)
    requires i < |s.kids|
    ensures Offset(s, i) + |Subtrees(s.kids[i])| <= |Subtrees(s)|
    ensures forall j :: 0 <= j < |Subtrees(s.kids[i])| ==> Subtrees(s)[Offset(s, i) + j] == Subtrees(s.kids[i])[j]
  {
    var kid := s.kids[i];
    var before := KidsSubtrees(s, i);
    var upTo := KidsSubtrees(s, i + 1);
    var all := KidsSubtrees(s, |s.kids|);
    assert upTo == before + Subtrees(kid);
    KidsSubtreesPrefix(s, i + 1, |s.kids|);
    assert Subtrees(s) == [s] + all;
    forall j | 0 <= j < |Subtrees(kid)|
      ensures Subtrees(s)[Offset(s, i) + j] == Subtrees(kid)[j]
    {
      assert upTo[|before| + j] == Subtrees(kid)[j];
      assert all[|before| + j] == upTo[|before| + j];
    }
  }

  /** The subtrees below the first i children are those right after the root. */
  lemma {:induction false} KidsSubtreesAt(s: Shape, i: nat)
    requires i <= |s.kids|
    ensures Offset(s, i) <= |Subtrees(s)|
    ensures forall k :: 0 <= k < |KidsSubtrees(s, i)| ==> KidsSubtrees(s, i)[k] == Subtrees(s)[1 + k]
  {
    var all := KidsSubtrees(s, |s.kids|);
    KidsSubtreesPrefix(s, i, |s.kids|);
    assert Subtrees(s) == [s] + all;
    forall k | 0 <= k < |KidsSubtrees(s, i)|
      ensures KidsSubtrees(s, i)[k] == Subtrees(s)[1 + k]
    {
      assert all[k] == KidsSubtrees(s, i)[k];
    }
  }

  /** The walk reaches the subtrees in pre-order, whatever the transforms. */
  lemma {:induction false} VisitsTrees(s: Shape, parent: Mat4)
    ensures |Visits(s, parent)| == |Subtrees(s)|
    ensures forall k :: 0 <= k < |Subtrees(s)| ==> Visits(s, parent)[k].tree == Subtrees(s)[k]
    decreases s, 1
  {
    KidsVisitsTrees(s, TransformOf(s, parent), |s.kids|);
  }

  lemma {:induction false} KidsVisitsTrees(s: Shape, t: Mat4, n: nat)
    requires n <= |s.kids|
    ensures |KidsVisits(s, t, n)| == |KidsSubtrees(s, n)|
    ensures forall k :: 0 <= k < |KidsSubtrees(s, n)| ==> KidsVisits(s, t, n)[k].tree == KidsSubtrees(s, n)[k]
    decreases s, 0, n
  {
    if n > 0 {
      KidsVisitsTrees(s, t, n - 1);
      VisitsTrees(s.kids[n - 1], t);
    }
  }

  /** A child of a tree is a tree. */
  lemma {:induction false} KidIsTree(s: Shape, i: nat)
    requires IsTree(s) && i < |s.kids|
    ensures IsTree(s.kids[i])
  {
    var kid := s.kids[i];
    var o := Offset(s, i);
    KidAt(s, i);
    forall j | 0 <= j < |Subtrees(kid)|
      ensures Holds(Subtrees(kid)[j])
    {
      assert Subtrees(s)[o + j] == Subtrees(kid)[j];
    }
    forall a, b | 0 <= a < b < |Subtrees(kid)|
      ensures Subtrees(kid)[a].node != Subtrees(kid)[b].node
    {
      assert Subtrees(s)[o + a] == Subtrees(kid)[a];
      assert Subtrees(s)[o + b] == Subtrees(kid)[b];
    }
  }

  /** In a tree without repeated nodes, child i's nodes are nodes of the
      tree, and neither the root nor a node below an earlier child is one of
      them: visiting child i cannot touch them. */
  lemma {:induction false} KidApart(s: Shape, i: nat, t: Mat4)
    requires Distinct(s) && i < |s.kids|
    ensures Nodes(s.kids[i]) <= Nodes(s)
    ensures s.node !in Nodes(s.kids[i])
    ensures VisitedNodes(KidsVisits(s, t, i)) !! Nodes(s.kids[i])
  {
    var kid := s.kids[i];
    var o := Offset(s, i);
    var before := KidsVisits(s, t, i);
    KidAt(s, i);
    KidsSubtreesAt(s, i);
    KidsVisitsTrees(s, t, i);
    forall n | n in Nodes(kid)
      ensures n in Nodes(s) && n != s.node
      ensures n !in VisitedNodes(before)
    {
      var j :| 0 <= j < |Subtrees(kid)| && Subtrees(kid)[j].node == n;
      assert Subtrees(s)[o + j] == Subtrees(kid)[j];
      assert Subtrees(s)[0] == s;
      forall k | 0 <= k < |before|
        ensures before[k].tree.node != n
      {
        assert KidsSubtrees(s, i)[k] == Subtrees(s)[1 + k];
      }
    }
  }

  /** The draws of a node are its own, then its children's. */
  lemma {:induction false} DrawsRoot(s: Shape, parent: Mat4, t: Mat4, n: nat)
    requires t == TransformOf(s, parent) && n == |s.kids|
    ensures DrawsOf(s, parent) == OwnDraw(s.at, t) + KidsDraws(s, t, n)
  {
  }

  /** The draws of one more child extend the list at its end. */
  lemma {:induction false} KidsDrawsStep(s: Shape, t: Mat4, n: nat, own: seq<Draw>)
    requires n < |s.kids|
    ensures own + KidsDraws(s, t, n + 1) == (own + KidsDraws(s, t, n)) + DrawsOf(s.kids[n], t)
  {
    assert KidsDraws(s, t, n + 1) == KidsDraws(s, t, n) + DrawsOf(s.kids[n], t);
  }

  /** A node reached by the walk, with the transform the walk gives it. */
  datatype Visit = Visit(tree: Shape, transform: Mat4)

  /** The nodes the walk from `s` reaches, in the order it reaches them. */
  function Visits(s: Shape, parent: Mat4): seq<Visit>
    decreases s, 1
  {
    var t := TransformOf(s, parent);
    [Visit(s, t)] + KidsVisits(s, t, |s.kids|)
  }

  /** The visits below the first n children of `s` under transform t. */
  function KidsVisits(s: Shape, t: Mat4, n: nat): seq<Visit>
    requires n <= |s.kids|
    decreases s, 0, n
  {
    if n == 0 then [] else KidsVisits(s, t, n - 1) + Visits(s.kids[n - 1], t)
  }

  ghost function VisitedNodes(vs: seq<Visit>): set<SceneNode>
  {
    set k | 0 <= k < |vs| :: vs[k].tree.node
  }

  /** Each visited node holds the transform the walk gives it. */
  ghost predicate Transformed(vs: seq<Visit>)
    reads VisitedNodes(vs)`currentTransformationMatrix
  {
    forall k :: 0 <= k < |vs| ==> vs[k].tree.node.currentTransformationMatrix == vs[k].transform
  }

  // ---- every node of the tree exists before the walk starts ----

  lemma {:induction false} SubtreesAllocated(s: Shape)
    ensures forall j :: 0 <= j < |Subtrees(s)| ==> allocated(Subtrees(s)[j])
    decreases s, 1
  {
    KidsSubtreesAllocated(s, |s.kids|);
  }

  lemma {:induction false} KidsSubtreesAllocated(s: Shape, n: nat)
    requires n <= |s.kids|
    ensures forall j :: 0 <= j < |KidsSubtrees(s, n)| ==> allocated(KidsSubtrees(s, n)[j])
    decreases s, 0, n
  {
    if n > 0 {
      KidsSubtreesAllocated(s, n - 1);
      SubtreesAllocated(s.kids[n - 1]);
    }
  }

  lemma {:induction false} VisitsAllocated(s: Shape, parent: Mat4)
    ensures forall k :: 0 <= k < |Visits(s, parent)| ==> allocated(Visits(s, parent)[k].tree)
    decreases s, 1
  {
    KidsVisitsAllocated(s, TransformOf(s, parent), |s.kids|);
  }

  lemma {:induction false} KidsVisitsAllocated(s: Shape, t: Mat4, n: nat)
    requires n <= |s.kids|
    ensures forall k :: 0 <= k < |KidsVisits(s, t, n)| ==> allocated(KidsVisits(s, t, n)[k].tree)
    decreases s, 0, n
  {
    if n > 0 {
      KidsVisitsAllocated(s, t, n - 1);
      VisitsAllocated(s.kids[n - 1], t);
    }
  }

  lemma {:induction false} TransformedAppend(a: seq<Visit>, b: seq<Visit>)
    requires Transformed(a) && Transformed(b)
    ensures Transformed(a + b)
  {
  }

  /** Children holding their transforms, and one more. */
  lemma {:induction false} TransformedStep(s: Shape, t: Mat4, n: nat)
    requires n < |s.kids|
    requires Transformed(KidsVisits(s, t, n)) && Transformed(Visits(s.kids[n], t))
    ensures Transformed(KidsVisits(s, t, n + 1))
  {
    TransformedAppend(KidsVisits(s, t, n), Visits(s.kids[n], t));
    assert KidsVisits(s, t, n + 1) == KidsVisits(s, t, n) + Visits(s.kids[n], t);
  }

  /** A root holding its transform above children holding theirs. */
  lemma {:induction false} TransformedRoot(s: Shape, parent: Mat4, t: Mat4, n: nat)
    requires t == TransformOf(s, parent) && n == |s.kids|
    requires s.node.currentTransformationMatrix == t
    requires Transformed(KidsVisits(s, t, n))
    ensures Transformed(Visits(s, parent))
  {
    assert Transformed([Visit(s, t)]);
    TransformedAppend([Visit(s, t)], KidsVisits(s, t, |s.kids|));
  }

  /** `visitSceneNode(node, transformationThusFar)`. Only the cached
      transforms of the tree's nodes are written. */
  method VisitSceneNode(node: SceneNode, transformationThusFar: Mat4, ghost s: Shape) returns (draws: seq<Draw>)
    requires s.node == node && IsTree(s)
    modifies Nodes(s)`currentTransformationMatrix
    ensures Transformed(Visits(s, transformationThusFar))
    ensures draws == DrawsOf(s, transformationThusFar)
    decreases s
  {
    assert Holds(Subtrees(s)[0]);
    SubtreesAllocated(s);
    var translationBack := Translate(node.referencePoint);
    var translationOriginPoint := Translate(Float3(-node.referencePoint.x, -node.referencePoint.y, -node.referencePoint.z));
    var translation := Translate(node.position);
    var xRotation := Rotate(node.rotation.x, Float3(1.0, 0.0, 0.0));
    var yRotation := Rotate(node.rotation.y, Float3(0.0, 1.0, 0.0));
    var zRotation := Rotate(node.rotation.z, Float3(0.0, 0.0, 1.0));
    node.currentTransformationMatrix :=
      Mul(Mul(Mul(Mul(Mul(Mul(transformationThusFar, translation), translationBack), zRotation), yRotation), xRotation), translationOriginPoint);
    var combinedTransformation := node.currentTransformationMatrix;
    draws := [];
    if node.vertexArrayObjectID != NoVertexArray {
      draws := [Draw(combinedTransformation, node.vertexArrayObjectID, node.VAOIndexCount)];
    }
    var i := 0;
    while i < |node.children|
      invariant 0 <= i <= |s.kids| == |node.children|
      invariant IsTree(s)
      invariant node.currentTransformationMatrix == combinedTransformation
      invariant draws == OwnDraw(s.at, combinedTransformation) + KidsDraws(s, combinedTransformation, i)
      invariant Transformed(KidsVisits(s, combinedTransformation, i))
      decreases |s.kids| - i
    {
      KidIsTree(s, i);
      KidApart(s, i, combinedTransformation);
      KidsVisitsAllocated(s, combinedTransformation, i);
      var childDraws := VisitSceneNode(node.children[i], combinedTransformation, s.kids[i]);
      KidsDrawsStep(s, combinedTransformation, i, OwnDraw(s.at, combinedTransformation));
      TransformedStep(s, combinedTransformation, i);
      draws := draws + childDraws;
      i := i + 1;
    }
    TransformedRoot(s, transformationThusFar, combinedTransformation, i);
    DrawsRoot(s, transformationThusFar, combinedTransformation, i);
  }

  // ---- the walk against a reference: pre-order, each node once ----

  /** The draws issued for a list of visits: for each visited node that has
      a vertex array, in visiting order, one draw with its transform. */
  function DrawsIn(vs: seq<Visit>): seq<Draw>
  {
    if vs == [] then []
    else DrawsIn(vs[..|vs| - 1]) + OwnDraw(vs[|vs| - 1].tree.at, vs[|vs| - 1].transform)
  }

  lemma {:induction false} DrawsInAppend(a: seq<Visit>, b: seq<Visit>)
    ensures DrawsIn(a + b) == DrawsIn(a) + DrawsIn(b)
    decreases |b|
  {
    if b == [] {
      assert a + b == a;
    } else {
      var b' := b[..|b| - 1];
      var last := b[|b| - 1];
      assert (a + b)[..|a + b| - 1] == a + b';
      assert (a + b)[|a + b| - 1] == last;
      assert DrawsIn(a + b) == DrawsIn(a + b') + OwnDraw(last.tree.at, last.transform);
      DrawsInAppend(a, b');
    }
  }

  /** A draw is issued exactly for each visited node with a vertex array,
      with that node's array, index count and transform. */
  lemma {:induction false} DrawsInExactly(vs: seq<Visit>)
    ensures forall d :: d in DrawsIn(vs) ==>
      d.vao != NoVertexArray && exists k :: 0 <= k < |vs| && d == Draw(vs[k].transform, vs[k].tree.at.vao, vs[k].tree.at.indexCount)
    ensures forall k :: 0 <= k < |vs| && vs[k].tree.at.vao != NoVertexArray ==>
      Draw(vs[k].transform, vs[k].tree.at.vao, vs[k].tree.at.indexCount) in DrawsIn(vs)
    decreases |vs|
  {
    if vs != [] {
      var init := vs[..|vs| - 1];
      DrawsInExactly(init);
      forall k | 0 <= k < |init| ensures vs[k] == init[k] { }
    }
  }

  /** The walk's draws are those of its visits: the nodes in pre-order, each
      drawn if and only if it has a vertex array. */
  lemma {:induction false} DrawsOfPreOrder(s: Shape, parent: Mat4)
    ensures DrawsOf(s, parent) == DrawsIn(Visits(s, parent))
    decreases s, 1
  {
    var t := TransformOf(s, parent);
    KidsDrawsPreOrder(s, t, |s.kids|);
    DrawsInAppend([Visit(s, t)], KidsVisits(s, t, |s.kids|));
    assert DrawsIn([Visit(s, t)]) == OwnDraw(s.at, t) by {
      assert [Visit(s, t)][..0] == [];
    }
  }

  lemma {:induction false} KidsDrawsPreOrder(s: Shape, t: Mat4, n: nat)
    requires n <= |s.kids|
    ensures KidsDraws(s, t, n) == DrawsIn(KidsVisits(s, t, n))
    decreases s, 0, n
  {
    if n > 0 {
      var kid := s.kids[n - 1];
      KidsDrawsPreOrder(s, t, n - 1);
      DrawsOfPreOrder(kid, t);
      DrawsInAppend(KidsVisits(s, t, n - 1), Visits(kid, t));
      assert KidsDraws(s, t, n) == KidsDraws(s, t, n - 1) + DrawsOf(kid, t);
      assert KidsVisits(s, t, n) == KidsVisits(s, t, n - 1) + Visits(kid, t);
    }
  }

  /** In a tree without repeated nodes the walk reaches every node of the
      tree, and each exactly once. */
  lemma {:induction false} VisitedOnce(s: Shape, parent: Mat4)
    requires Distinct(s)
    ensures VisitedNodes(Visits(s, parent)) == Nodes(s)
    ensures forall a, b :: 0 <= a < b < |Visits(s, parent)| ==>
      Visits(s, parent)[a].tree.node != Visits(s, parent)[b].tree.node
  {
    VisitsTrees(s, parent);
  }

  // ---- which arrays are drawn, whatever the transforms ----

  /** The vertex array and index count of each draw, in order. */
  function Arrays(ds: seq<Draw>): (r: seq<(int, UInt)>)
    ensures |r| == |ds|
  {
    if ds == [] then [] else Arrays(ds[..|ds| - 1]) + [(ds[|ds| - 1].vao, ds[|ds| - 1].indexCount)]
  }

  /** The vertex array and index count of each listed tree whose root has
      geometry, in list order. */
  function Geometry(ts: seq<Shape>): seq<(int, UInt)>
  {
    if ts == [] then []
    else
      var t := ts[|ts| - 1];
      Geometry(ts[..|ts| - 1]) + (if t.at.vao != NoVertexArray then [(t.at.vao, t.at.indexCount)] else [])
  }

  lemma {:induction false} ArraysAppend(a: seq<Draw>, b: seq<Draw>)
    ensures Arrays(a + b) == Arrays(a) + Arrays(b)
    decreases |b|
  {
    if b == [] {
      assert a + b == a;
    } else {
      var b' := b[..|b| - 1];
      assert (a + b)[..|a + b| - 1] == a + b';
      assert (a + b)[|a + b| - 1] == b[|b| - 1];
      ArraysAppend(a, b');
    }
  }

  lemma {:induction false} GeometryAppend(a: seq<Shape>, b: seq<Shape>)
    ensures Geometry(a + b) == Geometry(a) + Geometry(b)
    decreases |b|
  {
    if b == [] {
      assert a + b == a;
    } else {
      var b' := b[..|b| - 1];
      assert (a + b)[..|a + b| - 1] == a + b';
      assert (a + b)[|a + b| - 1] == b[|b| - 1];
      GeometryAppend(a, b');
    }
  }

  /** The walk draws the arrays of the nodes with geometry, in pre-order. */
  lemma {:induction false} DrawOrder(s: Shape, parent: Mat4)
    ensures Arrays(DrawsOf(s, parent)) == Geometry(Subtrees(s))
    decreases s, 1
  {
    var t := TransformOf(s, parent);
    KidsDrawOrder(s, t, |s.kids|);
    ArraysAppend(OwnDraw(s.at, t), KidsDraws(s, t, |s.kids|));
    GeometryAppend([s], KidsSubtrees(s, |s.kids|));
    assert Geometry([s]) == Arrays(OwnDraw(s.at, t)) by {
      assert [s][..0] == [];
      if s.at.vao != NoVertexArray {
        assert OwnDraw(s.at, t)[..0] == [];
      }
    }
  }

  lemma {:induction false} KidsDrawOrder(s: Shape, t: Mat4, n: nat)
    requires n <= |s.kids|
    ensures Arrays(KidsDraws(s, t, n)) == Geometry(KidsSubtrees(s, n))
    decreases s, 0, n
  {
    if n > 0 {
      var kid := s.kids[n - 1];
      KidsDrawOrder(s, t, n - 1);
      DrawOrder(kid, t);
      ArraysAppend(KidsDraws(s, t, n - 1), DrawsOf(kid, t));
      GeometryAppend(KidsSubtrees(s, n - 1), Subtrees(kid));
      assert KidsDraws(s, t, n) == KidsDraws(s, t, n - 1) + DrawsOf(kid, t);
      assert KidsSubtrees(s, n) == KidsSubtrees(s, n - 1) + Subtrees(kid);
    }
  }
}
