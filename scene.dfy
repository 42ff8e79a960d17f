/** The scene `runProgram` of gloom/src/program.cpp sets up before its render
    loop: a root holding the character's torso and the chessboard, the
    torso holding the head, the arms and the legs. */
module Scene {
  import opened Floats
  import opened Unsigned
  import opened SceneGraph
  import opened Traversal

  /** An `unsigned int` stored into the `int` field `vertexArrayObjectID`:
      the same value modulo 2^32, read as a two's complement number. */
  function AsInt(u: UInt): (r: int)
    ensures -0x8000_0000 <= r < 0x8000_0000
    ensures (r - u as int) % UIntLimit == 0
    ensures u < 0x8000_0000 ==> r == u as int
  {
    if u < 0x8000_0000 then u as int else u as int - UIntLimit
  }

  /** A `size_t` count stored into the `unsigned int` field `VAOIndexCount`. */
  function AsUInt(n: nat): (r: UInt)
    ensures (r as int - n) % UIntLimit == 0
    ensures n < UIntLimit ==> r as int == n
  {
    (n % UIntLimit) as UInt
  }

  /** A node with the values of the fields the walk reads. */
  datatype Part = Part(node: SceneNode, at: Placement)

  function Leaf(p: Part): Shape
  {
    Shape(p.node, p.at, [])
  }

  function Body(torso: Part, head: Part, leftArm: Part, rightArm: Part, leftLeg: Part, rightLeg: Part): Shape
  {
    Shape(torso.node, torso.at, [Leaf(head), Leaf(leftArm), Leaf(rightArm), Leaf(leftLeg), Leaf(rightLeg)])
  }

  /** The tree `runProgram` builds with `addChild`. */
  function SceneShape(root: Part, torso: Part, head: Part, leftArm: Part, rightArm: Part,
                      leftLeg: Part, rightLeg: Part, chess: Part): Shape
  {
    Shape(root.node, root.at, [Body(torso, head, leftArm, rightArm, leftLeg, rightLeg), Leaf(chess)])
  }

  lemma {:induction false} LeafSubtrees(p: Part)
    ensures Subtrees(Leaf(p)) == [Leaf(p)]
  {
    assert KidsSubtrees(Leaf(p), 0) == [];
  }

  /** The scene's subtrees in pre-order: root, torso, head, left arm, right
      arm, left leg, right leg, chessboard. */
  lemma {:induction false} SceneSubtrees(root: Part, torso: Part, head: Part, leftArm: Part, rightArm: Part,
                                         leftLeg: Part, rightLeg: Part, chess: Part)
    ensures Subtrees(SceneShape(root, torso, head, leftArm, rightArm, leftLeg, rightLeg, chess))
         == [SceneShape(root, torso, head, leftArm, rightArm, leftLeg, rightLeg, chess),
             Body(torso, head, leftArm, rightArm, leftLeg, rightLeg),
             Leaf(head), Leaf(leftArm), Leaf(rightArm), Leaf(leftLeg), Leaf(rightLeg), Leaf(chess)]
  {
    var body := Body(torso, head, leftArm, rightArm, leftLeg, rightLeg);
    var scene := SceneShape(root, torso, head, leftArm, rightArm, leftLeg, rightLeg, chess);
    LeafSubtrees(head);
    LeafSubtrees(leftArm);
    LeafSubtrees(rightArm);
    LeafSubtrees(leftLeg);
    LeafSubtrees(rightLeg);
    LeafSubtrees(chess);
    assert KidsSubtrees(body, 1) == [Leaf(head)];
    assert KidsSubtrees(body, 2) == [Leaf(head), Leaf(leftArm)];
    assert KidsSubtrees(body, 3) == [Leaf(head), Leaf(leftArm), Leaf(rightArm)];
    assert KidsSubtrees(body, 4) == [Leaf(head), Leaf(leftArm), Leaf(rightArm), Leaf(leftLeg)];
    assert KidsSubtrees(body, 5) == [Leaf(head), Leaf(leftArm), Leaf(rightArm), Leaf(leftLeg), Leaf(rightLeg)];
    assert Subtrees(body) == [body, Leaf(head), Leaf(leftArm), Leaf(rightArm), Leaf(leftLeg), Leaf(rightLeg)];
    assert KidsSubtrees(scene, 1) == Subtrees(body);
    assert KidsSubtrees(scene, 2) == Subtrees(body) + [Leaf(chess)];
  }

  /** No node occurs twice in the list. */
  predicate AllDifferent(ns: seq<SceneNode>)
  {
    forall a, b :: 0 <= a < b < |ns| ==> ns[a] != ns[b]
  }

  /** Eight different nodes, each agreeing with its part, form the scene as a
      tree. */
  lemma {:induction false} SceneIsTree(root: Part, torso: Part, head: Part, leftArm: Part, rightArm: Part,
                                       leftLeg: Part, rightLeg: Part, chess: Part)
    requires AllDifferent([root.node, torso.node, head.node, leftArm.node, rightArm.node,
                           leftLeg.node, rightLeg.node, chess.node])
    requires Holds(SceneShape(root, torso, head, leftArm, rightArm, leftLeg, rightLeg, chess))
    requires Holds(Body(torso, head, leftArm, rightArm, leftLeg, rightLeg))
    requires Holds(Leaf(head)) && Holds(Leaf(leftArm)) && Holds(Leaf(rightArm))
    requires Holds(Leaf(leftLeg)) && Holds(Leaf(rightLeg)) && Holds(Leaf(chess))
    ensures IsTree(SceneShape(root, torso, head, leftArm, rightArm, leftLeg, rightLeg, chess))
  {
    var scene := SceneShape(root, torso, head, leftArm, rightArm, leftLeg, rightLeg, chess);
    SceneSubtrees(root, torso, head, leftArm, rightArm, leftLeg, rightLeg, chess);
    var ts := Subtrees(scene);
    var ns := [root.node, torso.node, head.node, leftArm.node, rightArm.node, leftLeg.node, rightLeg.node, chess.node];
    assert forall j :: 0 <= j < 8 ==> ts[j].node == ns[j];
  }

  /** `(vao, count)` of a part, as `Geometry` lists it. */
  function Arr(p: Part): (int, UInt)
  {
    (p.at.vao, p.at.indexCount)
  }

  /** With no array on the root and one on every other node, the walk draws
      the torso, the head, the left arm, the right arm, the left leg, the
      right leg and the chessboard, in that order, whatever the node
      positions and rotations and the transform it starts from. */
  lemma {:induction false} SceneDrawOrder(root: Part, torso: Part, head: Part, leftArm: Part, rightArm: Part,
                                          leftLeg: Part, rightLeg: Part, chess: Part, transform: Mat4)
    requires root.at.vao == NoVertexArray
    requires torso.at.vao != NoVertexArray && head.at.vao != NoVertexArray
    requires leftArm.at.vao != NoVertexArray && rightArm.at.vao != NoVertexArray
    requires leftLeg.at.vao != NoVertexArray && rightLeg.at.vao != NoVertexArray
    requires chess.at.vao != NoVertexArray
    ensures Arrays(DrawsOf(SceneShape(root, torso, head, leftArm, rightArm, leftLeg, rightLeg, chess), transform))
         == [Arr(torso), Arr(head), Arr(leftArm), Arr(rightArm), Arr(leftLeg), Arr(rightLeg), Arr(chess)]
  {
    var scene := SceneShape(root, torso, head, leftArm, rightArm, leftLeg, rightLeg, chess);
    var body := Body(torso, head, leftArm, rightArm, leftLeg, rightLeg);
    DrawOrder(scene, transform);
    SceneSubtrees(root, torso, head, leftArm, rightArm, leftLeg, rightLeg, chess);
    var ts := [scene, body, Leaf(head), Leaf(leftArm), Leaf(rightArm), Leaf(leftLeg), Leaf(rightLeg), Leaf(chess)];
    assert Geometry(ts[..1]) == [] by { assert ts[..1][..0] == []; }
    assert Geometry(ts[..2]) == [Arr(torso)] by { assert ts[..2][..1] == ts[..1]; }
    assert Geometry(ts[..3]) == [Arr(torso), Arr(head)] by { assert ts[..3][..2] == ts[..2]; }
    assert Geometry(ts[..4]) == [Arr(torso), Arr(head), Arr(leftArm)] by { assert ts[..4][..3] == ts[..3]; }
    assert Geometry(ts[..5]) == [Arr(torso), Arr(head), Arr(leftArm), Arr(rightArm)] by {
      assert ts[..5][..4] == ts[..4];
    }
    assert Geometry(ts[..6]) == [Arr(torso), Arr(head), Arr(leftArm), Arr(rightArm), Arr(leftLeg)] by {
      assert ts[..6][..5] == ts[..5];
    }
    assert Geometry(ts[..7]) == [Arr(torso), Arr(head), Arr(leftArm), Arr(rightArm), Arr(leftLeg), Arr(rightLeg)] by {
      assert ts[..7][..6] == ts[..6];
    }
    assert ts[..8] == ts;
    assert ts[..8][..7] == ts[..7];
  }

  /** A mesh as the scene receives it: the vertex array OpenGL made for it
      and the size of its index list. */
  datatype MeshArray = MeshArray(vao: UInt, indexCount: nat)

  const HeadPivot: Float3 := Float3(-4.0, 24.0, 0.0)
  const TorsoPivot: Float3 := Float3(-4.0, 24.0, 0.0)
  const LeftArmPivot: Float3 := Float3(0.0, 24.0, 0.0)
  const RightArmPivot: Float3 := Float3(-8.0, 24.0, 0.0)
  const LeftLegPivot: Float3 := Float3(-2.0, 12.0, 0.0)
  const RightLegPivot: Float3 := Float3(-6.0, 12.0, 0.0)

  /** A node as `runProgram` leaves it before the render loop: at the origin,
      not rotated, pivoting about `referencePoint`, drawing mesh `m`. */
  function Equipped(node: SceneNode, referencePoint: Float3, m: MeshArray): Part
  {
    Part(node, Placement(Zero3, Zero3, referencePoint, AsInt(m.vao), AsUInt(m.indexCount)))
  }

  /** The root: at the origin, without geometry. */
  function Bare(node: SceneNode): Part
  {
    Part(node, Placement(Zero3, Zero3, Zero3, NoVertexArray, 0))
  }

  /** Position and rotation are still those of a new node. */
  predicate Unplaced(n: SceneNode)
    reads n`position, n`rotation
  {
    n.position == Zero3 && n.rotation == Zero3
  }

  /** The node pivots about `referencePoint` and draws mesh `m`. */
  predicate Carries(n: SceneNode, referencePoint: Float3, m: MeshArray)
    reads n`referencePoint, n`vertexArrayObjectID, n`VAOIndexCount
  {
    n.referencePoint == referencePoint && n.vertexArrayObjectID == AsInt(m.vao) && n.VAOIndexCount == AsUInt(m.indexCount)
  }

  /** Nodes with the children, pivots and meshes of the scene agree with its
      shape. */
  lemma {:induction false} SceneHolds(rootNode: SceneNode, torsoNode: SceneNode, headNode: SceneNode, leftArmNode: SceneNode,
                    rightArmNode: SceneNode, leftLegNode: SceneNode, rightLegNode: SceneNode, chessNode: SceneNode,
                    chess: MeshArray, head: MeshArray, torso: MeshArray, leftArm: MeshArray, rightArm: MeshArray,
                    leftLeg: MeshArray, rightLeg: MeshArray)
    requires torsoNode.children == [headNode, leftArmNode, rightArmNode, leftLegNode, rightLegNode]
    requires rootNode.children == [torsoNode, chessNode]
    requires headNode.children == [] && leftArmNode.children == [] && rightArmNode.children == []
    requires leftLegNode.children == [] && rightLegNode.children == [] && chessNode.children == []
    requires Unplaced(rootNode) && Unplaced(torsoNode) && Unplaced(headNode) && Unplaced(leftArmNode)
    requires Unplaced(rightArmNode) && Unplaced(leftLegNode) && Unplaced(rightLegNode) && Unplaced(chessNode)
    requires rootNode.referencePoint == Zero3 && rootNode.vertexArrayObjectID == NoVertexArray && rootNode.VAOIndexCount == 0
    requires Carries(torsoNode, TorsoPivot, torso) && Carries(headNode, HeadPivot, head)
    requires Carries(leftArmNode, LeftArmPivot, leftArm) && Carries(rightArmNode, RightArmPivot, rightArm)
    requires Carries(leftLegNode, LeftLegPivot, leftLeg) && Carries(rightLegNode, RightLegPivot, rightLeg)
    requires Carries(chessNode, Zero3, chess)
    ensures Holds(Leaf(Equipped(headNode, HeadPivot, head)))
    ensures Holds(Leaf(Equipped(leftArmNode, LeftArmPivot, leftArm)))
    ensures Holds(Leaf(Equipped(rightArmNode, RightArmPivot, rightArm)))
    ensures Holds(Leaf(Equipped(leftLegNode, LeftLegPivot, leftLeg)))
    ensures Holds(Leaf(Equipped(rightLegNode, RightLegPivot, rightLeg)))
    ensures Holds(Leaf(Equipped(chessNode, Zero3, chess)))
    ensures Holds(Body(Equipped(torsoNode, TorsoPivot, torso), Equipped(headNode, HeadPivot, head),
                       Equipped(leftArmNode, LeftArmPivot, leftArm), Equipped(rightArmNode, RightArmPivot, rightArm),
                       Equipped(leftLegNode, LeftLegPivot, leftLeg), Equipped(rightLegNode, RightLegPivot, rightLeg)))
    ensures Holds(SceneShape(Bare(rootNode), Equipped(torsoNode, TorsoPivot, torso), Equipped(headNode, HeadPivot, head),
                       Equipped(leftArmNode, LeftArmPivot, leftArm), Equipped(rightArmNode, RightArmPivot, rightArm),
                       Equipped(leftLegNode, LeftLegPivot, leftLeg), Equipped(rightLegNode, RightLegPivot, rightLeg),
                       Equipped(chessNode, Zero3, chess)))
  {
  }

  /** The eight `createSceneNode` calls of `runProgram`. */
  method CreateNodes()
    returns (rootNode: SceneNode, headNode: SceneNode, torsoNode: SceneNode, leftArmNode: SceneNode,
             rightArmNode: SceneNode, leftLegNode: SceneNode, rightLegNode: SceneNode, chessNode: SceneNode)
    ensures fresh({rootNode, torsoNode, headNode, leftArmNode, rightArmNode, leftLegNode, rightLegNode, chessNode})
    ensures AllDifferent([rootNode, torsoNode, headNode, leftArmNode, rightArmNode, leftLegNode, rightLegNode, chessNode])
    ensures rootNode.HasDefaults() && torsoNode.HasDefaults() && headNode.HasDefaults()
    ensures leftArmNode.HasDefaults() && rightArmNode.HasDefaults()
    ensures leftLegNode.HasDefaults() && rightLegNode.HasDefaults() && chessNode.HasDefaults()
  {
    rootNode := CreateSceneNode();
    headNode := CreateSceneNode();
    torsoNode := CreateSceneNode();
    leftArmNode := CreateSceneNode();
    rightArmNode := CreateSceneNode();
    leftLegNode := CreateSceneNode();
    rightLegNode := CreateSceneNode();
    chessNode := CreateSceneNode();
  }

  /** The seven `addChild` calls of `runProgram`: the head, the arms and the
      legs under the torso, then the torso and the chessboard under the root. */
  method LinkNodes(rootNode: SceneNode, torsoNode: SceneNode, headNode: SceneNode, leftArmNode: SceneNode,
                   rightArmNode: SceneNode, leftLegNode: SceneNode, rightLegNode: SceneNode, chessNode: SceneNode)
    requires rootNode != torsoNode
    requires rootNode.children == [] && torsoNode.children == []
    modifies rootNode`children, torsoNode`children
    ensures torsoNode.children == [headNode, leftArmNode, rightArmNode, leftLegNode, rightLegNode]
    ensures rootNode.children == [torsoNode, chessNode]
  {
    AddChild(torsoNode, headNode);
    AddChild(torsoNode, leftArmNode);
    AddChild(torsoNode, rightArmNode);
    AddChild(torsoNode, leftLegNode);
    AddChild(torsoNode, rightLegNode);
    AddChild(rootNode, torsoNode);
    AddChild(rootNode, chessNode);
  }

  /** The stores of `runProgram` that give each node its vertex array, its
      index count and its pivot, the root no vertex array. Afterwards every
      node agrees with its part of the scene. */
  method EquipNodes(rootNode: SceneNode, torsoNode: SceneNode, headNode: SceneNode, leftArmNode: SceneNode,
                    rightArmNode: SceneNode, leftLegNode: SceneNode, rightLegNode: SceneNode, chessNode: SceneNode,
                    chess: MeshArray, head: MeshArray, torso: MeshArray, leftArm: MeshArray, rightArm: MeshArray,
                    leftLeg: MeshArray, rightLeg: MeshArray)
    requires AllDifferent([rootNode, torsoNode, headNode, leftArmNode, rightArmNode, leftLegNode, rightLegNode, chessNode])
    requires torsoNode.children == [headNode, leftArmNode, rightArmNode, leftLegNode, rightLegNode]
    requires rootNode.children == [torsoNode, chessNode]
    requires headNode.children == [] && leftArmNode.children == [] && rightArmNode.children == []
    requires leftLegNode.children == [] && rightLegNode.children == [] && chessNode.children == []
    requires Unplaced(rootNode) && Unplaced(torsoNode) && Unplaced(headNode) && Unplaced(leftArmNode)
    requires Unplaced(rightArmNode) && Unplaced(leftLegNode) && Unplaced(rightLegNode) && Unplaced(chessNode)
    requires rootNode.referencePoint == Zero3 && chessNode.referencePoint == Zero3 && rootNode.VAOIndexCount == 0
    modifies {rootNode, torsoNode, headNode, leftArmNode, rightArmNode, leftLegNode, rightLegNode, chessNode}`vertexArrayObjectID
    modifies {torsoNode, headNode, leftArmNode, rightArmNode, leftLegNode, rightLegNode, chessNode}`VAOIndexCount
    modifies {torsoNode, headNode, leftArmNode, rightArmNode, leftLegNode, rightLegNode}`referencePoint
    ensures Unplaced(rootNode) && Unplaced(torsoNode) && Unplaced(headNode) && Unplaced(leftArmNode)
    ensures Unplaced(rightArmNode) && Unplaced(leftLegNode) && Unplaced(rightLegNode) && Unplaced(chessNode)
    ensures rootNode.referencePoint == Zero3 && rootNode.vertexArrayObjectID == NoVertexArray && rootNode.VAOIndexCount == 0
    ensures Carries(torsoNode, TorsoPivot, torso) && Carries(headNode, HeadPivot, head)
    ensures Carries(leftArmNode, LeftArmPivot, leftArm) && Carries(rightArmNode, RightArmPivot, rightArm)
    ensures Carries(leftLegNode, LeftLegPivot, leftLeg) && Carries(rightLegNode, RightLegPivot, rightLeg)
    ensures Carries(chessNode, Zero3, chess)
  {
    var ns := [rootNode, torsoNode, headNode, leftArmNode, rightArmNode, leftLegNode, rightLegNode, chessNode];
    assert ns[0] != ns[1] && ns[0] != ns[2] && ns[0] != ns[3] && ns[0] != ns[4] && ns[0] != ns[5] && ns[0] != ns[6] && ns[0] != ns[7];
    assert ns[1] != ns[2] && ns[1] != ns[3] && ns[1] != ns[4] && ns[1] != ns[5] && ns[1] != ns[6] && ns[1] != ns[7];
    assert ns[2] != ns[3] && ns[2] != ns[4] && ns[2] != ns[5] && ns[2] != ns[6] && ns[2] != ns[7];
    assert ns[3] != ns[4] && ns[3] != ns[5] && ns[3] != ns[6] && ns[3] != ns[7];
    assert ns[4] != ns[5] && ns[4] != ns[6] && ns[4] != ns[7];
    assert ns[5] != ns[6] && ns[5] != ns[7] && ns[6] != ns[7];
    headNode.vertexArrayObjectID := AsInt(head.vao);
    torsoNode.vertexArrayObjectID := AsInt(torso.vao);
    leftArmNode.vertexArrayObjectID := AsInt(leftArm.vao);
    rightArmNode.vertexArrayObjectID := AsInt(rightArm.vao);
    leftLegNode.vertexArrayObjectID := AsInt(leftLeg.vao);
    rightLegNode.vertexArrayObjectID := AsInt(rightLeg.vao);
    chessNode.vertexArrayObjectID := AsInt(chess.vao);
    rootNode.vertexArrayObjectID := NoVertexArray;
    headNode.VAOIndexCount := AsUInt(head.indexCount);
    torsoNode.VAOIndexCount := AsUInt(torso.indexCount);
    leftArmNode.VAOIndexCount := AsUInt(leftArm.indexCount);
    rightArmNode.VAOIndexCount := AsUInt(rightArm.indexCount);
    leftLegNode.VAOIndexCount := AsUInt(leftLeg.indexCount);
    rightLegNode.VAOIndexCount := AsUInt(rightLeg.indexCount);
    chessNode.VAOIndexCount := AsUInt(chess.indexCount);
    headNode.referencePoint := HeadPivot;
    torsoNode.referencePoint := TorsoPivot;
    leftArmNode.referencePoint := LeftArmPivot;
    rightArmNode.referencePoint := RightArmPivot;
    leftLegNode.referencePoint := LeftLegPivot;
    rightLegNode.referencePoint := RightLegPivot;
  }

  /** The scene set-up of `runProgram`: eight new nodes linked with
      `addChild`, the vertex array and index count of each mesh stored on its
      node, the root without geometry, and the pivot of each body part. The
      result is a tree whose nodes hold exactly the values the shape records. */
  method BuildScene(chess: MeshArray, head: MeshArray, torso: MeshArray, leftArm: MeshArray, rightArm: MeshArray,
                    leftLeg: MeshArray, rightLeg: MeshArray)
    returns (rootNode: SceneNode, torsoNode: SceneNode, headNode: SceneNode, leftArmNode: SceneNode,
             rightArmNode: SceneNode, leftLegNode: SceneNode, rightLegNode: SceneNode, chessNode: SceneNode,
             ghost scene: Shape)
    ensures fresh({rootNode, torsoNode, headNode, leftArmNode, rightArmNode, leftLegNode, rightLegNode, chessNode})
    ensures scene == SceneShape(Bare(rootNode), Equipped(torsoNode, TorsoPivot, torso), Equipped(headNode, HeadPivot, head),
                       Equipped(leftArmNode, LeftArmPivot, leftArm), Equipped(rightArmNode, RightArmPivot, rightArm),
                       Equipped(leftLegNode, LeftLegPivot, leftLeg), Equipped(rightLegNode, RightLegPivot, rightLeg),
                       Equipped(chessNode, Zero3, chess))
    ensures IsTree(scene)
  {
    rootNode, headNode, torsoNode, leftArmNode, rightArmNode, leftLegNode, rightLegNode, chessNode := CreateNodes();
    ghost var ns := [rootNode, torsoNode, headNode, leftArmNode, rightArmNode, leftLegNode, rightLegNode, chessNode];
    assert ns[0] != ns[1];
    assert ns[2] != ns[0] && ns[2] != ns[1] && ns[3] != ns[0] && ns[3] != ns[1] && ns[4] != ns[0] && ns[4] != ns[1];
    assert ns[5] != ns[0] && ns[5] != ns[1] && ns[6] != ns[0] && ns[6] != ns[1] && ns[7] != ns[0] && ns[7] != ns[1];
    LinkNodes(rootNode, torsoNode, headNode, leftArmNode, rightArmNode, leftLegNode, rightLegNode, chessNode);
    EquipNodes(rootNode, torsoNode, headNode, leftArmNode, rightArmNode, leftLegNode, rightLegNode, chessNode,
               chess, head, torso, leftArm, rightArm, leftLeg, rightLeg);
    SceneHolds(rootNode, torsoNode, headNode, leftArmNode, rightArmNode, leftLegNode, rightLegNode, chessNode,
               chess, head, torso, leftArm, rightArm, leftLeg, rightLeg);
    scene := SceneShape(Bare(rootNode), Equipped(torsoNode, TorsoPivot, torso), Equipped(headNode, HeadPivot, head),
                       Equipped(leftArmNode, LeftArmPivot, leftArm), Equipped(rightArmNode, RightArmPivot, rightArm),
                       Equipped(leftLegNode, LeftLegPivot, leftLeg), Equipped(rightLegNode, RightLegPivot, rightLeg),
                       Equipped(chessNode, Zero3, chess));
    SceneIsTree(Bare(rootNode), Equipped(torsoNode, TorsoPivot, torso), Equipped(headNode, HeadPivot, head),
                Equipped(leftArmNode, LeftArmPivot, leftArm), Equipped(rightArmNode, RightArmPivot, rightArm),
                Equipped(leftLegNode, LeftLegPivot, leftLeg), Equipped(rightLegNode, RightLegPivot, rightLeg),
                Equipped(chessNode, Zero3, chess));
  }
}
