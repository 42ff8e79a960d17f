/** The scene graph of gloom/src/sceneGraph.hpp and gloom/src/sceneGraph.cpp:
    nodes that hold a placement relative to their parent and a list of
    children, and a heap-allocated stack of matrices. */
module SceneGraph {
  import opened Floats
  import opened Unsigned

  /** A `glm::mat4`, kept abstract: the term that names how it was built.
      `Default` is `glm::mat4()`, `Translate(v)` is
      `glm::translate(glm::mat4(), v)`, `Rotate(degrees, axis)` is
      `glm::rotate(glm::radians(degrees), axis)`, `Mul` is the product. No
      algebra holds between the terms. */
  datatype Mat4 =
    | Default
    | Translate(offset: Float3)
    | Rotate(degrees: real, axis: Float3)
    | Mul(left: Mat4, right: Mat4)

  // ---- the matrix stack, as a value ----

  /** `stack->push(m)`: the old stack with `m` on top. */
  function Push(s: seq<Mat4>, m: Mat4): (r: seq<Mat4>)
    ensures |r| == |s| + 1
    ensures r[..|s|] == s && r[|s|] == m
  {
    s + [m]
  }

  /** `stack->pop()`: drops the top and keeps everything below it, defined
      on a non-empty stack only. */
  function Pop(s: seq<Mat4>): (r: seq<Mat4>)
    requires |s| > 0
    ensures |r| == |s| - 1
    ensures forall i :: 0 <= i < |r| ==> r[i] == s[i]
  {
    s[..|s| - 1]
  }

  /** `stack->top()`, defined on a non-empty stack only. */
  function Top(s: seq<Mat4>): Mat4
    requires |s| > 0
  {
    s[|s| - 1]
  }

  /** After a push the pushed matrix is on top, and a pop then restores the
      stack that was there before. */
  lemma PushThenPop(s: seq<Mat4>, m: Mat4)
    ensures Top(Push(s, m)) == m
    ensures Pop(Push(s, m)) == s
  {
    assert Push(s, m)[..|s|] == s;
  }

  /** Popping keeps everything below the top, in order: a pop and a push of
      the old top restore the stack. */
  lemma PopThenPush(s: seq<Mat4>)
    requires |s| > 0
    ensures Push(Pop(s), Top(s)) == s
    ensures forall i :: 0 <= i < |s| - 1 ==> Pop(s)[i] == s[i]
  {
  }

  /** `std::stack<glm::mat4>`; `elements` lists it bottom first. */
  class MatrixStack {
    var elements: seq<Mat4>

    constructor ()
      ensures elements == []
    {
      elements := [];
    }
  }

  /** `createEmptyMatrixStack`: a new, empty stack. */
  method CreateEmptyMatrixStack() returns (stack: MatrixStack)
    ensures fresh(stack) && stack.elements == []
  {
    stack := new MatrixStack();
  }

  /** `pushMatrix`. */
  method PushMatrix(stack: MatrixStack, matrix: Mat4)
    modifies stack
    ensures stack.elements == Push(old(stack.elements), matrix)
  {
    stack.elements := stack.elements + [matrix];
  }

  /** `popMatrix`: removes the top and returns nothing; `std::stack::pop` on
      an empty stack is undefined, so it is excluded. */
  method PopMatrix(stack: MatrixStack)
    requires |stack.elements| > 0
    modifies stack
    ensures stack.elements == Pop(old(stack.elements))
  {
    stack.elements := stack.elements[..|stack.elements| - 1];
  }

  /** `peekMatrix`: the top, on a non-empty stack; the stack is only read. */
  function PeekMatrix(stack: MatrixStack): (m: Mat4)
    reads stack
    requires |stack.elements| > 0
    ensures m == Top(stack.elements)
  {
    stack.elements[|stack.elements| - 1]
  }

  // ---- scene nodes ----

  /** The `vertexArrayObjectID` of a node without geometry. */
  const NoVertexArray: int := -1

  class SceneNode {
    var children: seq<SceneNode>
    var position: Float3
    var rotation: Float3
    var currentTransformationMatrix: Mat4
    var referencePoint: Float3
    var vertexArrayObjectID: int
    var VAOIndexCount: UInt

    /** `SceneNode()`: placed at the origin with no rotation, no geometry,
        no children. The transformation matrix is left as it comes. */
    constructor ()
      ensures HasDefaults()
    {
      position := Zero3;
      rotation := Zero3;
      referencePoint := Zero3;
      vertexArrayObjectID := NoVertexArray;
      VAOIndexCount := 0;
      children := [];
    }

    /** The state of a node as its constructor leaves it. */
    predicate HasDefaults()
      reads this
    {
      && position == Zero3 && rotation == Zero3 && referencePoint == Zero3
      && vertexArrayObjectID == NoVertexArray && VAOIndexCount == 0
      && children == []
    }
  }

  /** `createSceneNode`: a newly allocated node with the default values. */
  method CreateSceneNode() returns (node: SceneNode)
    ensures fresh(node) && node.HasDefaults()
  {
    node := new SceneNode();
  }

  /** `addChild`: appends `child` to the children of `parent` and touches
      nothing else. There is no check against duplicates or cycles. */
  method AddChild(parent: SceneNode, child: SceneNode)
    modifies parent`children
    ensures parent.children == old(parent.children) + [child]
  {
    parent.children := parent.children + [child];
  }
}
