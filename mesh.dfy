/** The `Mesh` record of gloom/src/mesh.hpp: a named bag of per-vertex lists
    that the loader and the chessboard generator fill in place. */
module MeshModel {
  import opened Wrappers
  import opened Floats

  /** The value of a mesh at one moment. `hasNormals` is `None` until some code
      assigns it: the constructor leaves the C++ bool uninitialised. */
  datatype MeshData = MeshData(
    name: string,
    vertices: seq<Float4>,
    colours: seq<Float4>,
    normals: seq<Float3>,
    indices: seq<nat>,
    hasNormals: Option<bool>)

  /** The value `Mesh(name)` constructs. A constructor promises exactly its
      field values, so the contract lists them; `Mesh.constructor` is tied to it. */
  function EmptyMesh(name: string): (m: MeshData)
    ensures m.name == name && m.hasNormals == None
    ensures m.vertices == [] && m.colours == [] && m.normals == [] && m.indices == []
  {
    MeshData(name, [], [], [], [], None)
  }

  /** Number of whole triangles among the vertices (`faceCount()`). */
  function FaceCountOf(m: MeshData): (r: nat)
    ensures 3 * r <= |m.vertices| < 3 * r + 3
  {
    |m.vertices| / 3
  }

  class Mesh {
    var name: string
    var vertices: seq<Float4>
    var colours: seq<Float4>
    var normals: seq<Float3>
    var indices: seq<nat>
    var hasNormals: Option<bool>

    /** `Mesh(std::string vname)`: stores the name, every list empty,
        `hasNormals` not assigned. */
    constructor (vname: string)
      ensures View() == EmptyMesh(vname)
    {
      name := vname;
      vertices, colours, normals, indices := [], [], [], [];
      hasNormals := None;
    }

    /** The implicit copy constructor, used where the source copies a `Mesh`
        by value. */
    constructor Copy(other: Mesh)
      ensures View() == other.View()
    {
      name := other.name;
      vertices, colours, normals, indices := other.vertices, other.colours, other.normals, other.indices;
      hasNormals := other.hasNormals;
    }

    function View(): MeshData
      reads this
    {
      MeshData(name, vertices, colours, normals, indices, hasNormals)
    }

    /** `faceCount()`: a read-only query, |vertices| divided by 3 rounding down. */
    function FaceCount(): (r: nat)
      reads this
      ensures r == FaceCountOf(View())
      ensures 3 * r <= |vertices| < 3 * r + 3
    {
      |vertices| / 3
    }
  }
}
