# gloom: the mesh, terrain, path and scene-graph core, in Dafny

gloom is a small OpenGL demo. It loads a blocky character from a
Wavefront-style `.obj` file, generates a chessboard terrain, reads a
waypoint path, and draws everything through a scene graph whose nodes
cache a composed transform. This project models the non-graphical core of
that program and proves what its code promises:

- `floats.dfy` (module `Floats`): the vector payload types.
- `unsigned.dfy` (module `Unsigned`): the 32-bit width of `unsigned int`.
- `wrappers.dfy` (module `Wrappers`): `Option` and `Result`.
- `mesh.dfy` (module `MeshModel`): the `Mesh` record. It is a class whose
  lists are filled in place. `MeshData` is its value at one moment.
- `objloader.dfy` (module `ObjLoader`): `split` and `loadWavefront`.
  - The file is a sequence of lines, or `None` when it cannot be opened.
  - A value-level state machine (`ProcessLine`, `LoadLines`) says what each
    line does.
  - Imperative methods that mutate `Mesh` objects are proved to follow it.
- `character.dfy` (module `Character`): `colourFaces`, the
  `MinecraftCharacter` record and `loadMinecraftCharacterModel`.
- `chessboard.dfy` (module `Chessboard`): `generateChessboard`, as nested
  loops proved equal to a value-level description, with lemmas giving
  counts, corner positions, index patterns and the checker colouring.
- `path.dfy` (module `Waypoints`): `readCoordinatesFile` over a token
  sequence, and the `Path` waypoint cursor.
- `scenegraph.dfy` (module `SceneGraph`): the matrix stack, `SceneNode`,
  `createSceneNode` and `addChild`.
- `traversal.dfy` (module `Traversal`): `visitSceneNode`.
  - It is a recursive method over the heap of `SceneNode` objects.
  - It is specified by a ghost `Shape`: the tree the caller built.
  - It is proved to write each node's transform and to return the draws in
    pre-order.
- `scene.dfy` (module `Scene`): the eight-node tree `runProgram` builds,
  and its draw order.

Matrices are free terms (`Mat4`: `Default`, `Translate`, `Rotate`, `Mul`),
so the model states which product each node receives without any matrix
algebra. Randomness is a supplied stream of colours: the side coloured
n-th takes `draws(n)`. `std::stof` and `std::stoi` are a supplied pair of
total functions. An OpenGL draw call appears as a `Draw` value in the
returned list.

Two details follow the code exactly where a quick reading of it would
suggest otherwise:

- A face without normals appends three zero normals per triangle, not one.
  `normals.insert(end, {0.0f, 0.0f, 0.0f})` selects the initializer-list
  overload, because `float3` converts implicitly from a float.
- Each node's transform is the product
  `parent * T(position) * T(ref) * Rz * Ry * Rx * T(-ref)`, as written at
  gloom/src/program.cpp:104.

## Model

| member | source | states |
|---|---|---|
| MeshModel.EmptyMesh | gloom/src/mesh.hpp:17 | the mesh `Mesh(name)` makes has that name, four empty lists and `hasNormals` unassigned |
| MeshModel.Mesh.constructor | gloom/src/mesh.hpp:11-19 | a new mesh holds exactly `EmptyMesh(vname)` |
| MeshModel.Mesh.Copy | gloom/src/mesh.hpp:9-24 | the implicit copy has every field of the original |
| MeshModel.FaceCountOf | gloom/src/mesh.hpp:21-23 | the face count r is the vertex count n divided by 3 rounding down: 3r <= n < 3r + 3 |
| MeshModel.Mesh.FaceCount | gloom/src/mesh.hpp:21-23 | `faceCount()` is that same count, computed by a function that only reads the mesh |
| ObjLoader.FindFrom | gloom/src/OBJLoader.cpp:11 | `find` returns the first occurrence at or after the start, and `npos` exactly when there is none |
| ObjLoader.Pieces | gloom/src/OBJLoader.cpp:7-17 | with a non-empty delimiter, split yields at least one piece |
| ObjLoader.PiecesAvoidDelimiter | gloom/src/OBJLoader.cpp:7-17 | no piece of a split contains the delimiter |
| ObjLoader.PiecesJoinBack | gloom/src/OBJLoader.cpp:7-17 | joining the pieces with the delimiter gives back the input |
| ObjLoader.Split | gloom/src/OBJLoader.cpp:7-17 | the erase-and-push loop returns exactly `Pieces(target, delimiter)` |
| ObjLoader.AsSizeT | gloom/src/OBJLoader.cpp:80-82 | the conversion of an `int` to `size_t` lands in [0, 2^64) |
| ObjLoader.ZeroBasedInRange | gloom/src/OBJLoader.cpp:80-91 | the unsigned test `stoi(tok) - 1 < size` accepts exactly the references 1..size, and then indexes k - 1; reference 0 or below wraps and is rejected |
| ObjLoader.Corners | gloom/src/OBJLoader.cpp:60-86 | a face has four corners when it has a fifth token, three otherwise |
| ObjLoader.FaceTarget | gloom/src/OBJLoader.cpp:49-58 | a face line works on at least one mesh: "noname" is created when there is none |
| ObjLoader.NonFaceLines | gloom/src/OBJLoader.cpp:33-48 | an `o` line appends one empty mesh named by token 1; a `v` line appends the position `stof` reads from tokens 1 to 3, with w from token 4 or 1; a `vn` line appends the normal read from tokens 1 to 3; each leaves the rest alone; any other line changes nothing |
| ObjLoader.EmitTriangle | gloom/src/OBJLoader.cpp:141-154 | one triangle appends the three pool positions, their normals or three zero normals, and the next three running indices |
| ObjLoader.EmitCorners | gloom/src/OBJLoader.cpp:123-154 | a quad a b c d is emitted as triangle a c d then a b c; a triangle as it is |
| ObjLoader.WithFace | gloom/src/OBJLoader.cpp:58-154 | a face with differing counts leaves the mesh alone; otherwise `hasNormals` is set, and the corners are emitted only when every reference is in its pool |
| ObjLoader.ProcessLine | gloom/src/OBJLoader.cpp:30-156 | one line, tested in the source's order: `o`, `v`, `vn`, `f`, each with its minimum token count, anything else ignored |
| ObjLoader.LoadLines | gloom/src/OBJLoader.cpp:21-157 | the state after the lines processed from the first, starting with no meshes and empty pools |
| ObjLoader.FaceLineTouchesLastMeshOnly | gloom/src/OBJLoader.cpp:48-58 | a face line leaves both pools and every mesh but the last unchanged, keeps the last mesh's name, and with no mesh yields exactly one mesh named "noname" even when the face is dropped |
| ObjLoader.FaceDroppedIff | gloom/src/OBJLoader.cpp:70-120 | a face leaves vertices, normals and indices unchanged if and only if its component counts differ or a reference it uses lies outside its pool |
| ObjLoader.FaceAssignsHasNormals | gloom/src/OBJLoader.cpp:70-76 | a face with agreeing counts sets `hasNormals` to (count >= 3) even if later dropped; one with differing counts changes nothing; name and colours are never touched |
| ObjLoader.FaceEmissionOrder | gloom/src/OBJLoader.cpp:123-154 | an accepted triangle appends a, b, c; an accepted quad appends a, c, d then a, b, c; normals follow the same corners, or are zero; the indices continue the running count, three per triangle |
| ObjLoader.EmitTriangleConsistent | gloom/src/OBJLoader.cpp:141-154 | one emitted triangle keeps the invariant: one normal per vertex, whole triangles, and indices 0, 1, ..., n - 1 for n vertices |
| ObjLoader.WithFaceConsistent | gloom/src/OBJLoader.cpp:58-154 | a face, accepted or dropped, keeps that invariant |
| ObjLoader.ProcessLineConsistent | gloom/src/OBJLoader.cpp:30-156 | any line keeps the invariant on every mesh |
| ObjLoader.LoadLinesConsistent | gloom/src/OBJLoader.cpp:19-163 | for every input, every loaded mesh has one normal per vertex and indices 0, 1, ..., n - 1 for its n vertices |
| ObjLoader.PushTriangle | gloom/src/OBJLoader.cpp:141-154 | the three pushes of positions, normals and indices give the mesh `EmitTriangle` describes |
| ObjLoader.PushCorners | gloom/src/OBJLoader.cpp:123-154 | the quad-then-triangle pushes give the mesh `EmitCorners` describes |
| ObjLoader.ReadCorners | gloom/src/OBJLoader.cpp:78-108 | the `stoi(...) - 1` reads give exactly `Corners(parts, p)` |
| ObjLoader.ApplyFace | gloom/src/OBJLoader.cpp:58-154 | a face line applied to a mesh object in place leaves it holding `WithFace` of its old value, with every `continue` |
| ObjLoader.HandleFace | gloom/src/OBJLoader.cpp:48-155 | a face line on the mesh objects matches `FaceLineMeshes`, creating "noname" when needed, keeping objects distinct |
| ObjLoader.HandleLine | gloom/src/OBJLoader.cpp:30-156 | one loop pass leaves the mesh objects and both pools as `ProcessLine` says |
| ObjLoader.LoadWavefront | gloom/src/OBJLoader.cpp:19-163 | a missing file is the open error and nothing else is; otherwise the result is fresh, distinct mesh objects holding `LoadLines(lines)` |
| Character.Sides | gloom/src/OBJLoader.cpp:169 | the side count s satisfies 6s <= n < 6s + 6 for n vertices |
| Character.Resize | gloom/src/OBJLoader.cpp:172 | `resize(n, 0)` gives n colours: the old ones first, zero after |
| Character.PaintSides | gloom/src/OBJLoader.cpp:174-187 | painting sides keeps the colour list's length |
| Character.PaintSidesSlots | gloom/src/OBJLoader.cpp:174-187 | after n sides, slot i below 6n holds the opaque colour drawn for side i / 6, and every later slot is unchanged |
| Character.ColourFaces | gloom/src/OBJLoader.cpp:168-187 | the mesh `colourFaces` leaves: colours resized to one per vertex, then every whole side painted in turn, nothing else changed |
| Character.ColourFacesSlots | gloom/src/OBJLoader.cpp:168-187 | `colourFaces` gives one colour per vertex, side s's six slots the s-th drawn colour with alpha 1, the trailing slots the resized old colours, and touches no other field |
| Character.SideIsUniform | gloom/src/OBJLoader.cpp:179-186 | all six slots of a side hold the same colour |
| Character.ColourFacesConsistent | gloom/src/OBJLoader.cpp:168-187 | colouring a loaded mesh keeps it consistent, with exactly one colour per vertex |
| Character.PaintSideInPlace | gloom/src/OBJLoader.cpp:181-186 | the six `colours.at(...) = c` writes set exactly slots 6s..6s+5 |
| Character.ColourFacesInPlace | gloom/src/OBJLoader.cpp:168-187 | the in-place resize and loop leave the mesh holding `ColourFaces`, and use one colour per side |
| Character.PartOf | gloom/src/OBJLoader.cpp:202-214 | the name test selects a slot only for that slot's exact name |
| Character.PartOfNameOf | gloom/src/OBJLoader.cpp:202-214 | each slot's name selects that slot, so the six names are distinct |
| Character.Put | gloom/src/OBJLoader.cpp:203-213 | `out.<slot> = mesh` replaces that slot and keeps the other five |
| Character.ColourAll | gloom/src/OBJLoader.cpp:195-198 | colouring every mesh gives one result per mesh |
| Character.RouteAll | gloom/src/OBJLoader.cpp:195-216 | the already coloured meshes routed in order to the slot of their name, stopping with an error at the first unknown name |
| Character.Assemble | gloom/src/OBJLoader.cpp:193-219 | the loop's outcome: every mesh coloured in turn from the colour stream, then routed |
| Character.LastNamed | gloom/src/OBJLoader.cpp:195-213 | the index found is the last mesh with that name, or there is none |
| Character.OffsetStep | gloom/src/OBJLoader.cpp:195-198 | each mesh uses up its own number of sides from the colour stream |
| Character.ColourAllNames | gloom/src/OBJLoader.cpp:198 | colouring keeps every mesh's name |
| Character.ColourAllAt | gloom/src/OBJLoader.cpp:195-198 | mesh j is coloured from the colours after those its predecessors used |
| Character.LastNamedColoured | gloom/src/OBJLoader.cpp:195-213 | colouring changes no mesh's position in the last-of-name search |
| Character.RouteAllOkIff | gloom/src/OBJLoader.cpp:195-216 | routing succeeds if and only if every name is a part name; otherwise the error names the first unknown one |
| Character.RouteAllSlot | gloom/src/OBJLoader.cpp:195-213 | after routing, each slot holds the last mesh of its name, or its old value when no mesh has that name |
| Character.RouteAllStep | gloom/src/OBJLoader.cpp:202-216 | a known name stores the mesh and routing continues; an unknown name ends it with that error |
| Character.AssembleOkIff | gloom/src/OBJLoader.cpp:190-219 | the character load succeeds if and only if every mesh has a part name; "noname" always fails |
| Character.AssembleSlotNamed | gloom/src/OBJLoader.cpp:195-213 | on success, a slot holds the coloured last mesh of its name, with the colours that mesh was given |
| Character.AssembleSlotUnnamed | gloom/src/OBJLoader.hpp:14-19 | on success, a slot no mesh names keeps `Mesh("<missing>")` |
| Character.MinecraftCharacter.constructor | gloom/src/OBJLoader.hpp:13-20 | a new character holds six `Mesh("<missing>")` slots |
| Character.MinecraftCharacter.Store | gloom/src/OBJLoader.cpp:202-216 | a known name stores the mesh in exactly its slot; an unknown name changes nothing and reports failure |
| Character.ColourAndStore | gloom/src/OBJLoader.cpp:195-216 | one loop body colours a copy, stores it by name in a fresh object, keeps the slots apart, and advances the colour cursor by its sides |
| Character.LoopStep | gloom/src/OBJLoader.cpp:195-216 | one pass keeps the loaded meshes untouched and advances the remaining routing, or produces its error |
| Character.AssembleCharacter | gloom/src/OBJLoader.cpp:193-219 | the loop returns the error `Assemble` gives, or a fresh character holding `Assemble`'s slots, each slot a fresh mesh object of its own |
| Character.LoadMinecraftCharacterModel | gloom/src/OBJLoader.cpp:190-220 | a missing file is the open error; otherwise the result is what `Assemble` gives for the loaded meshes, with six fresh, different slot objects |
| Chessboard.TileCorners | gloom/src/toolbox.cpp:24-41 | a tile has four corners |
| Chessboard.TileIndices | gloom/src/toolbox.cpp:29-36 | a tile has six indices |
| Chessboard.Chessboard | gloom/src/toolbox.cpp:6-66 | the returned mesh: named "Chessboard terrain", the column-by-column tile lists, no normals, `hasNormals` false |
| Chessboard.ChessboardShape | gloom/src/toolbox.cpp:16-63 | the board is named "Chessboard terrain", has no normals and `hasNormals == false`, holds 4wh vertices, 4wh colours, 6wh indices all below 4wh, has every vertex at y = 0 with w = 1, and is empty when w or h is 0 |
| Chessboard.ChessboardCorner | gloom/src/toolbox.cpp:22-55 | tile (x, y) is tile k = xh + y; vertex 4k + j is its corner j in the order left-bottom, right-bottom, right-top, left-top, coloured `tileColour1` exactly when x + y is odd |
| Chessboard.ChessboardIndex | gloom/src/toolbox.cpp:29-36 | tile k's indices are 4k, 4k+2, 4k+1, 4k, 4k+3, 4k+2, at positions 6k..6k+5 |
| Chessboard.OddTileParity | gloom/src/toolbox.cpp:43 | `((x ^ y) & 1) == 1` on 32-bit counters holds exactly when x + y is odd |
| Chessboard.SumParity | gloom/src/toolbox.cpp:43 | x + y is odd exactly when x and y differ in parity |
| Chessboard.AddTileSound | gloom/src/toolbox.cpp:29-55 | one tile keeps one colour per vertex, every index below the vertex count, every vertex on y = 0 with w = 1 |
| Chessboard.ColumnsSizes | gloom/src/toolbox.cpp:22-57 | after x columns the lists hold 4xh vertices and colours and 6xh indices |
| Chessboard.PushTile | gloom/src/toolbox.cpp:24-55 | the inner loop body appends exactly the lists `AddTile` describes |
| Chessboard.GenerateChessboard | gloom/src/toolbox.cpp:6-66 | the nested loops return a fresh mesh holding `Chessboard(w, h, style)` |
| Waypoints.Pairs | gloom/src/toolbox.cpp:128-133 | n pairs are read |
| Waypoints.ReadCoordinatesFile | gloom/src/toolbox.cpp:110-140 | the read loop returns exactly `Coordinates(file)` |
| Waypoints.PairsAt | gloom/src/toolbox.cpp:128-133 | point i is made of tokens 2i+1 and 2i+2 |
| Waypoints.Coordinates | gloom/src/toolbox.cpp:110-140 | what `readCoordinatesFile` returns: nothing for a missing file or a count <= 0, otherwise that many pairs |
| Waypoints.CoordinatesShape | gloom/src/toolbox.cpp:110-140 | a missing file or a count <= 0 gives no points; otherwise the count gives their number and the pairs follow in file order |
| Waypoints.CoordinatesEncode | gloom/src/toolbox.cpp:110-140 | reading back a written list gives that list, whatever follows it in the file |
| Waypoints.Encode | gloom/src/toolbox.cpp:123-133 | a written list has one count token and two tokens per point |
| Waypoints.Next | gloom/src/toolbox.cpp:163-166 | one step stays in [0, n) |
| Waypoints.AdvanceIsModulo | gloom/src/toolbox.cpp:163-166 | k steps from waypoint i reach (i + k) mod n |
| Waypoints.FullCycle | gloom/src/toolbox.cpp:163-166 | n steps bring the cursor back to where it started |
| Waypoints.UnsignedStep | gloom/src/toolbox.cpp:163-166 | the unsigned increment and the size cast agree with `Next` on a cursor in range |
| Waypoints.WithinReachIffDistance | gloom/src/toolbox.cpp:151-161 | the squared-distance test holds exactly when the distance is below tileWidth / 10 |
| Waypoints.Path.constructor | gloom/src/toolbox.cpp:142-144 | a new path holds the file's points unvalidated, with the cursor at 0 |
| Waypoints.Path.GetCurrentWaypoint | gloom/src/toolbox.cpp:146-149 | on a cursor in range, the current waypoint is scaled by tileWidth |
| Waypoints.Path.HasWaypointBeenReached | gloom/src/toolbox.cpp:151-161 | the squared distance from the scaled current waypoint to the character is below the squared tenth of a tile |
| Waypoints.ReachedIffDistance | gloom/src/toolbox.cpp:151-161 | the waypoint counts as reached exactly when the distance d from it to the character is below tileWidth / 10 |
| Waypoints.Path.AdvanceToNextWaypoint | gloom/src/toolbox.cpp:163-166 | the cursor becomes the unsigned (i + 1) mod size, stays below the size, and equals `Next` when it was in range |
| SceneGraph.Push | gloom/src/sceneGraph.cpp:14-16 | a push grows the stack by one, keeps the old stack below and puts the matrix on top |
| SceneGraph.Pop | gloom/src/sceneGraph.cpp:19-21 | a pop, on a non-empty stack, shrinks it by one and keeps every matrix below the top in place |
| SceneGraph.PushThenPop | gloom/src/sceneGraph.cpp:14-26 | after a push the pushed matrix is on top, and a pop restores the previous stack |
| SceneGraph.PopThenPush | gloom/src/sceneGraph.cpp:19-26 | a pop keeps everything below the top, in order |
| SceneGraph.MatrixStack.constructor | gloom/src/sceneGraph.cpp:10 | a new stack is empty |
| SceneGraph.CreateEmptyMatrixStack | gloom/src/sceneGraph.cpp:9-11 | returns a fresh empty stack |
| SceneGraph.PushMatrix | gloom/src/sceneGraph.cpp:14-16 | appends the matrix on top and changes only that stack |
| SceneGraph.PopMatrix | gloom/src/sceneGraph.cpp:19-21 | removes exactly the top, on a non-empty stack, and returns nothing |
| SceneGraph.PeekMatrix | gloom/src/sceneGraph.cpp:24-26 | returns the top of a non-empty stack, only reading it |
| SceneGraph.SceneNode.constructor | gloom/src/sceneGraph.hpp:31-38 | a new node has position, rotation and reference point (0,0,0), vertex array -1, index count 0 and no children |
| SceneGraph.CreateSceneNode | gloom/src/sceneGraph.cpp:43-45 | returns a freshly allocated node with those defaults |
| SceneGraph.AddChild | gloom/src/sceneGraph.cpp:48-50 | appends the child to the parent's children, keeps the earlier ones, and changes no other field or node |
| Traversal.Subtrees | gloom/src/program.cpp:113-115 | the pre-order list of subtrees starts with the node itself |
| Traversal.LocalFactors | gloom/src/program.cpp:96-102 | a node contributes six factors |
| Traversal.NodeTransform | gloom/src/program.cpp:96-104 | the node's stored transform: the parent's times T(position), T(ref), Rz, Ry, Rx, T(-ref), multiplied left to right |
| Traversal.NodeTransformFactors | gloom/src/program.cpp:96-104 | the stored transform is the parent's factors followed by T(position), T(ref), Rz, Ry, Rx, T(-ref) |
| Traversal.OwnDraw | gloom/src/program.cpp:108-111 | a node issues one draw, with its transform, vertex array and index count, exactly when its vertex array is not -1, and none otherwise |
| Traversal.Visits | gloom/src/program.cpp:94-116 | the nodes the walk reaches, each with the transform it receives: the node first, then each child's visits in list order |
| Traversal.DrawsOf | gloom/src/program.cpp:94-116 | the draws the walk issues: the node's own draw, then each child's draws in list order under the node's new transform |
| Traversal.VisitsTrees | gloom/src/program.cpp:104-115 | the walk reaches the subtrees in pre-order |
| Traversal.KidIsTree | gloom/src/program.cpp:113-115 | a child of a tree is a tree |
| Traversal.KidApart | gloom/src/program.cpp:113-115 | in a tree without repeated nodes, a child's nodes are the parent's, exclude the parent, and exclude every node visited before it |
| Traversal.DrawsRoot | gloom/src/program.cpp:104-115 | a node's draws are its own, then its children's in list order |
| Traversal.VisitSceneNode | gloom/src/program.cpp:94-116 | on a tree, the walk leaves each node holding the transform it is given by its parent, and returns the draws of `DrawsOf`; only `currentTransformationMatrix` of the tree's nodes may change |
| Traversal.DrawsInExactly | gloom/src/program.cpp:108-111 | every draw comes from a visited node with a vertex array and uses its transform and count, and every such node's draw is issued |
| Traversal.DrawsOfPreOrder | gloom/src/program.cpp:104-115 | the walk's draws are those of its pre-order visits, each child receiving its parent's new transform |
| Traversal.KidsDrawsPreOrder | gloom/src/program.cpp:113-115 | the children's draws are those of their visits, in list order |
| Traversal.VisitedOnce | gloom/src/program.cpp:94-116 | in a tree without repeated nodes, the walk reaches every node, and no node twice |
| Traversal.DrawOrder | gloom/src/program.cpp:108-115 | the walk draws the arrays of the nodes with geometry, in pre-order |
| Traversal.KidsDrawOrder | gloom/src/program.cpp:113-115 | the children draw their geometry in list order |
| Scene.AsInt | gloom/src/program.cpp:173-179 | an `unsigned int` stored into the `int` field is the two's-complement value: in range, congruent mod 2^32, and equal below 2^31 |
| Scene.AsUInt | gloom/src/program.cpp:183-189 | a `size_t` count stored into the `unsigned int` field is congruent mod 2^32, and equal when it fits |
| Scene.SceneSubtrees | gloom/src/program.cpp:158-171 | the scene's subtrees in pre-order are root, torso, head, left arm, right arm, left leg, right leg, chessboard |
| Scene.SceneIsTree | gloom/src/program.cpp:150-171 | eight different nodes agreeing with their parts form the scene as a tree |
| Scene.SceneDrawOrder | gloom/src/program.cpp:158-180 | with no array on the root and one on every other node, the walk draws torso, head, left arm, right arm, left leg, right leg, chessboard |
| Scene.SceneHolds | gloom/src/program.cpp:173-196 | nodes with the scene's children, pivots and meshes agree with every part of the scene |
| Scene.CreateNodes | gloom/src/program.cpp:150-157 | eight fresh, different nodes with the default values |
| Scene.LinkNodes | gloom/src/program.cpp:158-171 | torso gets head, left arm, right arm, left leg, right leg, and root gets torso and chessboard |
| Scene.EquipNodes | gloom/src/program.cpp:173-196 | each node receives its vertex array, index count and pivot; root keeps -1 and position and rotation stay zero |
| Scene.BuildScene | gloom/src/program.cpp:150-196 | the set-up yields eight fresh nodes forming, as a tree, exactly the scene with the given meshes and pivots |

## Left out

- File opening and reading: a file is its lines (the OBJ loader) or its
  integer tokens (coordinates), or `None` when it cannot be opened.
- `std::stof` and `std::stoi` are supplied total functions. The exceptions
  they throw on a malformed or empty token are not modelled.
- The `[WARNING]` diagnostics of `loadWavefront`, the `std::cerr` messages
  of `readCoordinatesFile`, `printNode` and `printMatrix`: output only.
- Floating point: vector components are exact reals, and the arithmetic
  of `getCurrentWaypoint` and of the tile corners is exact.
- Matrix contents: `Mat4` is a free term with no algebra. Whether
  `glm::mat4()` is the identity, and any fact about products, is not stated.
- `randomUniformFloat` is replaced by a supplied colour stream and a
  cursor. Its global seed state is not modelled.
- `getTimeDeltaSeconds`, `toRadians`, `vertexArrayObject`, the OpenGL and
  GLFW calls, the shader set-up, the render loop, keyboard input and the
  walk-cycle and steering code are not part of this model. The vertex
  array ids are parameters of `Scene.BuildScene`.
- Waypoints.ReadCoordinatesFile: past the end of the file the source's
  extraction stores nothing, so `pointCount` and `currentPoint`, which
  have no initialiser, keep indeterminate values. An empty file therefore
  gives an unpredictable count, and a count larger than the pairs present
  pushes unpredictable points. The model reads 0 for each such undefined
  read; that is its choice, not the source's behaviour. The stream's
  failure state, which makes every later extraction fail, is not modelled
  either.
- Waypoints.ReadCoordinatesFile: the signed `int` loop counter and count
  are unbounded integers, so counts above 2^31 - 1 are not modelled.
- Chessboard.GenerateChessboard: the indices are unbounded naturals, so
  the `unsigned int` wrap of `baseIndex` above 2^32 vertices is not
  modelled. The `reserve` calls only affect capacity and are left out.
- ObjLoader.LoadWavefront: the `unsigned(mesh.indices.size())` truncation
  is not modelled, so indices count past 2^32 without wrapping.
- Waypoints.Path.GetCurrentWaypoint: its contract states the scaled
  coordinates as computed; `at` throwing on a cursor out of range is
  excluded by the precondition instead of modelled as an error.
- Traversal.VisitSceneNode: the caller supplies the tree as a ghost
  `Shape` value that agrees with the heap, so only trees are walked. Shared
  nodes, which the source visits once per path (drawing them again and
  keeping the last path's transform), and cycles, where it recurses
  forever, are both excluded by that precondition.
- Character.RouteAll and Character.Assemble: the source's `runtime_error`
  for an unknown part name has a fixed message that names no mesh. The
  model's `UnrecognisedPart(name)` also carries the name of the first
  unrecognised mesh, which the source does not report. The message text is
  not modelled.
- Scene.BuildScene: the set-up in `runProgram` is split into three phase
  methods (`CreateNodes`, `LinkNodes`, `EquipNodes`) that make the same
  calls and stores in the same order. The `printNode` calls between them
  are left out.
