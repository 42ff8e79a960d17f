/** `colourFaces` and `loadMinecraftCharacterModel` of gloom/src/OBJLoader.cpp,
    and the `MinecraftCharacter` record of gloom/src/OBJLoader.hpp.

    `randomUniformFloat` is replaced by a supplied stream of colours: the
    side coloured n-th takes `draws(n)` as its red, green and blue. A caller
    passes the position of the first unused colour and gets back the position
    after the last one used. */
module Character {
  import opened Wrappers
  import opened Floats
  import opened MeshModel
  import opened ObjLoader

  type Draws = nat -> Float3

  // ---------------------------------------------------------------------
  // colourFaces
  // ---------------------------------------------------------------------

  /** The number of rectangular sides: pairs of consecutive triangles. */
  function Sides(m: MeshData): (r: nat)
    ensures 6 * r <= |m.vertices| < 6 * r + 6
  {
    FaceCountOf(m) / 2
  }

  /** A drawn colour made fully opaque. */
  function Solid(c: Float3): Float4 {
    Float4(c.x, c.y, c.z, 1.0)
  }

  /** `colours.resize(n, 0)`: cut to `n` entries, or padded with zero colours. */
  function Resize(s: seq<Float4>, n: nat): (r: seq<Float4>)
    ensures |r| == n
    ensures forall i :: 0 <= i < n ==> r[i] == if i < |s| then s[i] else Zero4
  {
    if n <= |s| then s[..n] else s + seq(n - |s|, _ => Zero4)
  }

  /** The six colour slots of side `s` set to `c`. */
  function PaintSide(cols: seq<Float4>, s: nat, c: Float4): seq<Float4>
    requires 6 * s + 6 <= |cols|
  {
    cols[6 * s := c][6 * s + 1 := c][6 * s + 2 := c][6 * s + 3 := c][6 * s + 4 := c][6 * s + 5 := c]
  }

  /** The colours after sides 0 .. n-1 have been painted, side `s` with the
      colour at `start + s`. */
  function PaintSides(cols: seq<Float4>, draws: Draws, start: nat, n: nat): (r: seq<Float4>)
    requires 6 * n <= |cols|
    ensures |r| == |cols|
  {
    if n == 0 then cols
    else PaintSide(PaintSides(cols, draws, start, n - 1), n - 1, Solid(draws(start + n - 1)))
  }

  /** The mesh `colourFaces` leaves behind. */
  function ColourFaces(m: MeshData, draws: Draws, start: nat): MeshData {
    m.(colours := PaintSides(Resize(m.colours, |m.vertices|), draws, start, Sides(m)))
  }

  /** After n sides, slot i below 6n holds the opaque colour drawn for side
      i / 6, and every later slot is unchanged. */
  lemma {:induction false} PaintSidesSlots(cols: seq<Float4>, draws: Draws, start: nat, n: nat)
    requires 6 * n <= |cols|
    ensures forall i :: 0 <= i < |cols| ==>
      PaintSides(cols, draws, start, n)[i] == if i < 6 * n then Solid(draws(start + i / 6)) else cols[i]
  {
    if n > 0 {
      PaintSidesSlots(cols, draws, start, n - 1);
    }
  }

  /** `colourFaces`: the colour list gets exactly one entry per vertex; every
      slot of side s (slots 6s .. 6s+5) holds the s-th drawn colour with
      alpha 1; the at most five trailing slots keep the resized old colours,
      which are zero where the old list was shorter; every other field is
      unchanged. */
  lemma ColourFacesSlots(m: MeshData, draws: Draws, start: nat)
    ensures var r := ColourFaces(m, draws, start);
      && r.name == m.name && r.vertices == m.vertices && r.normals == m.normals
      && r.indices == m.indices && r.hasNormals == m.hasNormals
      && |r.colours| == |m.vertices|
      && forall i :: 0 <= i < |m.vertices| ==>
           r.colours[i] == if i < 6 * Sides(m) then Solid(draws(start + i / 6))
                           else if i < |m.colours| then m.colours[i] else Zero4
  {
    PaintSidesSlots(Resize(m.colours, |m.vertices|), draws, start, Sides(m));
  }

  /** The two triangles of one side get the same colour. */
  lemma SideIsUniform(m: MeshData, draws: Draws, start: nat, s: nat, j: nat)
    requires s < Sides(m) && j < 6
    ensures 6 * s + j < |ColourFaces(m, draws, start).colours|
    ensures ColourFaces(m, draws, start).colours[6 * s + j] == Solid(draws(start + s))
  {
    ColourFacesSlots(m, draws, start);
    assert (6 * s + j) / 6 == s;
  }

  /** Colouring leaves a well-formed loader mesh well formed. */
  lemma ColourFacesConsistent(m: MeshData, draws: Draws, start: nat)
    requires Consistent(m)
    ensures Consistent(ColourFaces(m, draws, start))
    ensures |ColourFaces(m, draws, start).colours| == |m.vertices|
  {
    ColourFacesSlots(m, draws, start);
  }

  /** The six `colours.at(side * 6 + j) = randomColour` writes of one side. */
  method PaintSideInPlace(mesh: Mesh, side: nat, colour: Float4)
    requires 6 * side + 6 <= |mesh.colours|
    modifies mesh`colours
    ensures mesh.colours == PaintSide(old(mesh.colours), side, colour)
  {
    mesh.colours := mesh.colours[6 * side + 0 := colour];
    mesh.colours := mesh.colours[6 * side + 1 := colour];
    mesh.colours := mesh.colours[6 * side + 2 := colour];
    mesh.colours := mesh.colours[6 * side + 3 := colour];
    mesh.colours := mesh.colours[6 * side + 4 := colour];
    mesh.colours := mesh.colours[6 * side + 5 := colour];
  }

  /** `colourFaces(mesh)` in place: resize the colour buffer, then write side
      after side; the result is the position after the last colour used. */
  method ColourFacesInPlace(mesh: Mesh, draws: Draws, start: nat) returns (next: nat)
    modifies mesh
    ensures mesh.View() == ColourFaces(old(mesh.View()), draws, start)
    ensures next == start + Sides(old(mesh.View()))
  {
    var sides := mesh.FaceCount() / 2;
    assert sides == Sides(mesh.View());
    mesh.colours := Resize(mesh.colours, |mesh.vertices|);
    ghost var resized := mesh.colours;
    assert 6 * sides <= |resized|;
    var side := 0;
    while side < sides
      invariant 0 <= side <= sides
      invariant 6 * sides <= |resized|
      invariant mesh.colours == PaintSides(resized, draws, start, side)
      modifies mesh`colours
    {
      var c := draws(start + side);
      var colour := Float4(c.x, c.y, c.z, 1.0);
      PaintSideInPlace(mesh, side, colour);
      assert PaintSides(resized, draws, start, side + 1) == mesh.colours;
      side := side + 1;
    }
    next := start + sides;
  }

  // ---------------------------------------------------------------------
  // MinecraftCharacter and loadMinecraftCharacterModel
  // ---------------------------------------------------------------------

  /** The value of the six slots of a `MinecraftCharacter`. */
  datatype CharacterData = CharacterData(
    leftLeg: MeshData, rightLeg: MeshData, leftArm: MeshData,
    rightArm: MeshData, torso: MeshData, head: MeshData)

  /** The slot default. */
  const Missing: MeshData := EmptyMesh("<missing>")

  /** A character whose six slots all hold the default. */
  const Unloaded: CharacterData := CharacterData(Missing, Missing, Missing, Missing, Missing, Missing)

  /** The six slots of a character. */
  datatype PartName = LeftLeg | RightLeg | LeftArm | RightArm | Torso | Head

  /** The mesh name that selects each slot. */
  function NameOf(k: PartName): string {
    match k
    case LeftLeg => "left_leg"
    case RightLeg => "right_leg"
    case LeftArm => "left_arm"
    case RightArm => "right_arm"
    case Torso => "torso"
    case Head => "head"
  }

  /** The name test of the loading loop, tried in the source's order: the
      slot whose name is exactly `name`, or `None` when there is none. */
  function PartOf(name: string): (r: Option<PartName>)
    ensures r.Some? ==> NameOf(r.value) == name
  {
    if name == "left_leg" then Some(LeftLeg)
    else if name == "right_leg" then Some(RightLeg)
    else if name == "left_arm" then Some(LeftArm)
    else if name == "right_arm" then Some(RightArm)
    else if name == "torso" then Some(Torso)
    else if name == "head" then Some(Head)
    else None
  }

  /** Each slot's own name selects that slot, so no two slots share a name. */
  lemma PartOfNameOf(k: PartName)
    ensures PartOf(NameOf(k)) == Some(k)
  {
    match k
    case LeftLeg =>
    case RightLeg =>
    case LeftArm =>
    case RightArm =>
    case Torso =>
    case Head =>
  }

  predicate IsPartName(name: string) {
    PartOf(name).Some?
  }

  /** The mesh in slot `k`. */
  function Get(c: CharacterData, k: PartName): MeshData {
    match k
    case LeftLeg => c.leftLeg
    case RightLeg => c.rightLeg
    case LeftArm => c.leftArm
    case RightArm => c.rightArm
    case Torso => c.torso
    case Head => c.head
  }

  /** `out.<slot> = mesh`: slot `k` replaced, every other slot kept. */
  function Put(c: CharacterData, k: PartName, m: MeshData): (r: CharacterData)
    ensures forall j :: Get(r, j) == if j == k then m else Get(c, j)
  {
    match k
    case LeftLeg => c.(leftLeg := m)
    case RightLeg => c.(rightLeg := m)
    case LeftArm => c.(leftArm := m)
    case RightArm => c.(rightArm := m)
    case Torso => c.(torso := m)
    case Head => c.(head := m)
  }

  /** The colours used up by colouring the first `k` meshes. */
  function Offset(ms: seq<MeshData>, k: nat): nat
    requires k <= |ms|
  {
    if k == 0 then 0 else Sides(ms[0]) + Offset(ms[1..], k - 1)
  }

  /** Every mesh of `ms` coloured in turn, the first from the colour at
      `start` and each following one from where the previous stopped. */
  function ColourAll(ms: seq<MeshData>, draws: Draws, start: nat): (r: seq<MeshData>)
    decreases |ms|
    ensures |r| == |ms|
  {
    if ms == [] then []
    else [ColourFaces(ms[0], draws, start)] + ColourAll(ms[1..], draws, start + Sides(ms[0]))
  }

  /** The routing of the loop on already coloured meshes: each one goes to
      the slot of its name; the first unknown name stops the load. */
  function RouteAll(c: CharacterData, cs: seq<MeshData>): Result<CharacterData, LoadError>
    decreases |cs|
  {
    if cs == [] then Ok(c)
    else
      match PartOf(cs[0].name)
      case None => Err(UnrecognisedPart(cs[0].name))
      case Some(k) => RouteAll(Put(c, k, cs[0]), cs[1..])
  }

  /** What the loop of `loadMinecraftCharacterModel` does with the meshes
      `ms`, starting from the character `c` and the colour at `start`: colour
      each mesh, route it, and stop at the first unknown name. */
  function Assemble(c: CharacterData, ms: seq<MeshData>, draws: Draws, start: nat): Result<CharacterData, LoadError> {
    RouteAll(c, ColourAll(ms, draws, start))
  }

  /** The index of the last mesh named `name`. */
  function LastNamed(ms: seq<MeshData>, name: string): (r: Option<nat>)
    decreases |ms|
    ensures r.Some? ==> r.value < |ms| && ms[r.value].name == name
    ensures r.Some? ==> forall j :: r.value < j < |ms| ==> ms[j].name != name
    ensures r.None? ==> forall j :: 0 <= j < |ms| ==> ms[j].name != name
  {
    if ms == [] then None
    else match LastNamed(ms[1..], name)
      case Some(k) => Some(k + 1)
      case None => if ms[0].name == name then Some(0) else None
  }

  /** The colours of the first k + 1 meshes: those of the first k, then
      those of mesh k. */
  lemma {:induction false} OffsetStep(ms: seq<MeshData>, k: nat)
    requires k < |ms|
    ensures Offset(ms, k + 1) == Offset(ms, k) + Sides(ms[k])
  {
    if k > 0 {
      OffsetStep(ms[1..], k - 1);
      assert ms[1..][k - 1] == ms[k];
    }
  }

  /** Colouring keeps every mesh's name. */
  lemma {:induction false} ColourAllNames(ms: seq<MeshData>, draws: Draws, start: nat)
    ensures |ColourAll(ms, draws, start)| == |ms|
    ensures forall j :: 0 <= j < |ms| ==> ColourAll(ms, draws, start)[j].name == ms[j].name
    decreases |ms|
  {
    if ms != [] {
      var tail := ColourAll(ms[1..], draws, start + Sides(ms[0]));
      ColourAllNames(ms[1..], draws, start + Sides(ms[0]));
      assert ColourAll(ms, draws, start) == [ColourFaces(ms[0], draws, start)] + tail;
      forall j | 0 < j < |ms| ensures ColourAll(ms, draws, start)[j].name == ms[j].name {
        assert ms[j] == ms[1..][j - 1];
      }
    }
  }

  /** Mesh j is coloured from the colour after those its predecessors used. */
  lemma {:induction false} ColourAllAt(ms: seq<MeshData>, draws: Draws, start: nat, j: nat, c: nat)
    requires j < |ms| && c == start + Offset(ms, j)
    ensures ColourAll(ms, draws, start)[j] == ColourFaces(ms[j], draws, c)
    decreases |ms|
  {
    var next := start + Sides(ms[0]);
    var tail := ColourAll(ms[1..], draws, next);
    assert ColourAll(ms, draws, start) == [ColourFaces(ms[0], draws, start)] + tail;
    if j > 0 {
      assert ColourAll(ms, draws, start)[j] == tail[j - 1];
      ColourAllAt(ms[1..], draws, next, j - 1, c);
      assert ms[1..][j - 1] == ms[j];
    }
  }

  /** Lists with the same names have the same last index for every name. */
  lemma {:induction false} LastNamedByNames(xs: seq<MeshData>, ys: seq<MeshData>, name: string)
    requires |xs| == |ys| && forall j :: 0 <= j < |xs| ==> xs[j].name == ys[j].name
    ensures LastNamed(xs, name) == LastNamed(ys, name)
    decreases |xs|
  {
    if xs != [] {
      LastNamedByNames(xs[1..], ys[1..], name);
    }
  }

  lemma LastNamedColoured(ms: seq<MeshData>, draws: Draws, start: nat, name: string)
    ensures LastNamed(ColourAll(ms, draws, start), name) == LastNamed(ms, name)
  {
    ColourAllNames(ms, draws, start);
    LastNamedByNames(ColourAll(ms, draws, start), ms, name);
  }

  lemma {:induction false} RouteAllOkIff(c: CharacterData, cs: seq<MeshData>)
    ensures RouteAll(c, cs).Ok? <==> forall j :: 0 <= j < |cs| ==> IsPartName(cs[j].name)
    ensures RouteAll(c, cs).Err? ==>
      exists j :: 0 <= j < |cs| && !IsPartName(cs[j].name)
        && (forall i :: 0 <= i < j ==> IsPartName(cs[i].name))
        && RouteAll(c, cs).error == UnrecognisedPart(cs[j].name)
    decreases |cs|
  {
    if cs != [] && IsPartName(cs[0].name) {
      var c' := Put(c, PartOf(cs[0].name).value, cs[0]);
      var rest := cs[1..];
      RouteAllOkIff(c', rest);
      assert forall j :: 1 <= j < |cs| ==> cs[j] == rest[j - 1];
      if RouteAll(c', rest).Err? {
        var j' :| 0 <= j' < |rest| && !IsPartName(rest[j'].name)
          && (forall i :: 0 <= i < j' ==> IsPartName(rest[i].name))
          && RouteAll(c', rest).error == UnrecognisedPart(rest[j'].name);
        assert cs[j' + 1] == rest[j'];
        assert forall i :: 0 <= i < j' + 1 ==> IsPartName(cs[i].name) by {
          forall i | 0 <= i < j' + 1 ensures IsPartName(cs[i].name) {
            if i > 0 { assert cs[i] == rest[i - 1]; }
          }
        }
      }
    }
  }

  lemma {:induction false} RouteAllSlot(c: CharacterData, cs: seq<MeshData>, k: PartName)
    requires RouteAll(c, cs).Ok?
    ensures LastNamed(cs, NameOf(k)).Some? ==> Get(RouteAll(c, cs).value, k) == cs[LastNamed(cs, NameOf(k)).value]
    ensures LastNamed(cs, NameOf(k)).None? ==> Get(RouteAll(c, cs).value, k) == Get(c, k)
    decreases |cs|
  {
    if cs != [] {
      var here := PartOf(cs[0].name).value;
      var c' := Put(c, here, cs[0]);
      RouteAllSlot(c', cs[1..], k);
      match LastNamed(cs[1..], NameOf(k))
      case Some(j) =>
        assert cs[j + 1] == cs[1..][j];
      case None =>
        PartOfNameOf(k);
    }
  }

  /** The load succeeds exactly when every mesh has a part name; otherwise
      the error names the first mesh that has not. In particular a file with
      a "noname" mesh always fails. */
  lemma AssembleOkIff(c: CharacterData, ms: seq<MeshData>, draws: Draws, start: nat)
    ensures Assemble(c, ms, draws, start).Ok? <==> forall j :: 0 <= j < |ms| ==> IsPartName(ms[j].name)
    ensures Assemble(c, ms, draws, start).Err? ==>
      exists j :: 0 <= j < |ms| && !IsPartName(ms[j].name)
        && (forall i :: 0 <= i < j ==> IsPartName(ms[i].name))
        && Assemble(c, ms, draws, start).error == UnrecognisedPart(ms[j].name)
  {
    var cs := ColourAll(ms, draws, start);
    RouteAllOkIff(c, cs);
    ColourAllNames(ms, draws, start);
    assert forall j :: 0 <= j < |ms| ==> IsPartName(cs[j].name) == IsPartName(ms[j].name);
  }

  /** After a successful load, slot `k` holds the LAST mesh with `k`'s
      name, coloured from `at`, the first colour left by the meshes before
      it. */
  lemma AssembleSlotNamed(c: CharacterData, ms: seq<MeshData>, draws: Draws, start: nat, k: PartName,
                          r: CharacterData, j: nat, at: nat)
    requires Assemble(c, ms, draws, start) == Ok(r)
    requires LastNamed(ms, NameOf(k)) == Some(j) && at == start + Offset(ms, j)
    ensures Get(r, k) == ColourFaces(ms[j], draws, at)
  {
    var cs := ColourAll(ms, draws, start);
    LastNamedColoured(ms, draws, start, NameOf(k));
    RouteAllSlot(c, cs, k);
    ColourAllAt(ms, draws, start, j, at);
  }

  /** After a successful load, a slot no mesh names keeps what it held. */
  lemma AssembleSlotUnnamed(c: CharacterData, ms: seq<MeshData>, draws: Draws, start: nat, k: PartName,
                            r: CharacterData)
    requires Assemble(c, ms, draws, start) == Ok(r)
    requires LastNamed(ms, NameOf(k)) == None
    ensures Get(r, k) == Get(c, k)
  {
    LastNamedColoured(ms, draws, start, NameOf(k));
    RouteAllSlot(c, ColourAll(ms, draws, start), k);
  }

  /** The record `loadMinecraftCharacterModel` fills: six meshes, each
      `Mesh("<missing>")` until a part of that name is loaded. */
  class MinecraftCharacter {
    var leftLeg: Mesh
    var rightLeg: Mesh
    var leftArm: Mesh
    var rightArm: Mesh
    var torso: Mesh
    var head: Mesh

    constructor ()
      ensures View() == Unloaded
      ensures FreshSlots(this)
      ensures SlotsApart()
    {
      var ll := new Mesh("<missing>");
      var rl := new Mesh("<missing>");
      var la := new Mesh("<missing>");
      var ra := new Mesh("<missing>");
      var t := new Mesh("<missing>");
      var h := new Mesh("<missing>");
      leftLeg, rightLeg, leftArm, rightArm, torso, head := ll, rl, la, ra, t, h;
      new;
      SixApart(this);
    }

    /** The name test of the loop body: store `mesh` in the slot of its
        name, or report that the name is none of the six. */
    method Store(mesh: Mesh) returns (stored: bool)
      modifies this
      ensures stored <==> IsPartName(mesh.name)
      ensures stored ==> View() == Put(old(View()), PartOf(mesh.name).value, mesh.View())
      ensures !stored ==> View() == old(View())
      ensures forall k :: Slot(k) == if stored && k == PartOf(mesh.name).value then mesh else old(Slot(k))
      ensures leftLeg in {old(leftLeg), mesh} && rightLeg in {old(rightLeg), mesh} && leftArm in {old(leftArm), mesh}
      ensures rightArm in {old(rightArm), mesh} && torso in {old(torso), mesh} && head in {old(head), mesh}
      ensures old(SlotsApart()) && mesh !in old(Slots()) ==> SlotsApart()
    {
      stored := true;
      if mesh.name == "left_leg" {
        leftLeg := mesh;
      } else if mesh.name == "right_leg" {
        rightLeg := mesh;
      } else if mesh.name == "left_arm" {
        leftArm := mesh;
      } else if mesh.name == "right_arm" {
        rightArm := mesh;
      } else if mesh.name == "torso" {
        torso := mesh;
      } else if mesh.name == "head" {
        head := mesh;
      } else {
        stored := false;
      }
    }

    function View(): CharacterData
      reads this, leftLeg, rightLeg, leftArm, rightArm, torso, head
    {
      CharacterData(leftLeg.View(), rightLeg.View(), leftArm.View(), rightArm.View(), torso.View(), head.View())
    }

    /** The mesh object in slot `k`. */
    function Slot(k: PartName): Mesh
      reads this
    {
      match k
      case LeftLeg => leftLeg
      case RightLeg => rightLeg
      case LeftArm => leftArm
      case RightArm => rightArm
      case Torso => torso
      case Head => head
    }

    /** The six slot objects. */
    function Slots(): set<Mesh>
      reads this
    {
      {leftLeg, rightLeg, leftArm, rightArm, torso, head}
    }

    /** No two slots share a mesh object: each holds its own copy. */
    predicate SlotsApart()
      reads this
    {
      forall j, k :: j != k ==> Slot(j) != Slot(k)
    }
  }

  /** Six different objects in the six fields make the slots apart. */
  lemma SixApart(c: MinecraftCharacter)
    requires c.leftLeg !in {c.rightLeg, c.leftArm, c.rightArm, c.torso, c.head}
    requires c.rightLeg !in {c.leftArm, c.rightArm, c.torso, c.head}
    requires c.leftArm !in {c.rightArm, c.torso, c.head}
    requires c.rightArm !in {c.torso, c.head}
    requires c.torso != c.head
    ensures c.SlotsApart()
  {
  }

  /** The body of the loop of `loadMinecraftCharacterModel`: colour a copy
      of `source` from the colour at `cursor` and store it in the slot of its
      name; `stored` is false, and `out` unchanged, when the name is none of
      the six. */
  method ColourAndStore(out: MinecraftCharacter, source: Mesh, draws: Draws, cursor: nat)
    returns (stored: bool, next: nat)
    modifies out
    ensures next == cursor + Sides(source.View())
    ensures stored <==> IsPartName(source.name)
    ensures stored ==> out.View() == Put(old(out.View()), PartOf(source.name).value, ColourFaces(source.View(), draws, cursor))
    ensures !stored ==> out.View() == old(out.View())
    ensures forall k :: if stored && k == PartOf(source.name).value then fresh(out.Slot(k)) else out.Slot(k) == old(out.Slot(k))
    ensures old(out.SlotsApart()) ==> out.SlotsApart()
    ensures SlotsRenewed(out)
  {
    var mesh := new Mesh.Copy(source);
    next := ColourFacesInPlace(mesh, draws, cursor);
    assert mesh !in out.Slots() && out.View() == old(out.View());
    stored := out.Store(mesh);
  }

  /** One step of the routing: a known name is stored, the rest follows;
      an unknown name ends the load with an error. */
  lemma RouteAllStep(c: CharacterData, cs: seq<MeshData>, i: nat)
    requires i < |cs|
    ensures IsPartName(cs[i].name) ==> RouteAll(c, cs[i..]) == RouteAll(Put(c, PartOf(cs[i].name).value, cs[i]), cs[i + 1..])
    ensures !IsPartName(cs[i].name) ==> RouteAll(c, cs[i..]) == Err(UnrecognisedPart(cs[i].name))
  {
    assert cs[i..][0] == cs[i] && cs[i..][1..] == cs[i + 1..];
  }

  /** One pass of the loop, with what it does to the remaining routing:
      mesh `i` of `meshes` (whose values are `ms`) is coloured from the
      colour after those the earlier meshes used, and stored. */
  method LoopStep(out: MinecraftCharacter, meshes: seq<Mesh>, i: nat, draws: Draws, start: nat, cursor: nat,
                  ghost ms: seq<MeshData>, ghost want: Result<CharacterData, LoadError>)
    returns (stored: bool, next: nat)
    requires Holds(meshes, ms) && i < |meshes|
    requires cursor == start + Offset(ms, i)
    requires RouteAll(out.View(), ColourAll(ms, draws, start)[i..]) == want
    requires out.SlotsApart()
    modifies out
    ensures Holds(meshes, ms)
    ensures next == start + Offset(ms, i + 1)
    ensures stored ==> RouteAll(out.View(), ColourAll(ms, draws, start)[i + 1..]) == want
    ensures !stored ==> want == Err(UnrecognisedPart(meshes[i].name))
    ensures SlotsRenewed(out)
    ensures out.SlotsApart()
  {
    ghost var cs := ColourAll(ms, draws, start);
    ColourAllAt(ms, draws, start, i, cursor);
    OffsetStep(ms, i);
    RouteAllStep(out.View(), cs, i);
    ghost var before := out.View();
    stored, next := ColourAndStore(out, meshes[i], draws, cursor);
    assert meshes[i].View() == ms[i];
    assert stored ==> out.View() == Put(before, PartOf(cs[i].name).value, cs[i]);
  }

  /** Every slot of `c` holds what it held in the old state, or a mesh
      object made since. */
  twostate predicate SlotsRenewed(c: MinecraftCharacter)
    reads c
  {
    && (fresh(c.leftLeg) || c.leftLeg == old(c.leftLeg))
    && (fresh(c.rightLeg) || c.rightLeg == old(c.rightLeg))
    && (fresh(c.leftArm) || c.leftArm == old(c.leftArm))
    && (fresh(c.rightArm) || c.rightArm == old(c.rightArm))
    && (fresh(c.torso) || c.torso == old(c.torso))
    && (fresh(c.head) || c.head == old(c.head))
  }

  /** Every slot of `c` holds a mesh object made since the old state. */
  twostate predicate FreshSlots(new c: MinecraftCharacter)
    reads c
  {
    && fresh(c.leftLeg) && fresh(c.rightLeg) && fresh(c.leftArm)
    && fresh(c.rightArm) && fresh(c.torso) && fresh(c.head)
  }

  /** The loop of `loadMinecraftCharacterModel` over the loaded meshes,
      which hold the values `ms`. */
  method AssembleCharacter(meshes: seq<Mesh>, ghost ms: seq<MeshData>, draws: Draws, start: nat)
    returns (r: Result<MinecraftCharacter, LoadError>, next: nat)
    requires Holds(meshes, ms)
    ensures var want := Assemble(Unloaded, ms, draws, start);
      && (want.Err? ==> r.Err? && r.error == want.error)
      && (want.Ok? ==> r.Ok? && fresh(r.value) && r.value.View() == want.value && next == start + Offset(ms, |ms|))
    ensures r.Ok? ==> FreshSlots(r.value) && r.value.SlotsApart()
  {
    ghost var cs := ColourAll(ms, draws, start);
    ghost var want := RouteAll(Unloaded, cs);
    assert want == Assemble(Unloaded, ms, draws, start);
    var out := new MinecraftCharacter();
    var cursor := start;
    var i := 0;
    assert cs[i..] == cs;
    while i < |meshes|
      invariant 0 <= i <= |meshes|
      invariant Holds(meshes, ms)
      invariant fresh(out)
      invariant out.SlotsApart()
      invariant FreshSlots(out)
      invariant RouteAll(out.View(), cs[i..]) == want
      invariant cursor == start + Offset(ms, i)
    {
      var stored;
      stored, cursor := LoopStep(out, meshes, i, draws, start, cursor, ms, want);
      if !stored {
        return Err(UnrecognisedPart(meshes[i].name)), cursor;
      }
      i := i + 1;
    }
    assert cs[i..] == [];
    return Ok(out), cursor;
  }

  /** `loadMinecraftCharacterModel`: load the file, then colour a copy of
      each mesh and store it in the slot of its name. A file that cannot be
      opened, or a mesh with any other name, is an error; on success the
      result is the character `Assemble` describes and `next` is the
      position after the last colour used. */
  method LoadMinecraftCharacterModel(file: Option<seq<string>>, p: Parsers, draws: Draws, start: nat)
    returns (r: Result<MinecraftCharacter, LoadError>, next: nat)
    ensures file.None? ==> r.Err? && r.error == CannotOpenObjFile
    ensures file.Some? ==>
      var ms := LoadLines(file.value, p).meshes;
      var want := Assemble(Unloaded, ms, draws, start);
      && (want.Err? ==> r.Err? && r.error == want.error)
      && (want.Ok? ==> r.Ok? && fresh(r.value) && r.value.View() == want.value && next == start + Offset(ms, |ms|))
    ensures r.Ok? ==> FreshSlots(r.value) && r.value.SlotsApart()
  {
    var contents := LoadWavefront(file, p);
    if contents.Err? {
      return Err(contents.error), start;
    }
    r, next := AssembleCharacter(contents.value, LoadLines(file.value, p).meshes, draws, start);
  }
}
