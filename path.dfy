/** The waypoint path of gloom/src/toolbox.cpp: `readCoordinatesFile`, which
    reads a count-prefixed list of integer pairs, and the `Path` class
    (declared in gloom/src/toolbox.hpp), a cursor that cycles through them. */
module Waypoints {
  import opened Wrappers
  import opened Floats
  import opened Unsigned

  /** The integer `>>` reads as the i-th token of the file. Past the end the
      extraction fails and stores nothing, so the uninitialised `int` it was
      reading into keeps an indeterminate value; the model reads 0 there as
      its choice for that undefined read. */
  function TokenAt(tokens: seq<int>, i: nat): int
  {
    if i < |tokens| then tokens[i] else 0
  }

  /** The first n points of the file: point i is made of tokens 2i+1, 2i+2. */
  function Pairs(tokens: seq<int>, n: nat): (r: seq<Int2>)
    ensures |r| == n
  {
    if n == 0 then [] else Pairs(tokens, n - 1) + [Int2(TokenAt(tokens, 2 * n - 1), TokenAt(tokens, 2 * n))]
  }

  /** What `readCoordinatesFile` returns for a file that holds `tokens`, or
      for a file that cannot be opened (`None`). */
  function Coordinates(file: Option<seq<int>>): seq<Int2>
  {
    if file.None? || TokenAt(file.value, 0) <= 0 then [] else Pairs(file.value, TokenAt(file.value, 0))
  }

  /** The point list written out as a file in the expected format. */
  function Encode(points: seq<Int2>): (r: seq<int>)
    ensures |r| == 1 + 2 * |points|
  {
    [|points|] + Flatten(points)
  }

  function Flatten(points: seq<Int2>): (r: seq<int>)
    ensures |r| == 2 * |points|
  {
    if points == [] then [] else Flatten(points[..|points| - 1]) + [points[|points| - 1].x, points[|points| - 1].y]
  }

  /** `readCoordinatesFile`: read the count, then that many pairs. */
  method ReadCoordinatesFile(file: Option<seq<int>>) returns (foundPoints: seq<Int2>)
    ensures foundPoints == Coordinates(file)
  {
    foundPoints := [];
    if file.None? {
      return;
    }
    var tokens := file.value;
    var pointCount := TokenAt(tokens, 0);
    var next := 1;
    var i := 0;
    while i < pointCount
      invariant 0 <= i && (pointCount <= 0 ==> i == 0) && (pointCount > 0 ==> i <= pointCount)
      invariant next == 2 * i + 1
      invariant foundPoints == Pairs(tokens, i)
    {
      var x := TokenAt(tokens, next);
      var y := TokenAt(tokens, next + 1);
      next := next + 2;
      foundPoints := foundPoints + [Int2(x, y)];
      i := i + 1;
    }
  }

  /** Point i holds tokens 2i+1 and 2i+2, in file order. */
  lemma {:induction false} PairsAt(tokens: seq<int>, n: nat, i: nat)
    requires i < n
    ensures Pairs(tokens, n)[i] == Int2(TokenAt(tokens, 2 * i + 1), TokenAt(tokens, 2 * i + 2))
  {
    if i < n - 1 {
      PairsAt(tokens, n - 1, i);
    }
  }

  /** A missing file, or a count that is not positive, gives no points;
      otherwise the count gives their number and the pairs follow in order. */
  lemma CoordinatesShape(file: Option<seq<int>>)
    ensures file.None? ==> Coordinates(file) == []
    ensures file.Some? && TokenAt(file.value, 0) <= 0 ==> Coordinates(file) == []
    ensures file.Some? && TokenAt(file.value, 0) > 0 ==> |Coordinates(file)| == TokenAt(file.value, 0)
    ensures file.Some? ==> forall i :: 0 <= i < |Coordinates(file)| ==>
      Coordinates(file)[i] == Int2(TokenAt(file.value, 2 * i + 1), TokenAt(file.value, 2 * i + 2))
  {
    if file.Some? && TokenAt(file.value, 0) > 0 {
      forall i | 0 <= i < |Coordinates(file)|
        ensures Coordinates(file)[i] == Int2(TokenAt(file.value, 2 * i + 1), TokenAt(file.value, 2 * i + 2))
      {
        PairsAt(file.value, TokenAt(file.value, 0), i);
      }
    }
  }

  lemma {:induction false} FlattenAt(points: seq<Int2>, i: nat)
    requires i < |points|
    ensures Flatten(points)[2 * i] == points[i].x && Flatten(points)[2 * i + 1] == points[i].y
  {
    var n := |points| - 1;
    if i < n {
      FlattenAt(points[..n], i);
      assert points[..n][i] == points[i];
    }
  }

  /** Reading back a written list gives the list, whatever follows it in the
      file. */
  lemma CoordinatesEncode(points: seq<Int2>, rest: seq<int>)
    ensures Coordinates(Some(Encode(points) + rest)) == points
  {
    var tokens := Encode(points) + rest;
    assert TokenAt(tokens, 0) == |points|;
    if |points| > 0 {
      forall i | 0 <= i < |points|
        ensures Pairs(tokens, |points|)[i] == points[i]
      {
        PairsAt(tokens, |points|, i);
        FlattenAt(points, i);
        assert tokens[2 * i + 1] == Flatten(points)[2 * i];
        assert tokens[2 * i + 2] == Flatten(points)[2 * i + 1];
      }
    }
  }

  /** The step of `advanceToNextWaypoint` on a list of n waypoints. */
  function Next(i: nat, n: nat): (r: nat)
    requires n > 0
    ensures r < n
  {
    (i + 1) % n
  }

  /** k steps from waypoint i. */
  function Advance(i: nat, n: nat, k: nat): (r: nat)
    requires n > 0
  {
    if k == 0 then i else Next(Advance(i, n, k - 1), n)
  }

  /** k steps move the cursor k places round the cycle. */
  lemma {:induction false} AdvanceIsModulo(i: nat, n: nat, k: nat)
    requires i < n
    ensures Advance(i, n, k) == (i + k) % n
  {
    if k > 0 {
      var a := i + (k - 1);
      AdvanceIsModulo(i, n, k - 1);
      assert Advance(i, n, k - 1) == a % n;
      ModuloStep(a, n);
      assert Advance(i, n, k) == (a % n + 1) % n;
      assert a + 1 == i + k;
    }
  }

  /** The remainder is the unique r in [0, n) with x = q n + r. */
  lemma ModUnique(x: int, n: int, q: int, r: int)
    requires n > 0 && x == q * n + r && 0 <= r < n
    ensures x % n == r
  {
    var d := q - x / n;
    assert d * n == x % n - r;
    MulSmall(d, n);
  }

  /** A multiple of n strictly between -n and n is 0. */
  lemma MulSmall(d: int, n: int)
    requires n > 0 && -n < d * n < n
    ensures d == 0
  {
    if d >= 1 {
      MulAtLeast(d, n);
    } else if d <= -1 {
      MulAtLeast(-d, n);
    }
  }

  lemma MulAtLeast(d: int, n: int)
    requires d >= 1 && n > 0
    ensures d * n >= n
  {
  }

  lemma ModuloStep(a: nat, n: nat)
    requires n > 0
    ensures (a % n + 1) % n == (a + 1) % n
  {
    var q := a / n;
    var r := a % n;
    if r + 1 < n {
      ModUnique(a + 1, n, q, r + 1);
      ModUnique(r + 1, n, 0, r + 1);
    } else {
      ModUnique(a + 1, n, q + 1, 0);
      ModUnique(r + 1, n, 1, 0);
    }
  }

  /** n steps bring the cursor back to where it started. */
  lemma FullCycle(i: nat, n: nat)
    requires i < n
    ensures Advance(i, n, n) == i
  {
    AdvanceIsModulo(i, n, n);
    ModUnique(i + n, n, 1, i);
  }

  /** The unsigned increment and the truncating size cast of
      `advanceToNextWaypoint` agree with `Next` on a cursor in range. */
  lemma UnsignedStep(i: nat, n: nat)
    requires i < n < UIntLimit
    ensures ((i + 1) % UIntLimit) % (n % UIntLimit) == Next(i, n)
  {
  }

  /** The distance test, on squares: the distance to the target is below
      a tenth of the tile width. */
  predicate WithinReach(target: Float2, position: Float2, tileWidth: real)
  {
    var dx := target.x - position.x;
    var dy := target.y - position.y;
    var threshold := tileWidth / 10.0;
    0.0 < threshold && dx * dx + dy * dy < threshold * threshold
  }

  /** The squared test is the source's `sqrt(dx*dx + dy*dy) < tileWidth / 10`:
      for the non-negative root d of the squared distance it holds exactly
      when d is below the threshold. */
  lemma WithinReachIffDistance(target: Float2, position: Float2, tileWidth: real, d: real)
    requires 0.0 <= d
    requires d * d == (target.x - position.x) * (target.x - position.x) + (target.y - position.y) * (target.y - position.y)
    ensures WithinReach(target, position, tileWidth) <==> d < tileWidth / 10.0
  {
    var t := tileWidth / 10.0;
    if d < t {
      SquareBelow(d, t);
    } else if 0.0 < t {
      SquareMono(t, d);
    }
  }

  lemma SquareBelow(a: real, b: real)
    requires 0.0 <= a < b
    ensures a * a < b * b
  {
    var p, q, r := a * a, a * b, b * b;
    assert p <= q;
    assert q < r;
  }

  lemma SquareMono(a: real, b: real)
    requires 0.0 <= a <= b
    ensures a * a <= b * b
  {
    var p, q, r := a * a, a * b, b * b;
    assert p <= q;
    assert q <= r;
  }

  class Path {
    var waypoints: seq<Int2>
    var currentWaypoint: UInt

    /** `Path(coordinatesFile)`: the points of the file, unvalidated, and the
        cursor on the first of them. */
    constructor (coordinatesFile: Option<seq<int>>)
      ensures waypoints == Coordinates(coordinatesFile)
      ensures currentWaypoint == 0
    {
      var points := ReadCoordinatesFile(coordinatesFile);
      waypoints := points;
      currentWaypoint := 0;
    }

    /** `getCurrentWaypoint`: the current waypoint scaled from tiles to
        units; `at` demands that the cursor is in range. */
    function GetCurrentWaypoint(tileWidth: real): (r: Float2)
      reads this
      requires currentWaypoint as int < |waypoints|
      ensures r.x == waypoints[currentWaypoint].x as real * tileWidth
      ensures r.y == waypoints[currentWaypoint].y as real * tileWidth
    {
      var intWaypoint := waypoints[currentWaypoint];
      Float2(intWaypoint.x as real * tileWidth, intWaypoint.y as real * tileWidth)
    }

    /** `hasWaypointBeenReached`: the character is within a tenth of a tile
        of the current waypoint. */
    predicate HasWaypointBeenReached(characterPosition: Float2, tileWidth: real)
      reads this
      requires currentWaypoint as int < |waypoints|
    {
      WithinReach(GetCurrentWaypoint(tileWidth), characterPosition, tileWidth)
    }

    /** `advanceToNextWaypoint`: unsigned increment, then modulo the size
        cast to `unsigned`; a size that casts to 0 would divide by zero. */
    method AdvanceToNextWaypoint()
      requires |waypoints| % UIntLimit != 0
      modifies this`currentWaypoint
      ensures currentWaypoint as int == ((old(currentWaypoint) as int + 1) % UIntLimit) % (|waypoints| % UIntLimit)
      ensures currentWaypoint as int < |waypoints|
      ensures |waypoints| < UIntLimit && old(currentWaypoint) as int < |waypoints| ==>
        currentWaypoint as int == Next(old(currentWaypoint) as int, |waypoints|)
    {
      var incremented := (currentWaypoint as int + 1) % UIntLimit;
      currentWaypoint := (incremented % (|waypoints| % UIntLimit)) as UInt;
      if |waypoints| < UIntLimit && old(currentWaypoint) as int < |waypoints| {
        UnsignedStep(old(currentWaypoint) as int, |waypoints|);
      }
    }
  }

  /** The waypoint counts as reached exactly when the distance d from the
      current waypoint, scaled to units, to the character is below a tenth of
      the tile width. */
  lemma ReachedIffDistance(path: Path, characterPosition: Float2, tileWidth: real, d: real)
    requires path.currentWaypoint as int < |path.waypoints|
    requires 0.0 <= d
    requires var target := path.GetCurrentWaypoint(tileWidth);
      d * d == (target.x - characterPosition.x) * (target.x - characterPosition.x)
             + (target.y - characterPosition.y) * (target.y - characterPosition.y)
    ensures path.HasWaypointBeenReached(characterPosition, tileWidth) <==> d < tileWidth / 10.0
  {
    WithinReachIffDistance(path.GetCurrentWaypoint(tileWidth), characterPosition, tileWidth, d);
  }
}
