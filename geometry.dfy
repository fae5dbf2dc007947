/** Piece geometry of the RubanLock solver: the six "Ruban" pieces, the
    quarter-turn lookup inside a piece, and the projection of a piece into one
    of the six slots of the 4×4×4 cube, both as a fresh grid and added in
    place into an accumulator. */
module Geometry {

  /** An unsigned 8-bit cell value: the element type of every grid. */
  type U8 = x: int | 0 <= x < 0x100

  /** A 4×4×4 cube of unbounded integers: sums of grids, before any u8 bound is known. */
  type Cube = seq<seq<seq<int>>>

  /** A `[[[u8; 4]; 4]; 4]` grid, indexed `[x][y][z]`, as a value. */
  type Grid = seq<seq<seq<U8>>>

  /** A 2×2×4 definition pattern, `[[[u8; 4]; 2]; 2]`. */
  type Shape = seq<seq<seq<U8>>>

  /** The three dimensions of `c` are all 4. */
  predicate IsCube<T>(c: seq<seq<seq<T>>>) {
    |c| == 4 && forall x | 0 <= x < 4 :: |c[x]| == 4 && forall y | 0 <= y < 4 :: |c[x][y]| == 4
  }

  predicate IsShape(s: Shape) {
    |s| == 2 && forall x | 0 <= x < 2 :: |s[x]| == 2 && forall y | 0 <= y < 2 :: |s[x][y]| == 4
  }

  predicate InRange(x: int, y: int, z: int) {
    0 <= x < 4 && 0 <= y < 4 && 0 <= z < 4
  }

  /** (x, y) is one of the four centre columns, x, y ∈ {1, 2}. */
  predicate InCentre(x: int, y: int) {
    1 <= x <= 2 && 1 <= y <= 2
  }

  /** Cell (a, b, c) comes strictly before (x, y, z) in the order x, then y, then z. */
  predicate LexBefore(a: int, b: int, c: int, x: int, y: int, z: int) {
    a < x || (a == x && (b < y || (b == y && c < z)))
  }

  /** Two cubes that agree on every cell are equal. */
  lemma CubeExt<T>(a: seq<seq<seq<T>>>, b: seq<seq<seq<T>>>)
    requires IsCube(a) && IsCube(b)
    requires forall x, y, z | InRange(x, y, z) :: a[x][y][z] == b[x][y][z]
    ensures a == b
  {
    forall x | 0 <= x < 4 ensures a[x] == b[x] {
      forall y | 0 <= y < 4 ensures a[x][y] == b[x][y] {
        assert forall z | 0 <= z < 4 :: a[x][y][z] == b[x][y][z];
      }
    }
  }

  function ZeroGrid(): (g: Grid)
    ensures IsCube(g)
    ensures forall x, y, z | InRange(x, y, z) :: g[x][y][z] == 0
  {
    seq(4, _ => seq(4, _ => seq(4, _ => 0)))
  }

  /** The grid held in an accumulator array. */
  ghost function GridOf(a: array3<U8>): (g: Grid)
    reads a
    requires a.Length0 == 4 && a.Length1 == 4 && a.Length2 == 4
    ensures IsCube(g)
    ensures forall x, y, z | InRange(x, y, z) :: g[x][y][z] == a[x, y, z]
  {
    seq(4, x requires 0 <= x < 4 reads a =>
      seq(4, y requires 0 <= y < 4 reads a =>
        seq(4, z requires 0 <= z < 4 reads a => a[x, y, z])))
  }

  datatype Direction = X | Y | Z

  /** A piece in its own orientation: the 2×2×4 pattern in the centre columns
      of an otherwise zero 4×4×4 grid. Never changed after construction. */
  datatype Ruban = Ruban(grids: Grid)
  {
    predicate Valid() {
      IsCube(grids)
    }
  }

  /** Every cell of the piece is 0 or 1. */
  ghost predicate IsBinary(r: Ruban)
    requires r.Valid()
  {
    forall x, y, z | InRange(x, y, z) :: r.grids[x][y][z] <= 1
  }

  ghost predicate IsBinaryShape(s: Shape)
    requires IsShape(s)
  {
    forall x, y, z | 0 <= x < 2 && 0 <= y < 2 && 0 <= z < 4 :: s[x][y][z] <= 1
  }

  /** The piece that `Ruban::new` builds from `shape`, stated cell by cell. */
  function Embed(shape: Shape): (r: Ruban)
    requires IsShape(shape)
  {
    Ruban(seq(4, x requires 0 <= x < 4 => seq(4, y requires 0 <= y < 4 => seq(4, z requires 0 <= z < 4 =>
      if InCentre(x, y) then shape[x - 1][y - 1][z] else 0))))
  }

  /** `Ruban::new`: copies the pattern into the centre columns, column by column. */
  method NewRuban(shape: Shape) returns (r: Ruban)
    requires IsShape(shape)
    ensures r.Valid()
    ensures forall x, y, z | InRange(x, y, z) ::
      r.grids[x][y][z] == if InCentre(x, y) then shape[x - 1][y - 1][z] else 0
    ensures r == Embed(shape)
  {
    var grids := ZeroGrid();
    for x := 1 to 3
      invariant IsCube(grids)
      invariant forall a, b, c | InRange(a, b, c) ::
        grids[a][b][c] == if InCentre(a, b) && a < x then shape[a - 1][b - 1][c] else 0
    {
      for y := 1 to 3
        invariant IsCube(grids)
        invariant forall a, b, c | InRange(a, b, c) ::
          grids[a][b][c] == if InCentre(a, b) && LexBefore(a, b, 0, x, y, 0) then shape[a - 1][b - 1][c] else 0
      {
        for z := 0 to 4
          invariant IsCube(grids)
          invariant forall a, b, c | InRange(a, b, c) ::
            grids[a][b][c] == if InCentre(a, b) && LexBefore(a, b, c, x, y, z) then shape[a - 1][b - 1][c] else 0
        {
          grids := grids[x := grids[x][y := grids[x][y][z := shape[x - 1][y - 1][z]]]];
        }
      }
    }
    r := Ruban(grids);
    CubeExt(r.grids, Embed(shape).grids);
  }

  /** A piece built from a 0/1 pattern is 0/1 everywhere. */
  lemma EmbedBinary(shape: Shape)
    requires IsShape(shape) && IsBinaryShape(shape)
    ensures Embed(shape).Valid() && IsBinary(Embed(shape))
  {
    var r := Embed(shape);
    forall x, y, z | InRange(x, y, z) ensures r.grids[x][y][z] <= 1 {
      if InCentre(x, y) {
        assert r.grids[x][y][z] == shape[x - 1][y - 1][z];
      }
    }
  }

  /** `get_single_grid`: the cell at (x, y, z) of the piece turned by rotation
      code `rotation` about its z axis (z is kept). Codes outside 0..3 panic in
      the source, so they are excluded here. A lookup at a centre column reads a
      centre column of the piece at the same height. */
  function GetSingleGrid(r: Ruban, x: nat, y: nat, z: nat, rotation: U8): (v: U8)
    requires r.Valid() && InRange(x, y, z)
    requires rotation < 4
    ensures InCentre(x, y) ==> exists a, b | InCentre(a, b) :: v == r.grids[a][b][z]
  {
    if rotation == 0 then
      r.grids[x][y][z]
    else if rotation == 1 then
      r.grids[y][3 - x][z]
    else if rotation == 2 then
      r.grids[3 - x][3 - y][z]
    else
      r.grids[3 - y][x][z]
  }

  /** The whole piece under one rotation code: R_r(g)[x][y][z] = GetSingleGrid(g, x, y, z, r). */
  function Rotate(r: Ruban, rotation: U8): (q: Ruban)
    requires r.Valid() && rotation < 4
    ensures q.Valid()
    ensures forall x, y, z | InRange(x, y, z) :: q.grids[x][y][z] == GetSingleGrid(r, x, y, z, rotation)
  {
    Ruban(seq(4, x requires 0 <= x < 4 => seq(4, y requires 0 <= y < 4 => seq(4, z requires 0 <= z < 4 =>
      GetSingleGrid(r, x, y, z, rotation)))))
  }

  /** Rotation code 0 leaves the piece as it is. */
  lemma RotateZero(r: Ruban)
    requires r.Valid()
    ensures Rotate(r, 0) == r
  {
    CubeExt(Rotate(r, 0).grids, r.grids);
  }

  /** One more quarter turn (code 1) after code `rotation` is code `rotation + 1` modulo 4:
      the four codes form the cyclic group generated by code 1. */
  lemma RotateStep(r: Ruban, rotation: U8)
    requires r.Valid() && rotation < 4
    ensures Rotate(Rotate(r, rotation), 1) == Rotate(r, (rotation + 1) % 4)
  {
    var q := Rotate(r, rotation);
    forall x, y, z | InRange(x, y, z)
      ensures Rotate(q, 1).grids[x][y][z] == Rotate(r, (rotation + 1) % 4).grids[x][y][z]
    {
      assert Rotate(q, 1).grids[x][y][z] == q.grids[y][3 - x][z];
    }
    CubeExt(Rotate(q, 1).grids, Rotate(r, (rotation + 1) % 4).grids);
  }

  /** Four quarter turns give back the piece. */
  lemma {:induction false} RotateFullTurn(r: Ruban)
    requires r.Valid()
    ensures Rotate(Rotate(Rotate(Rotate(r, 1), 1), 1), 1) == r
  {
    RotateZero(r);
    RotateStep(r, 0);
    RotateStep(r, 1);
    RotateStep(r, 2);
    RotateStep(r, 3);
  }

  /** Two half turns give back the piece. */
  lemma {:induction false} RotateHalfTurnTwice(r: Ruban)
    requires r.Valid()
    ensures Rotate(Rotate(r, 2), 2) == r
  {
    var h := Rotate(r, 2);
    forall x, y, z | InRange(x, y, z) ensures Rotate(h, 2).grids[x][y][z] == r.grids[x][y][z] {
      assert Rotate(h, 2).grids[x][y][z] == h.grids[3 - x][3 - y][z];
    }
    CubeExt(Rotate(h, 2).grids, r.grids);
  }

  /** The first world index of the pair `s_iter` that `shift` selects: 0..2 or 2..4. */
  function ShiftBase(shift: U8): (lo: nat)
    requires shift < 2
    ensures lo + 2 <= 4 && lo % 2 == 0
  {
    if shift == 0 then 0 else 2
  }

  /** The 16 world cells the slot (direction, shift) writes to. */
  predicate InSlot(d: Direction, shift: U8, x: int, y: int, z: int)
    requires shift < 2
    ensures InSlot(d, shift, x, y, z) ==> InRange(x, y, z)
  {
    var lo := ShiftBase(shift);
    match d
    case X => 0 <= x < 4 && 1 <= y <= 2 && lo <= z < lo + 2
    case Y => lo <= x < lo + 2 && 0 <= y < 4 && 1 <= z <= 2
    case Z => 1 <= x <= 2 && lo <= y < lo + 2 && 0 <= z < 4
  }

  /** The piece coordinate (xp, yp, zp) that the projection reads for world
      cell (x, y, z) of its slot. The loop variable that `zip` pairs with the
      shifted world index is that index minus the base, plus 1. Any nonzero
      polarity selects the mirrored map. Every coordinate lies in the centre
      columns of the piece. */
  function PieceCoord(d: Direction, polarity: U8, shift: U8, x: nat, y: nat, z: nat): (p: (nat, nat, nat))
    requires shift < 2 && InSlot(d, shift, x, y, z)
    ensures InCentre(p.0, p.1) && p.2 < 4
  {
    var lo := ShiftBase(shift);
    match d
    case X =>
      var k := z - lo + 1;
      if polarity == 0 then (k, y, 3 - x) else (3 - k, y, x)
    case Y =>
      var k := x - lo + 1;
      if polarity == 0 then (k, 3 - z, y) else (k, z, 3 - y)
    case Z =>
      var k := y - lo + 1;
      if polarity == 0 then (x, k, z) else (3 - x, k, 3 - z)
  }

  /** The world cell of the slot whose piece coordinate is (xp, yp, zp): the
      inverse of `PieceCoord`. */
  function WorldCoord(d: Direction, polarity: U8, shift: U8, xp: nat, yp: nat, zp: nat): (w: (nat, nat, nat))
    requires shift < 2 && InCentre(xp, yp) && zp < 4
    ensures InSlot(d, shift, w.0, w.1, w.2)
    ensures PieceCoord(d, polarity, shift, w.0, w.1, w.2) == (xp, yp, zp)
  {
    var lo := ShiftBase(shift);
    match d
    case X =>
      if polarity == 0 then (3 - zp, yp, lo + xp - 1) else (zp, yp, lo + (3 - xp) - 1)
    case Y =>
      if polarity == 0 then (lo + xp - 1, zp, 3 - yp) else (lo + xp - 1, 3 - zp, yp)
    case Z =>
      if polarity == 0 then (xp, lo + yp - 1, zp) else (3 - xp, lo + yp - 1, 3 - zp)
  }

  /** The projection is one-to-one: it reads a different piece cell for every
      cell of the slot, and each of the 16 centre cells of the piece lands on
      exactly one world cell (the `zip` pairs the indices one-to-one). */
  lemma SlotBijection(d: Direction, polarity: U8, shift: U8, x: nat, y: nat, z: nat)
    requires shift < 2 && InSlot(d, shift, x, y, z)
    ensures var p := PieceCoord(d, polarity, shift, x, y, z);
      WorldCoord(d, polarity, shift, p.0, p.1, p.2) == (x, y, z)
  {
  }

  /** The two slots that share a direction touch disjoint cells. */
  lemma SameDirectionDisjoint(d: Direction, x: int, y: int, z: int)
    ensures !(InSlot(d, 0, x, y, z) && InSlot(d, 1, x, y, z))
  {
  }

  /** One placement request: a piece and the (direction, polarity, rotation,
      shift) of its slot. */
  datatype Call = Call(piece: Ruban, direction: Direction, polarity: U8, rotation: U8, shift: U8)
  {
    predicate Valid() {
      piece.Valid() && rotation < 4 && shift < 2
    }
  }

  /** The value a placement contributes to world cell (x, y, z): the rotated
      piece cell at the matching piece coordinate inside the slot, 0 outside. */
  function Delta(c: Call, x: nat, y: nat, z: nat): (v: U8)
    requires c.Valid() && InRange(x, y, z)
    ensures !InSlot(c.direction, c.shift, x, y, z) ==> v == 0
  {
    if InSlot(c.direction, c.shift, x, y, z) then
      var p := PieceCoord(c.direction, c.polarity, c.shift, x, y, z);
      GetSingleGrid(c.piece, p.0, p.1, p.2, c.rotation)
    else
      0
  }

  /** A 0/1 piece contributes at most 1 to any cell. */
  lemma DeltaBinary(c: Call, x: nat, y: nat, z: nat)
    requires c.Valid() && InRange(x, y, z) && IsBinary(c.piece)
    ensures Delta(c, x, y, z) <= 1
  {
    if InSlot(c.direction, c.shift, x, y, z) {
      var p := PieceCoord(c.direction, c.polarity, c.shift, x, y, z);
      assert InRange(p.0, p.1, p.2);
    }
  }

  /** The whole grid of one placement. */
  function Placement(c: Call): (g: Grid)
    requires c.Valid()
    ensures IsCube(g)
    ensures forall x, y, z | InRange(x, y, z) :: g[x][y][z] == Delta(c, x, y, z)
  {
    seq(4, x requires 0 <= x < 4 => seq(4, y requires 0 <= y < 4 => seq(4, z requires 0 <= z < 4 =>
      Delta(c, x, y, z))))
  }

  /** `get_grids`: the placement of `r` in slot (direction, shift) with the
      given polarity and rotation, as a fresh grid. It is zero outside the
      slot, and each slot cell receives exactly one lookup. */
  method GetGrids(r: Ruban, direction: Direction, polarity: U8, rotation: U8, shift: U8) returns (grids: Grid)
    requires r.Valid() && rotation < 4
    requires shift < 2
    ensures grids == Placement(Call(r, direction, polarity, rotation, shift))
    ensures IsCube(grids)
    ensures forall x, y, z | InRange(x, y, z) && !InSlot(direction, shift, x, y, z) :: grids[x][y][z] == 0
  {
    var lo := ShiftBase(shift);
    match direction {
      case X => grids := GetGridsX(r, polarity, rotation, shift, lo);
      case Y => grids := GetGridsY(r, polarity, rotation, shift, lo);
      case Z => grids := GetGridsZ(r, polarity, rotation, shift, lo);
    }
  }

  /** A zero 4×4 plane. */
  predicate IsZeroPlane(p: seq<seq<U8>>) {
    |p| == 4 && forall b | 0 <= b < 4 :: |p[b]| == 4 && (forall e | 0 <= e < 4 :: p[b][e] == 0)
  }

  /** The `Direction::X` arm of `get_grids`: the outer loop over world x. */
  method GetGridsX(r: Ruban, polarity: U8, rotation: U8, shift: U8, lo: nat) returns (grids: Grid)
    requires r.Valid() && rotation < 4 && shift < 2 && lo == ShiftBase(shift)
    ensures grids == Placement(Call(r, X, polarity, rotation, shift))
  {
    ghost var c := Call(r, X, polarity, rotation, shift);
    grids := ZeroGrid();
    for x := 0 to 4
      invariant IsCube(grids)
      invariant forall a, b, e | InRange(a, b, e) :: grids[a][b][e] == if a < x then Delta(c, a, b, e) else 0
    {
      var plane := GetPlaneX(r, polarity, rotation, shift, lo, x, grids[x]);
      grids := grids[x := plane];
    }
    CubeExt(grids, Placement(c));
  }

  /** The middle loop of the `Direction::X` arm: world plane x, rows y ∈ {1, 2}. */
  method GetPlaneX(r: Ruban, polarity: U8, rotation: U8, shift: U8, lo: nat, x: nat, plane: seq<seq<U8>>)
    returns (plane': seq<seq<U8>>)
    requires r.Valid() && rotation < 4 && shift < 2 && lo == ShiftBase(shift) && x < 4
    requires IsZeroPlane(plane)
    ensures |plane'| == 4
    ensures forall b | 0 <= b < 4 :: |plane'[b]| == 4
    ensures forall b, e | 0 <= b < 4 && 0 <= e < 4 ::
      plane'[b][e] == Delta(Call(r, X, polarity, rotation, shift), x, b, e)
  {
    ghost var c := Call(r, X, polarity, rotation, shift);
    plane' := plane;
    for y := 1 to 3
      invariant |plane'| == 4
      invariant forall b | 0 <= b < 4 :: |plane'[b]| == 4
      invariant forall b, e | 0 <= b < 4 && 0 <= e < 4 :: plane'[b][e] == if b < y then Delta(c, x, b, e) else 0
    {
      var col := GetColumnX(r, polarity, rotation, shift, lo, x, y, plane'[y]);
      plane' := plane'[y := col];
    }
  }

  /** The inner loop of the `Direction::X` arm: world column (x, y); `z` runs
      over 1..3 zipped with the world z = lo + z - 1. */
  method GetColumnX(r: Ruban, polarity: U8, rotation: U8, shift: U8, lo: nat, x: nat, y: nat, col: seq<U8>)
    returns (col': seq<U8>)
    requires r.Valid() && rotation < 4 && shift < 2 && lo == ShiftBase(shift) && x < 4 && 1 <= y <= 2
    requires |col| == 4 && forall e | 0 <= e < 4 :: col[e] == 0
    ensures |col'| == 4
    ensures forall e | 0 <= e < 4 :: col'[e] == Delta(Call(r, X, polarity, rotation, shift), x, y, e)
  {
    ghost var c := Call(r, X, polarity, rotation, shift);
    col' := col;
    var z, sz := 1, lo;
    while z < 3
      invariant 1 <= z <= 3 && sz == lo + z - 1
      invariant |col'| == 4
      invariant forall e | 0 <= e < 4 :: col'[e] == if e < sz then Delta(c, x, y, e) else 0
    {
      var xp, yp, zp;
      if polarity == 0 {
        xp, yp, zp := z, y, 3 - x;
      } else {
        xp, yp, zp := 3 - z, y, x;
      }
      var v := GetSingleGrid(r, xp, yp, zp, rotation);
      assert v == Delta(c, x, y, sz);
      col' := col'[sz := col'[sz] + v];
      z, sz := z + 1, sz + 1;
    }
  }

  /** The `Direction::Y` arm of `get_grids`: the outer loop over 1..3 zipped
      with the world x = lo + x - 1. */
  method GetGridsY(r: Ruban, polarity: U8, rotation: U8, shift: U8, lo: nat) returns (grids: Grid)
    requires r.Valid() && rotation < 4 && shift < 2 && lo == ShiftBase(shift)
    ensures grids == Placement(Call(r, Y, polarity, rotation, shift))
  {
    ghost var c := Call(r, Y, polarity, rotation, shift);
    grids := ZeroGrid();
    var x, sx := 1, lo;
    while x < 3
      invariant 1 <= x <= 3 && sx == lo + x - 1
      invariant IsCube(grids)
      invariant forall a, b, e | InRange(a, b, e) :: grids[a][b][e] == if a < sx then Delta(c, a, b, e) else 0
    {
      var plane := GetPlaneY(r, polarity, rotation, shift, lo, x, sx, grids[sx]);
      grids := grids[sx := plane];
      x, sx := x + 1, sx + 1;
    }
    CubeExt(grids, Placement(c));
  }

  /** The middle loop of the `Direction::Y` arm: world plane lo + x - 1, all rows y. */
  method GetPlaneY(r: Ruban, polarity: U8, rotation: U8, shift: U8, lo: nat, x: nat, sx: nat, plane: seq<seq<U8>>)
    returns (plane': seq<seq<U8>>)
    requires r.Valid() && rotation < 4 && shift < 2 && lo == ShiftBase(shift) && 1 <= x <= 2 && sx == lo + x - 1
    requires IsZeroPlane(plane)
    ensures |plane'| == 4
    ensures forall b | 0 <= b < 4 :: |plane'[b]| == 4
    ensures forall b, e | 0 <= b < 4 && 0 <= e < 4 ::
      plane'[b][e] == Delta(Call(r, Y, polarity, rotation, shift), sx, b, e)
  {
    ghost var c := Call(r, Y, polarity, rotation, shift);
    plane' := plane;
    for y := 0 to 4
      invariant |plane'| == 4
      invariant forall b | 0 <= b < 4 :: |plane'[b]| == 4
      invariant forall b, e | 0 <= b < 4 && 0 <= e < 4 ::
        plane'[b][e] == if b < y then Delta(c, sx, b, e) else 0
    {
      var col := GetColumnY(r, polarity, rotation, shift, lo, x, sx, y, plane'[y]);
      plane' := plane'[y := col];
    }
  }

  /** The inner loop of the `Direction::Y` arm: world column (lo + x - 1, y), heights z ∈ {1, 2}. */
  method GetColumnY(r: Ruban, polarity: U8, rotation: U8, shift: U8, lo: nat, x: nat, sx: nat, y: nat, col: seq<U8>)
    returns (col': seq<U8>)
    requires r.Valid() && rotation < 4 && shift < 2 && lo == ShiftBase(shift) && 1 <= x <= 2 && sx == lo + x - 1 && y < 4
    requires |col| == 4 && forall e | 0 <= e < 4 :: col[e] == 0
    ensures |col'| == 4
    ensures forall e | 0 <= e < 4 :: col'[e] == Delta(Call(r, Y, polarity, rotation, shift), sx, y, e)
  {
    ghost var c := Call(r, Y, polarity, rotation, shift);
    col' := col;
    for z := 1 to 3
      invariant |col'| == 4
      invariant forall e | 0 <= e < 4 :: col'[e] == if e < z then Delta(c, sx, y, e) else 0
    {
      var xp, yp, zp;
      if polarity == 0 {
        xp, yp, zp := x, 3 - z, y;
      } else {
        xp, yp, zp := x, z, 3 - y;
      }
      var v := GetSingleGrid(r, xp, yp, zp, rotation);
      assert v == Delta(c, sx, y, z);
      col' := col'[z := col'[z] + v];
    }
  }

  /** The `Direction::Z` arm of `get_grids`: the outer loop over world x ∈ {1, 2}. */
  method GetGridsZ(r: Ruban, polarity: U8, rotation: U8, shift: U8, lo: nat) returns (grids: Grid)
    requires r.Valid() && rotation < 4 && shift < 2 && lo == ShiftBase(shift)
    ensures grids == Placement(Call(r, Z, polarity, rotation, shift))
  {
    ghost var c := Call(r, Z, polarity, rotation, shift);
    grids := ZeroGrid();
    for x := 1 to 3
      invariant IsCube(grids)
      invariant forall a, b, e | InRange(a, b, e) :: grids[a][b][e] == if a < x then Delta(c, a, b, e) else 0
    {
      var plane := GetPlaneZ(r, polarity, rotation, shift, lo, x, grids[x]);
      grids := grids[x := plane];
    }
    CubeExt(grids, Placement(c));
  }

  /** The middle loop of the `Direction::Z` arm: world plane x; `y` runs over
      1..3 zipped with the world y = lo + y - 1. */
  method GetPlaneZ(r: Ruban, polarity: U8, rotation: U8, shift: U8, lo: nat, x: nat, plane: seq<seq<U8>>)
    returns (plane': seq<seq<U8>>)
    requires r.Valid() && rotation < 4 && shift < 2 && lo == ShiftBase(shift) && 1 <= x <= 2
    requires IsZeroPlane(plane)
    ensures |plane'| == 4
    ensures forall b | 0 <= b < 4 :: |plane'[b]| == 4
    ensures forall b, e | 0 <= b < 4 && 0 <= e < 4 ::
      plane'[b][e] == Delta(Call(r, Z, polarity, rotation, shift), x, b, e)
  {
    ghost var c := Call(r, Z, polarity, rotation, shift);
    plane' := plane;
    var y, sy := 1, lo;
    while y < 3
      invariant 1 <= y <= 3 && sy == lo + y - 1
      invariant |plane'| == 4
      invariant forall b | 0 <= b < 4 :: |plane'[b]| == 4
      invariant forall b, e | 0 <= b < 4 && 0 <= e < 4 :: plane'[b][e] == if b < sy then Delta(c, x, b, e) else 0
    {
      var col := GetColumnZ(r, polarity, rotation, shift, lo, x, y, sy, plane'[sy]);
      plane' := plane'[sy := col];
      y, sy := y + 1, sy + 1;
    }
  }

  /** The inner loop of the `Direction::Z` arm: world column (x, lo + y - 1), all heights z. */
  method GetColumnZ(r: Ruban, polarity: U8, rotation: U8, shift: U8, lo: nat, x: nat, y: nat, sy: nat, col: seq<U8>)
    returns (col': seq<U8>)
    requires r.Valid() && rotation < 4 && shift < 2 && lo == ShiftBase(shift) && 1 <= x <= 2 && 1 <= y <= 2 && sy == lo + y - 1
    requires |col| == 4 && forall e | 0 <= e < 4 :: col[e] == 0
    ensures |col'| == 4
    ensures forall e | 0 <= e < 4 :: col'[e] == Delta(Call(r, Z, polarity, rotation, shift), x, sy, e)
  {
    ghost var c := Call(r, Z, polarity, rotation, shift);
    col' := col;
    for z := 0 to 4
      invariant |col'| == 4
      invariant forall e | 0 <= e < 4 :: col'[e] == if e < z then Delta(c, x, sy, e) else 0
    {
      var xp, yp, zp;
      if polarity == 0 {
        xp, yp, zp := x, y, z;
      } else {
        xp, yp, zp := 3 - x, y, 3 - z;
      }
      var v := GetSingleGrid(r, xp, yp, zp, rotation);
      assert v == Delta(c, x, sy, z);
      col' := col'[z := col'[z] + v];
    }
  }

  predicate Is4x4x4(a: array3<U8>) {
    a.Length0 == 4 && a.Length1 == 4 && a.Length2 == 4
  }

  /** Cell-wise sum of two cubes. */
  function AddCubes(a: Cube, b: Cube): (s: Cube)
    requires IsCube(a) && IsCube(b)
    ensures IsCube(s)
    ensures forall x, y, z | InRange(x, y, z) :: s[x][y][z] == a[x][y][z] + b[x][y][z]
  {
    seq(4, x requires 0 <= x < 4 => seq(4, y requires 0 <= y < 4 => seq(4, z requires 0 <= z < 4 =>
      a[x][y][z] + b[x][y][z])))
  }

  /** `add_to_grids`: adds the placement of `r` in slot (direction, shift) with
      the given polarity and rotation into the caller's accumulator, in place:
      the new accumulator is the old one plus the grid `get_grids` returns, so
      cells outside the slot keep their value. The additions are on u8 cells,
      which must not overflow. */
  method AddToGrids(r: Ruban, grids: array3<U8>, direction: Direction, polarity: U8, rotation: U8, shift: U8)
    requires r.Valid() && rotation < 4
    requires shift < 2
    requires Is4x4x4(grids)
    requires forall x, y, z | InRange(x, y, z) ::
      grids[x, y, z] + Delta(Call(r, direction, polarity, rotation, shift), x, y, z) < 0x100
    modifies grids
    ensures GridOf(grids) == AddCubes(old(GridOf(grids)), Placement(Call(r, direction, polarity, rotation, shift)))
    ensures forall x, y, z | InRange(x, y, z) ::
      grids[x, y, z] == old(grids[x, y, z]) + Delta(Call(r, direction, polarity, rotation, shift), x, y, z)
    ensures forall x, y, z | InRange(x, y, z) && !InSlot(direction, shift, x, y, z) ::
      grids[x, y, z] == old(grids[x, y, z])
    ensures (forall x, y, z | InRange(x, y, z) :: old(grids[x, y, z]) == 0) ==>
      GridOf(grids) == Placement(Call(r, direction, polarity, rotation, shift))
  {
    var lo := ShiftBase(shift);
    match direction {
      case X => AddToGridsX(r, grids, polarity, rotation, shift, lo);
      case Y => AddToGridsY(r, grids, polarity, rotation, shift, lo);
      case Z => AddToGridsZ(r, grids, polarity, rotation, shift, lo);
    }
    CubeExt(GridOf(grids), AddCubes(old(GridOf(grids)), Placement(Call(r, direction, polarity, rotation, shift))));
    if forall x, y, z | InRange(x, y, z) :: old(grids[x, y, z]) == 0 {
      CubeExt(old(GridOf(grids)), ZeroGrid());
      AddToZeroIsPlacement(Call(r, direction, polarity, rotation, shift));
    }
  }

  /** On a zero accumulator the in-place form gives exactly the fresh form:
      `add_to_grids` into zeros yields the grid `get_grids` returns. */
  lemma AddToZeroIsPlacement(c: Call)
    requires c.Valid()
    ensures AddCubes(ZeroGrid(), Placement(c)) == Placement(c)
  {
    CubeExt(AddCubes(ZeroGrid(), Placement(c)), Placement(c));
  }

  /** The `Direction::X` arm of `add_to_grids`: the outer loop over world x. */
  method AddToGridsX(r: Ruban, grids: array3<U8>, polarity: U8, rotation: U8, shift: U8, lo: nat)
    requires r.Valid() && rotation < 4 && shift < 2 && lo == ShiftBase(shift) && Is4x4x4(grids)
    requires forall x, y, z | InRange(x, y, z) ::
      grids[x, y, z] + Delta(Call(r, X, polarity, rotation, shift), x, y, z) < 0x100
    modifies grids
    ensures forall x, y, z | InRange(x, y, z) ::
      grids[x, y, z] == old(grids[x, y, z]) + Delta(Call(r, X, polarity, rotation, shift), x, y, z)
  {
    ghost var c := Call(r, X, polarity, rotation, shift);
    for x := 0 to 4
      invariant forall a, b, e | InRange(a, b, e) ::
        grids[a, b, e] == old(grids[a, b, e]) + if a < x then Delta(c, a, b, e) else 0
    {
      AddPlaneX(r, grids, polarity, rotation, shift, lo, x);
    }
  }

  /** The middle loop of the `Direction::X` arm: world plane x, rows y ∈ {1, 2}. */
  method AddPlaneX(r: Ruban, grids: array3<U8>, polarity: U8, rotation: U8, shift: U8, lo: nat, x: nat)
    requires r.Valid() && rotation < 4 && shift < 2 && lo == ShiftBase(shift) && Is4x4x4(grids) && x < 4
    requires forall b, e | 0 <= b < 4 && 0 <= e < 4 ::
      grids[x, b, e] + Delta(Call(r, X, polarity, rotation, shift), x, b, e) < 0x100
    modifies grids
    ensures forall a, b, e | InRange(a, b, e) ::
      grids[a, b, e] == old(grids[a, b, e]) + if a == x then Delta(Call(r, X, polarity, rotation, shift), a, b, e) else 0
  {
    ghost var c := Call(r, X, polarity, rotation, shift);
    for y := 1 to 3
      invariant forall a, b, e | InRange(a, b, e) ::
        grids[a, b, e] == old(grids[a, b, e]) + if a == x && b < y then Delta(c, a, b, e) else 0
    {
      AddColumnX(r, grids, polarity, rotation, shift, lo, x, y);
    }
  }

  /** The inner loop of the `Direction::X` arm: world column (x, y); `z` runs
      over 1..3 zipped with the world z = lo + z - 1. */
  method AddColumnX(r: Ruban, grids: array3<U8>, polarity: U8, rotation: U8, shift: U8, lo: nat, x: nat, y: nat)
    requires r.Valid() && rotation < 4 && shift < 2 && lo == ShiftBase(shift) && Is4x4x4(grids)
    requires x < 4 && 1 <= y <= 2
    requires forall e | 0 <= e < 4 :: grids[x, y, e] + Delta(Call(r, X, polarity, rotation, shift), x, y, e) < 0x100
    modifies grids
    ensures forall a, b, e | InRange(a, b, e) ::
      grids[a, b, e] == old(grids[a, b, e]) + if a == x && b == y then Delta(Call(r, X, polarity, rotation, shift), a, b, e) else 0
  {
    ghost var c := Call(r, X, polarity, rotation, shift);
    var z, sz := 1, lo;
    while z < 3
      invariant 1 <= z <= 3 && sz == lo + z - 1
      invariant forall a, b, e | InRange(a, b, e) ::
        grids[a, b, e] == old(grids[a, b, e]) + if a == x && b == y && e < sz then Delta(c, a, b, e) else 0
    {
      var xp, yp, zp;
      if polarity == 0 {
        xp, yp, zp := z, y, 3 - x;
      } else {
        xp, yp, zp := 3 - z, y, x;
      }
      var v := GetSingleGrid(r, xp, yp, zp, rotation);
      assert v == Delta(c, x, y, sz);
      grids[x, y, sz] := grids[x, y, sz] + v;
      z, sz := z + 1, sz + 1;
    }
  }

  /** The `Direction::Y` arm of `add_to_grids`: the outer loop over 1..3
      zipped with the world x = lo + x - 1. */
  method AddToGridsY(r: Ruban, grids: array3<U8>, polarity: U8, rotation: U8, shift: U8, lo: nat)
    requires r.Valid() && rotation < 4 && shift < 2 && lo == ShiftBase(shift) && Is4x4x4(grids)
    requires forall x, y, z | InRange(x, y, z) ::
      grids[x, y, z] + Delta(Call(r, Y, polarity, rotation, shift), x, y, z) < 0x100
    modifies grids
    ensures forall x, y, z | InRange(x, y, z) ::
      grids[x, y, z] == old(grids[x, y, z]) + Delta(Call(r, Y, polarity, rotation, shift), x, y, z)
  {
    ghost var c := Call(r, Y, polarity, rotation, shift);
    var x, sx := 1, lo;
    while x < 3
      invariant 1 <= x <= 3 && sx == lo + x - 1
      invariant forall a, b, e | InRange(a, b, e) ::
        grids[a, b, e] == old(grids[a, b, e]) + if a < sx then Delta(c, a, b, e) else 0
    {
      AddPlaneY(r, grids, polarity, rotation, shift, lo, x, sx);
      x, sx := x + 1, sx + 1;
    }
  }

  /** The middle loop of the `Direction::Y` arm: world plane lo + x - 1, all rows y. */
  method AddPlaneY(r: Ruban, grids: array3<U8>, polarity: U8, rotation: U8, shift: U8, lo: nat, x: nat, sx: nat)
    requires r.Valid() && rotation < 4 && shift < 2 && lo == ShiftBase(shift) && Is4x4x4(grids) && 1 <= x <= 2 && sx == lo + x - 1
    requires forall b, e | 0 <= b < 4 && 0 <= e < 4 ::
      grids[sx, b, e] + Delta(Call(r, Y, polarity, rotation, shift), sx, b, e) < 0x100
    modifies grids
    ensures forall a, b, e | InRange(a, b, e) ::
      grids[a, b, e] == old(grids[a, b, e]) + if a == sx then Delta(Call(r, Y, polarity, rotation, shift), a, b, e) else 0
  {
    ghost var c := Call(r, Y, polarity, rotation, shift);
    for y := 0 to 4
      invariant forall a, b, e | InRange(a, b, e) ::
        grids[a, b, e] == old(grids[a, b, e]) + if a == sx && b < y then Delta(c, a, b, e) else 0
    {
      AddColumnY(r, grids, polarity, rotation, shift, lo, x, sx, y);
    }
  }

  /** The inner loop of the `Direction::Y` arm: world column (lo + x - 1, y), heights z ∈ {1, 2}. */
  method AddColumnY(r: Ruban, grids: array3<U8>, polarity: U8, rotation: U8, shift: U8, lo: nat, x: nat, sx: nat, y: nat)
    requires r.Valid() && rotation < 4 && shift < 2 && lo == ShiftBase(shift) && Is4x4x4(grids)
    requires 1 <= x <= 2 && sx == lo + x - 1 && y < 4
    requires forall e | 0 <= e < 4 ::
      grids[sx, y, e] + Delta(Call(r, Y, polarity, rotation, shift), sx, y, e) < 0x100
    modifies grids
    ensures forall a, b, e | InRange(a, b, e) ::
      grids[a, b, e] == old(grids[a, b, e]) + if a == sx && b == y then Delta(Call(r, Y, polarity, rotation, shift), a, b, e) else 0
  {
    ghost var c := Call(r, Y, polarity, rotation, shift);
    for z := 1 to 3
      invariant forall a, b, e | InRange(a, b, e) ::
        grids[a, b, e] == old(grids[a, b, e]) + if a == sx && b == y && e < z then Delta(c, a, b, e) else 0
    {
      var xp, yp, zp;
      if polarity == 0 {
        xp, yp, zp := x, 3 - z, y;
      } else {
        xp, yp, zp := x, z, 3 - y;
      }
      var v := GetSingleGrid(r, xp, yp, zp, rotation);
      assert v == Delta(c, sx, y, z);
      grids[sx, y, z] := grids[sx, y, z] + v;
    }
  }

  /** The `Direction::Z` arm of `add_to_grids`: the outer loop over world x ∈ {1, 2}. */
  method AddToGridsZ(r: Ruban, grids: array3<U8>, polarity: U8, rotation: U8, shift: U8, lo: nat)
    requires r.Valid() && rotation < 4 && shift < 2 && lo == ShiftBase(shift) && Is4x4x4(grids)
    requires forall x, y, z | InRange(x, y, z) ::
      grids[x, y, z] + Delta(Call(r, Z, polarity, rotation, shift), x, y, z) < 0x100
    modifies grids
    ensures forall x, y, z | InRange(x, y, z) ::
      grids[x, y, z] == old(grids[x, y, z]) + Delta(Call(r, Z, polarity, rotation, shift), x, y, z)
  {
    ghost var c := Call(r, Z, polarity, rotation, shift);
    for x := 1 to 3
      invariant forall a, b, e | InRange(a, b, e) ::
        grids[a, b, e] == old(grids[a, b, e]) + if a < x then Delta(c, a, b, e) else 0
    {
      AddPlaneZ(r, grids, polarity, rotation, shift, lo, x);
    }
  }

  /** The middle loop of the `Direction::Z` arm: world plane x; `y` runs over
      1..3 zipped with the world y = lo + y - 1. */
  method AddPlaneZ(r: Ruban, grids: array3<U8>, polarity: U8, rotation: U8, shift: U8, lo: nat, x: nat)
    requires r.Valid() && rotation < 4 && shift < 2 && lo == ShiftBase(shift) && Is4x4x4(grids) && 1 <= x <= 2
    requires forall b, e | 0 <= b < 4 && 0 <= e < 4 ::
      grids[x, b, e] + Delta(Call(r, Z, polarity, rotation, shift), x, b, e) < 0x100
    modifies grids
    ensures forall a, b, e | InRange(a, b, e) ::
      grids[a, b, e] == old(grids[a, b, e]) + if a == x then Delta(Call(r, Z, polarity, rotation, shift), a, b, e) else 0
  {
    ghost var c := Call(r, Z, polarity, rotation, shift);
    var y, sy := 1, lo;
    while y < 3
      invariant 1 <= y <= 3 && sy == lo + y - 1
      invariant forall a, b, e | InRange(a, b, e) ::
        grids[a, b, e] == old(grids[a, b, e]) + if a == x && b < sy then Delta(c, a, b, e) else 0
    {
      AddColumnZ(r, grids, polarity, rotation, shift, lo, x, y, sy);
      y, sy := y + 1, sy + 1;
    }
  }

  /** The inner loop of the `Direction::Z` arm: world column (x, lo + y - 1), all heights z. */
  method AddColumnZ(r: Ruban, grids: array3<U8>, polarity: U8, rotation: U8, shift: U8, lo: nat, x: nat, y: nat, sy: nat)
    requires r.Valid() && rotation < 4 && shift < 2 && lo == ShiftBase(shift) && Is4x4x4(grids)
    requires 1 <= x <= 2 && 1 <= y <= 2 && sy == lo + y - 1
    requires forall e | 0 <= e < 4 ::
      grids[x, sy, e] + Delta(Call(r, Z, polarity, rotation, shift), x, sy, e) < 0x100
    modifies grids
    ensures forall a, b, e | InRange(a, b, e) ::
      grids[a, b, e] == old(grids[a, b, e]) + if a == x && b == sy then Delta(Call(r, Z, polarity, rotation, shift), a, b, e) else 0
  {
    ghost var c := Call(r, Z, polarity, rotation, shift);
    for z := 0 to 4
      invariant forall a, b, e | InRange(a, b, e) ::
        grids[a, b, e] == old(grids[a, b, e]) + if a == x && b == sy && e < z then Delta(c, a, b, e) else 0
    {
      var xp, yp, zp;
      if polarity == 0 {
        xp, yp, zp := x, y, z;
      } else {
        xp, yp, zp := 3 - x, y, 3 - z;
      }
      var v := GetSingleGrid(r, xp, yp, zp, rotation);
      assert v == Delta(c, x, sy, z);
      grids[x, sy, z] := grids[x, sy, z] + v;
    }
  }
}
