/** The exhaustive search of `main`: for every piece order, every polarity
    code and every rotation code, the six pieces are added into one
    accumulator, the odd cells are counted, and the first combination whose
    count is 56 is reported and ends the search. */
module Search {
  import opened Geometry
  import opened Digits

  datatype Option<T> = None | Some(value: T)

  /** The parity count that marks a solution. */
  const Target: nat := 56

  /** Number of polarity codes, `1 << 6`: one bit per piece. */
  const PolarityCodes: nat := 64

  /** Number of rotation codes, `1 << (2 * 6)`: two bits per piece. */
  const RotationCodes: nat := 4096

  /** The slot table: position b of a trial goes along Directions[b] at Shifts[b]. */
  const Directions: seq<Direction> := [X, X, Y, Y, Z, Z]
  const Shifts: seq<U8> := [0, 1, 0, 1, 0, 1]

  // ---------------------------------------------------------------------------
  // count_grids

  /** Odd cells among the first n cells of a column. */
  function OddInColumn(col: seq<int>, n: nat): (c: nat)
    requires n <= |col|
    ensures c <= n
  {
    if n == 0 then 0 else OddInColumn(col, n - 1) + col[n - 1] % 2
  }

  /** Odd cells among the first n columns of a plane. */
  function OddInPlane(p: seq<seq<int>>, n: nat): (c: nat)
    requires n <= |p| && forall b | 0 <= b < |p| :: |p[b]| == 4
    ensures c <= 4 * n
  {
    if n == 0 then 0 else OddInPlane(p, n - 1) + OddInColumn(p[n - 1], 4)
  }

  /** Odd cells among the first n planes of a cube. */
  function OddInCube(g: Cube, n: nat): (c: nat)
    requires IsCube(g) && n <= 4
    ensures c <= 16 * n
  {
    if n == 0 then 0 else OddInCube(g, n - 1) + OddInPlane(g[n - 1], 4)
  }

  /** The number of odd cells of a 4×4×4 cube: at most 64. */
  function OddCount(g: Cube): (c: nat)
    requires IsCube(g)
    ensures c <= 64
  {
    OddInCube(g, 4)
  }

  /** A column reaches the largest count exactly when all its cells are odd. */
  lemma {:induction false} OddInColumnFull(col: seq<int>, n: nat)
    requires n <= |col|
    ensures OddInColumn(col, n) == n <==> forall e | 0 <= e < n :: col[e] % 2 == 1
  {
    if n > 0 {
      OddInColumnFull(col, n - 1);
    }
  }

  /** A plane reaches the largest count exactly when all its cells are odd. */
  lemma {:induction false} OddInPlaneFull(p: seq<seq<int>>, n: nat)
    requires n <= |p| && forall b | 0 <= b < |p| :: |p[b]| == 4
    ensures OddInPlane(p, n) == 4 * n <==> forall b, e | 0 <= b < n && 0 <= e < 4 :: p[b][e] % 2 == 1
  {
    if n > 0 {
      OddInPlaneFull(p, n - 1);
      OddInColumnFull(p[n - 1], 4);
    }
  }

  /** The count is 64 exactly when every cell of the cube is odd. */
  lemma OddCountFull(g: Cube)
    requires IsCube(g)
    ensures OddCount(g) == 64 <==> forall x, y, z | InRange(x, y, z) :: g[x][y][z] % 2 == 1
  {
    forall n | 0 <= n <= 4
      ensures OddInCube(g, n) == 16 * n <==> forall a, b, e | 0 <= a < n && 0 <= b < 4 && 0 <= e < 4 :: g[a][b][e] % 2 == 1
    {
      OddInCubeFull(g, n);
    }
  }

  lemma {:induction false} OddInCubeFull(g: Cube, n: nat)
    requires IsCube(g) && n <= 4
    ensures OddInCube(g, n) == 16 * n <==>
      forall a, b, e | 0 <= a < n && 0 <= b < 4 && 0 <= e < 4 :: g[a][b][e] % 2 == 1
  {
    if n > 0 {
      OddInCubeFull(g, n - 1);
      OddInPlaneFull(g[n - 1], 4);
    }
  }

  /** `count_grids`: the number of odd cells of the accumulator, summing
      `cell & 1` in a u8 counter that never exceeds 64. */
  method CountGrids(grids: array3<U8>) returns (count: U8)
    requires Is4x4x4(grids)
    ensures count == OddCount(GridOf(grids))
  {
    ghost var g := GridOf(grids);
    count := 0;
    for x := 0 to 4
      invariant count == OddInCube(g, x)
    {
      for y := 0 to 4
        invariant count == OddInCube(g, x) + OddInPlane(g[x], y)
      {
        for z := 0 to 4
          invariant count == OddInCube(g, x) + OddInPlane(g[x], y) + OddInColumn(g[x][y], z)
        {
          count := count + grids[x, y, z] % 2;
        }
      }
    }
  }

  // ---------------------------------------------------------------------------
  // The trial of one (order, polarity code, rotation code)

  /** The entries of `xs` named by the indices `o`, in that order. */
  function Pick<T>(xs: seq<T>, o: seq<nat>): (ys: seq<T>)
    requires forall i | 0 <= i < |o| :: o[i] < |xs|
    ensures |ys| == |o|
  {
    seq(|o|, i requires 0 <= i < |o| => xs[o[i]])
  }

  /** `order.iter().map(|&i| &rubans[i])`: the pieces in the order tried. */
  function Permute(rubans: seq<Ruban>, order: seq<nat>): (pieces: seq<Ruban>)
    requires |order| == 6 && forall b | 0 <= b < 6 :: order[b] < |rubans|
    ensures |pieces| == 6
  {
    Pick(rubans, order)
  }

  /** Picking by two index sequences with the same multiset picks the same
      multiset of entries. */
  lemma {:induction false} PickReorder<T>(xs: seq<T>, o1: seq<nat>, o2: seq<nat>)
    requires forall i | 0 <= i < |o1| :: o1[i] < |xs|
    requires forall i | 0 <= i < |o2| :: o2[i] < |xs|
    requires multiset(o1) == multiset(o2)
    ensures multiset(Pick(xs, o1)) == multiset(Pick(xs, o2))
    decreases |o1|
  {
    if |o1| == 0 {
      assert |o2| == |multiset(o2)| == 0;
      assert Pick(xs, o1) == [] == Pick(xs, o2);
    } else {
      var n := |o1| - 1;
      assert o1[n] in multiset(o2);
      var i :| 0 <= i < |o2| && o2[i] == o1[n];
      MultisetRemove(o1, o2, i);
      var r1, r2 := o1[..n], o2[..i] + o2[i + 1..];
      assert forall m | 0 <= m < |r2| :: r2[m] in multiset(o2);
      PickReorder(xs, r1, r2);
      PickSplice(xs, o1, o2, i, r2);
    }
  }

  /** The inductive step of `PickReorder`: the last pick of `o1` and pick i
      of `o2` are the same entry, so equal multisets of the remaining picks
      give equal multisets of all picks. */
  lemma PickSplice<T>(xs: seq<T>, o1: seq<nat>, o2: seq<nat>, i: nat, rest: seq<nat>)
    requires forall m | 0 <= m < |o1| :: o1[m] < |xs|
    requires forall m | 0 <= m < |o2| :: o2[m] < |xs|
    requires |o1| > 0 && i < |o2| && o2[i] == o1[|o1| - 1]
    requires rest == o2[..i] + o2[i + 1..] && forall m | 0 <= m < |rest| :: rest[m] < |xs|
    requires multiset(Pick(xs, o1[..|o1| - 1])) == multiset(Pick(xs, rest))
    ensures multiset(Pick(xs, o1)) == multiset(Pick(xs, o2))
  {
    var n := |o1| - 1;
    var p1, p2 := Pick(xs, o1), Pick(xs, o2);
    assert p1[..n] + p1[n + 1..] == Pick(xs, o1[..n]);
    assert p2[..i] + p2[i + 1..] == Pick(xs, rest);
    MultisetSplit(p1, n);
    MultisetSplit(p2, i);
  }

  /** An order that is a permutation of 0..5 uses every piece exactly once. */
  lemma PermuteUsesEachPieceOnce(rubans: seq<Ruban>, order: seq<nat>)
    requires |rubans| == 6 && |order| == 6 && forall b | 0 <= b < 6 :: order[b] < 6
    requires multiset(order) == multiset([0, 1, 2, 3, 4, 5])
    ensures multiset(Permute(rubans, order)) == multiset(rubans)
  {
    var id: seq<nat> := [0, 1, 2, 3, 4, 5];
    PickReorder(rubans, order, id);
    assert Pick(rubans, id) == rubans;
  }

  /** Polarity code j decoded as `(j >> i) & 1` for i = 0..5. */
  function Polarities(j: nat): (pols: seq<U8>)
    ensures |pols| == 6 && forall i | 0 <= i < 6 :: pols[i] < 2
  {
    seq(6, i requires 0 <= i < 6 => Shr(j, i) % 2)
  }

  /** Rotation code k decoded as `(k >> (2 * i)) & 3` for i = 0..5. */
  function Rotations(k: nat): (rots: seq<U8>)
    ensures |rots| == 6 && forall i | 0 <= i < 6 :: rots[i] < 4
  {
    seq(6, i requires 0 <= i < 6 => Shr(k, 2 * i) % 4)
  }

  /** The polarities are the six binary digits of the code. */
  lemma PolaritiesAreBits(j: nat)
    ensures Polarities(j) == ToDigits(j, 2, 6)
  {
    forall i | 0 <= i < 6 ensures Polarities(j)[i] == ToDigits(j, 2, 6)[i] {
      ShrIsHalving(j, i);
      DivPowIsQuotient(j, 2, i);
      DigitAt(j, 2, 6, i);
    }
  }

  /** The rotations are the six base-4 digits of the code. */
  lemma RotationsAreQuads(k: nat)
    ensures Rotations(k) == ToDigits(k, 4, 6)
  {
    forall i | 0 <= i < 6 ensures Rotations(k)[i] == ToDigits(k, 4, 6)[i] {
      ShrTwiceIsQuartering(k, i);
      DigitAt(k, 4, 6, i);
    }
  }

  /** Every vector of six polarities in {0, 1} is decoded from exactly one
      code below 64: the `j` loop tries each polarity vector once. */
  lemma PolarityCodesBijective(pols: seq<U8>)
    requires |pols| == 6 && forall i | 0 <= i < 6 :: pols[i] < 2
    ensures FromDigits(pols, 2) < PolarityCodes && Polarities(FromDigits(pols, 2)) == pols
    ensures forall j | 0 <= j < PolarityCodes && Polarities(j) == pols :: j == FromDigits(pols, 2)
  {
    FromDigitsBound(pols, 2);
    ToFromDigits(pols, 2);
    PolaritiesAreBits(FromDigits(pols, 2));
    forall j | 0 <= j < PolarityCodes && Polarities(j) == pols ensures j == FromDigits(pols, 2) {
      PolaritiesAreBits(j);
      FromToDigits(j, 2, 6);
    }
  }

  /** Every vector of six rotations in {0, 1, 2, 3} is decoded from exactly
      one code below 4096: the `k` loop tries each rotation vector once. */
  lemma RotationCodesBijective(rots: seq<U8>)
    requires |rots| == 6 && forall i | 0 <= i < 6 :: rots[i] < 4
    ensures FromDigits(rots, 4) < RotationCodes && Rotations(FromDigits(rots, 4)) == rots
    ensures forall k | 0 <= k < RotationCodes && Rotations(k) == rots :: k == FromDigits(rots, 4)
  {
    FromDigitsBound(rots, 4);
    ToFromDigits(rots, 4);
    RotationsAreQuads(FromDigits(rots, 4));
    forall k | 0 <= k < RotationCodes && Rotations(k) == rots ensures k == FromDigits(rots, 4) {
      RotationsAreQuads(k);
      FromToDigits(k, 4, 6);
    }
  }

  /** Six well-formed pieces. */
  predicate PiecesOk(pieces: seq<Ruban>) {
    |pieces| == 6 && forall b | 0 <= b < 6 :: pieces[b].Valid()
  }

  /** The six placement calls of one trial, position b in slot b of the table. */
  function Trial(pieces: seq<Ruban>, pols: seq<U8>, rots: seq<U8>): (calls: seq<Call>)
    requires PiecesOk(pieces) && |pols| == 6 && |rots| == 6
    requires forall b | 0 <= b < 6 :: rots[b] < 4
    ensures |calls| == 6 && forall b | 0 <= b < 6 :: calls[b].Valid()
  {
    seq(6, b requires 0 <= b < 6 => Call(pieces[b], Directions[b], pols[b], rots[b], Shifts[b]))
  }

  /** Every entry is a 4×4×4 cube. */
  predicate AllCubes(gs: seq<Cube>) {
    forall i | 0 <= i < |gs| :: IsCube(gs[i])
  }

  /** The value of cell (x, y, z) after adding the grids `gs`, in order, into a zero accumulator. */
  function SumAt(gs: seq<Cube>, x: nat, y: nat, z: nat): int
    requires AllCubes(gs) && InRange(x, y, z)
  {
    if |gs| == 0 then 0 else SumAt(gs[..|gs| - 1], x, y, z) + gs[|gs| - 1][x][y][z]
  }

  /** The accumulator after adding the grids `gs` into a zero accumulator. */
  function Accumulate(gs: seq<Cube>): (g: Cube)
    requires AllCubes(gs)
    ensures IsCube(g)
    ensures forall x, y, z | InRange(x, y, z) :: g[x][y][z] == SumAt(gs, x, y, z)
  {
    seq(4, x requires 0 <= x < 4 => seq(4, y requires 0 <= y < 4 => seq(4, z requires 0 <= z < 4 =>
      SumAt(gs, x, y, z))))
  }

  /** Adding one more grid adds its cell. */
  lemma SumAtSnoc(gs: seq<Cube>, n: nat, x: nat, y: nat, z: nat)
    requires AllCubes(gs) && n < |gs| && InRange(x, y, z)
    ensures SumAt(gs[..n + 1], x, y, z) == SumAt(gs[..n], x, y, z) + gs[n][x][y][z]
  {
    assert gs[..n + 1][..n] == gs[..n];
  }

  /** Grids whose cells are 0 or 1 add up to at most their number. */
  lemma {:induction false} SumAtAtMostLength(gs: seq<Cube>, x: nat, y: nat, z: nat)
    requires AllCubes(gs) && InRange(x, y, z)
    requires forall i | 0 <= i < |gs| :: 0 <= gs[i][x][y][z] <= 1
    ensures 0 <= SumAt(gs, x, y, z) <= |gs|
  {
    if |gs| > 0 {
      SumAtAtMostLength(gs[..|gs| - 1], x, y, z);
    }
  }

  /** Removing one grid from the sequence removes its cell from the sum. */
  lemma {:induction false} SumAtRemove(gs: seq<Cube>, i: nat, x: nat, y: nat, z: nat)
    requires AllCubes(gs) && i < |gs| && InRange(x, y, z)
    ensures AllCubes(gs[..i] + gs[i + 1..])
    ensures SumAt(gs, x, y, z) == SumAt(gs[..i] + gs[i + 1..], x, y, z) + gs[i][x][y][z]
    decreases |gs|
  {
    var rest := gs[..i] + gs[i + 1..];
    var n := |gs| - 1;
    if i == n {
      assert rest == gs[..n];
    } else {
      var init := gs[..n];
      SumAtRemove(init, i, x, y, z);
      assert rest[..|rest| - 1] == init[..i] + init[i + 1..];
      assert rest[|rest| - 1] == gs[n];
    }
  }

  /** The multiset of a sequence is that of the sequence without entry i, plus that entry. */
  lemma MultisetSplit<T>(s: seq<T>, i: nat)
    requires i < |s|
    ensures multiset(s) == multiset(s[..i] + s[i + 1..]) + multiset{s[i]}
  {
    assert s == s[..i] + [s[i]] + s[i + 1..];
  }

  /** Taking the same element out of two sequences with equal multisets
      leaves equal multisets. */
  lemma MultisetRemove<T>(s1: seq<T>, s2: seq<T>, i: nat)
    requires |s1| > 0 && i < |s2| && s2[i] == s1[|s1| - 1] && multiset(s1) == multiset(s2)
    ensures multiset(s1[..|s1| - 1]) == multiset(s2[..i] + s2[i + 1..])
  {
    var n := |s1| - 1;
    MultisetSplit(s1, n);
    MultisetSplit(s2, i);
    assert s1[..n] + s1[n + 1..] == s1[..n];
    var a, b, e := multiset(s1[..n]), multiset(s2[..i] + s2[i + 1..]), multiset{s1[n]};
    assert a == (a + e) - e && b == (b + e) - e;
  }

  /** The accumulated value of a cell does not depend on the order in which
      the grids are added. */
  lemma {:induction false} SumAtReorder(g1: seq<Cube>, g2: seq<Cube>, x: nat, y: nat, z: nat)
    requires AllCubes(g1) && AllCubes(g2) && InRange(x, y, z)
    requires multiset(g1) == multiset(g2)
    ensures SumAt(g1, x, y, z) == SumAt(g2, x, y, z)
    decreases |g1|
  {
    if |g1| > 0 {
      var n := |g1| - 1;
      assert g1[n] in multiset(g2);
      var i :| 0 <= i < |g2| && g2[i] == g1[n];
      MultisetRemove(g1, g2, i);
      SumAtRemove(g2, i, x, y, z);
      SumAtReorder(g1[..n], g2[..i] + g2[i + 1..], x, y, z);
    } else {
      assert |g2| == |multiset(g2)| == 0;
    }
  }

  /** The accumulated grid, and so its parity count, does not depend on the
      order in which the grids are added. */
  lemma AccumulateReorder(g1: seq<Cube>, g2: seq<Cube>)
    requires AllCubes(g1) && AllCubes(g2)
    requires multiset(g1) == multiset(g2)
    ensures Accumulate(g1) == Accumulate(g2)
    ensures OddCount(Accumulate(g1)) == OddCount(Accumulate(g2))
  {
    forall x, y, z | InRange(x, y, z) ensures Accumulate(g1)[x][y][z] == Accumulate(g2)[x][y][z] {
      SumAtReorder(g1, g2, x, y, z);
    }
    CubeExt(Accumulate(g1), Accumulate(g2));
  }

  /** The grids of the six placements of a trial. */
  function Placements(calls: seq<Call>): (gs: seq<Grid>)
    requires forall i | 0 <= i < |calls| :: calls[i].Valid()
    ensures |gs| == |calls| && AllCubes(gs)
  {
    seq(|calls|, i requires 0 <= i < |calls| => Placement(calls[i]))
  }

  /** The parity count of a trial: the odd cells of the sum of its placements. */
  function TrialCount(calls: seq<Call>): (c: nat)
    requires forall i | 0 <= i < |calls| :: calls[i].Valid()
    ensures c <= 64
  {
    OddCount(Accumulate(Placements(calls)))
  }

  /** Placements of the same calls in another order are the same grids in
      another order. */
  lemma {:induction false} PlacementsReorder(c1: seq<Call>, c2: seq<Call>)
    requires forall i | 0 <= i < |c1| :: c1[i].Valid()
    requires forall i | 0 <= i < |c2| :: c2[i].Valid()
    requires multiset(c1) == multiset(c2)
    ensures multiset(Placements(c1)) == multiset(Placements(c2))
    decreases |c1|
  {
    if |c1| == 0 {
      assert |c2| == |multiset(c2)| == 0;
      assert Placements(c1) == [] == Placements(c2);
    } else {
      var n := |c1| - 1;
      assert c1[n] in multiset(c2);
      var i :| 0 <= i < |c2| && c2[i] == c1[n];
      MultisetRemove(c1, c2, i);
      var r1, r2 := c1[..n], c2[..i] + c2[i + 1..];
      assert forall m | 0 <= m < |r2| :: r2[m] in multiset(c2);
      PlacementsReorder(r1, r2);
      PlacementsSplice(c1, c2, i, r2);
    }
  }

  /** The inductive step of `PlacementsReorder`, as `PickSplice`. */
  lemma PlacementsSplice(c1: seq<Call>, c2: seq<Call>, i: nat, rest: seq<Call>)
    requires forall m | 0 <= m < |c1| :: c1[m].Valid()
    requires forall m | 0 <= m < |c2| :: c2[m].Valid()
    requires |c1| > 0 && i < |c2| && c2[i] == c1[|c1| - 1]
    requires rest == c2[..i] + c2[i + 1..] && forall m | 0 <= m < |rest| :: rest[m].Valid()
    requires multiset(Placements(c1[..|c1| - 1])) == multiset(Placements(rest))
    ensures multiset(Placements(c1)) == multiset(Placements(c2))
  {
    var n := |c1| - 1;
    var p1, p2 := Placements(c1), Placements(c2);
    assert p1[..n] + p1[n + 1..] == Placements(c1[..n]);
    assert p2[..i] + p2[i + 1..] == Placements(rest);
    MultisetSplit(p1, n);
    MultisetSplit(p2, i);
  }

  /** The parity count of a trial does not depend on the order in which its
      placements are added into the accumulator. */
  lemma TrialCountReorder(c1: seq<Call>, c2: seq<Call>)
    requires forall i | 0 <= i < |c1| :: c1[i].Valid()
    requires forall i | 0 <= i < |c2| :: c2[i].Valid()
    requires multiset(c1) == multiset(c2)
    ensures TrialCount(c1) == TrialCount(c2)
  {
    PlacementsReorder(c1, c2);
    AccumulateReorder(Placements(c1), Placements(c2));
  }

  /** A trial adds up its six grids. */
  lemma SumOfSix(gs: seq<Cube>, x: nat, y: nat, z: nat)
    requires AllCubes(gs) && |gs| == 6 && InRange(x, y, z)
    ensures SumAt(gs, x, y, z) ==
      gs[0][x][y][z] + gs[1][x][y][z] + gs[2][x][y][z] + gs[3][x][y][z] + gs[4][x][y][z] + gs[5][x][y][z]
  {
    assert gs[..0] == [];
    SumAtSnoc(gs, 0, x, y, z);
    SumAtSnoc(gs, 1, x, y, z);
    SumAtSnoc(gs, 2, x, y, z);
    SumAtSnoc(gs, 3, x, y, z);
    SumAtSnoc(gs, 4, x, y, z);
    SumAtSnoc(gs, 5, x, y, z);
    assert gs[..6] == gs;
  }

  /** With 0/1 pieces every cell of a trial holds at most 3: the two slots of
      one direction are disjoint, so each direction adds at most 1. In
      particular no u8 cell overflows. */
  lemma TrialCellAtMostThree(pieces: seq<Ruban>, pols: seq<U8>, rots: seq<U8>, x: nat, y: nat, z: nat)
    requires PiecesOk(pieces) && |pols| == 6 && |rots| == 6 && forall b | 0 <= b < 6 :: rots[b] < 4
    requires forall b | 0 <= b < 6 :: IsBinary(pieces[b])
    requires InRange(x, y, z)
    ensures SumAt(Placements(Trial(pieces, pols, rots)), x, y, z) <= 3
  {
    var calls := Trial(pieces, pols, rots);
    var gs := Placements(calls);
    SumOfSix(gs, x, y, z);
    forall b | 0 <= b < 6 ensures gs[b][x][y][z] <= 1 {
      DeltaBinary(calls[b], x, y, z);
    }
    SameDirectionDisjoint(X, x, y, z);
    SameDirectionDisjoint(Y, x, y, z);
    SameDirectionDisjoint(Z, x, y, z);
    assert gs[0][x][y][z] == 0 || gs[1][x][y][z] == 0;
    assert gs[2][x][y][z] == 0 || gs[3][x][y][z] == 0;
    assert gs[4][x][y][z] == 0 || gs[5][x][y][z] == 0;
  }

  /** One trial of `main`: the `for b in 0..6` loop of `add_to_grids` calls
      on an accumulator that starts at zero. */
  method PlaceAll(pieces: seq<Ruban>, pols: seq<U8>, rots: seq<U8>, grids: array3<U8>)
    requires PiecesOk(pieces) && |pols| == 6 && |rots| == 6 && forall b | 0 <= b < 6 :: rots[b] < 4
    requires forall b | 0 <= b < 6 :: IsBinary(pieces[b])
    requires Is4x4x4(grids) && forall x, y, z | InRange(x, y, z) :: grids[x, y, z] == 0
    modifies grids
    ensures GridOf(grids) == Accumulate(Placements(Trial(pieces, pols, rots)))
  {
    ghost var calls := Trial(pieces, pols, rots);
    ghost var gs := Placements(calls);
    for b := 0 to 6
      invariant forall x, y, z | InRange(x, y, z) :: grids[x, y, z] == SumAt(gs[..b], x, y, z)
    {
      forall x, y, z | InRange(x, y, z) ensures grids[x, y, z] + Delta(calls[b], x, y, z) < 0x100 {
        forall i | 0 <= i < b ensures 0 <= gs[..b][i][x][y][z] <= 1 {
          DeltaBinary(calls[i], x, y, z);
        }
        SumAtAtMostLength(gs[..b], x, y, z);
        DeltaBinary(calls[b], x, y, z);
      }
      AddToGrids(pieces[b], grids, Directions[b], pols[b], rots[b], Shifts[b]);
      forall x, y, z | InRange(x, y, z) ensures grids[x, y, z] == SumAt(gs[..b + 1], x, y, z) {
        SumAtSnoc(gs, b, x, y, z);
      }
    }
    assert gs[..6] == gs;
    CubeExt(GridOf(grids), Accumulate(gs));
  }

  /** The trial body of `main` up to the count: place the six pieces into
      the zeroed accumulator and count its odd cells. */
  method RunTrial(pieces: seq<Ruban>, pols: seq<U8>, rots: seq<U8>, grids: array3<U8>) returns (count: U8)
    requires PiecesOk(pieces) && |pols| == 6 && |rots| == 6 && forall b | 0 <= b < 6 :: rots[b] < 4
    requires forall b | 0 <= b < 6 :: IsBinary(pieces[b])
    requires Is4x4x4(grids) && forall x, y, z | InRange(x, y, z) :: grids[x, y, z] == 0
    modifies grids
    ensures GridOf(grids) == Accumulate(Placements(Trial(pieces, pols, rots)))
    ensures count == TrialCount(Trial(pieces, pols, rots))
  {
    PlaceAll(pieces, pols, rots, grids);
    count := CountGrids(grids);
  }

  /** The grids `get_grids` returns for the six placements of a trial, as
      printed for a solution. */
  method GetAllGrids(pieces: seq<Ruban>, pols: seq<U8>, rots: seq<U8>) returns (placements: seq<Grid>)
    requires PiecesOk(pieces) && |pols| == 6 && |rots| == 6 && forall b | 0 <= b < 6 :: rots[b] < 4
    ensures placements == Placements(Trial(pieces, pols, rots))
  {
    ghost var calls := Trial(pieces, pols, rots);
    placements := [];
    for b := 0 to 6
      invariant |placements| == b
      invariant forall i | 0 <= i < b :: placements[i] == Placement(calls[i])
    {
      var current := GetGrids(pieces[b], Directions[b], pols[b], rots[b], Shifts[b]);
      placements := placements + [current];
    }
  }

  // ---------------------------------------------------------------------------
  // The search

  /** Every order has six entries, each naming one of the six pieces. */
  predicate OrdersOk(orders: seq<seq<nat>>) {
    forall p | 0 <= p < |orders| :: |orders[p]| == 6 && forall b | 0 <= b < 6 :: orders[p][b] < 6
  }

  /** The trial of order p, polarity code j and rotation code k. */
  function TrialAt(rubans: seq<Ruban>, orders: seq<seq<nat>>, p: nat, j: nat, k: nat): (calls: seq<Call>)
    requires PiecesOk(rubans) && OrdersOk(orders) && p < |orders|
    ensures |calls| == 6 && forall b | 0 <= b < 6 :: calls[b].Valid()
  {
    Trial(Permute(rubans, orders[p]), Polarities(j), Rotations(k))
  }

  /** The parity count of the trial of order p, polarity code j and rotation code k. */
  function CountAt(rubans: seq<Ruban>, orders: seq<seq<nat>>, p: nat, j: nat, k: nat): nat
    requires PiecesOk(rubans) && OrdersOk(orders) && p < |orders|
  {
    TrialCount(TrialAt(rubans, orders, p, j, k))
  }

  /** The outcome of a successful search. `main` prints, for each slot b, the
      piece index `order[b]` and the grid of its placement (`get_grids`); the
      order index, both codes and the decoded polarities and rotations are
      returned as well, though the source does not print them. */
  datatype Solution = Solution(perm: nat, order: seq<nat>, polarityCode: nat, rotationCode: nat,
                               polarities: seq<U8>, rotations: seq<U8>, placements: seq<Grid>)

  /** `s` describes a trial of the enumeration whose count is the target. */
  predicate IsSolution(rubans: seq<Ruban>, orders: seq<seq<nat>>, s: Solution)
    requires PiecesOk(rubans) && OrdersOk(orders)
  {
    s.perm < |orders| && s.order == orders[s.perm] &&
    s.polarityCode < PolarityCodes && s.rotationCode < RotationCodes &&
    s.polarities == Polarities(s.polarityCode) && s.rotations == Rotations(s.rotationCode) &&
    CountAt(rubans, orders, s.perm, s.polarityCode, s.rotationCode) == Target &&
    s.placements == Placements(TrialAt(rubans, orders, s.perm, s.polarityCode, s.rotationCode))
  }

  /** (p, j, k) is tried before (p', j', k'): orders outermost, then
      polarity codes, then rotation codes. */
  predicate TriedBefore(p: nat, j: nat, k: nat, p': nat, j': nat, k': nat) {
    p < p' || (p == p' && (j < j' || (j == j' && k < k')))
  }

  /** The `k` loop of `main` for order `perm` and polarity code `j`: tries
      the rotation codes in turn on the zeroed accumulator, resetting it after
      each trial that misses the target; at the first hit it fetches the
      placements and stops. */
  method SearchRotations(rubans: seq<Ruban>, orders: seq<seq<nat>>, perm: nat, pieces: seq<Ruban>,
                         j: nat, polarities: seq<U8>, grids: array3<U8>) returns (found: Option<Solution>)
    requires PiecesOk(rubans) && forall i | 0 <= i < 6 :: IsBinary(rubans[i])
    requires OrdersOk(orders) && perm < |orders| && pieces == Permute(rubans, orders[perm])
    requires j < PolarityCodes && polarities == Polarities(j)
    requires Is4x4x4(grids) && forall x, y, z | InRange(x, y, z) :: grids[x, y, z] == 0
    modifies grids
    ensures found.Some? ==> IsSolution(rubans, orders, found.value)
    ensures found.Some? ==> found.value.perm == perm && found.value.polarityCode == j
    ensures found.Some? ==> GridOf(grids) == Accumulate(found.value.placements)
    ensures found.Some? ==> forall k: nat | k < found.value.rotationCode :: CountAt(rubans, orders, perm, j, k) != Target
    ensures found.None? ==> forall k: nat | k < RotationCodes :: CountAt(rubans, orders, perm, j, k) != Target
    ensures found.None? ==> forall x, y, z | InRange(x, y, z) :: grids[x, y, z] == 0
  {
    forall b | 0 <= b < 6 ensures pieces[b].Valid() && IsBinary(pieces[b]) {
      assert pieces[b] == rubans[orders[perm][b]];
    }
    found := None;
    for k := 0 to RotationCodes
      invariant found.None?
      invariant forall x, y, z | InRange(x, y, z) :: grids[x, y, z] == 0
      invariant forall k': nat | k' < k :: CountAt(rubans, orders, perm, j, k') != Target
    {
      var rotations := Rotations(k);
      var count := RunTrial(pieces, polarities, rotations, grids);
      assert count == CountAt(rubans, orders, perm, j, k);
      if count == Target as U8 {
        var placements := GetAllGrids(pieces, polarities, rotations);
        found := Some(Solution(perm, orders[perm], j, k, polarities, rotations, placements));
        return;
      }
      assert forall k': nat | k' < k + 1 :: CountAt(rubans, orders, perm, j, k') != Target;
      forall x, y, z | 0 <= x < 4 && 0 <= y < 4 && 0 <= z < 4 {
        grids[x, y, z] := 0;
      }
    }
  }

  /** The `j` loop of `main` for order `perm`: decodes each polarity code and
      runs the `k` loop for it, stopping at the first hit. */
  method SearchPolarities(rubans: seq<Ruban>, orders: seq<seq<nat>>, perm: nat, pieces: seq<Ruban>,
                          grids: array3<U8>) returns (found: Option<Solution>)
    requires PiecesOk(rubans) && forall i | 0 <= i < 6 :: IsBinary(rubans[i])
    requires OrdersOk(orders) && perm < |orders| && pieces == Permute(rubans, orders[perm])
    requires Is4x4x4(grids) && forall x, y, z | InRange(x, y, z) :: grids[x, y, z] == 0
    modifies grids
    ensures found.Some? ==> IsSolution(rubans, orders, found.value) && found.value.perm == perm
    ensures found.Some? ==> GridOf(grids) == Accumulate(found.value.placements)
    ensures found.Some? ==> forall j: nat, k: nat | j < PolarityCodes && k < RotationCodes &&
        TriedBefore(perm, j, k, perm, found.value.polarityCode, found.value.rotationCode) ::
        CountAt(rubans, orders, perm, j, k) != Target
    ensures found.None? ==> forall j: nat, k: nat | j < PolarityCodes && k < RotationCodes ::
      CountAt(rubans, orders, perm, j, k) != Target
    ensures found.None? ==> forall x, y, z | InRange(x, y, z) :: grids[x, y, z] == 0
  {
    found := None;
    for j := 0 to PolarityCodes
      invariant found.None?
      invariant forall x, y, z | InRange(x, y, z) :: grids[x, y, z] == 0
      invariant forall j': nat, k: nat | j' < j && k < RotationCodes :: CountAt(rubans, orders, perm, j', k) != Target
    {
      var polarities := Polarities(j);
      found := SearchRotations(rubans, orders, perm, pieces, j, polarities, grids);
      if found.Some? {
        return;
      }
    }
  }

  /** The body of `main`: try every order, polarity code and rotation code
      in turn on one accumulator, and stop the whole search (`break
      'order_for`) at the first trial whose count is the target. The
      labelled break out of three loops is an early return from the two
      inner loops followed by a break of this one. When the search ends
      without a solution, no trial of the enumeration reaches the target. */
  method Search(rubans: seq<Ruban>, orders: seq<seq<nat>>) returns (found: Option<Solution>)
    requires PiecesOk(rubans) && forall i | 0 <= i < 6 :: IsBinary(rubans[i])
    requires OrdersOk(orders)
    ensures found.Some? ==> IsSolution(rubans, orders, found.value)
    ensures found.Some? ==> forall p: nat, j: nat, k: nat |
      p < |orders| && j < PolarityCodes && k < RotationCodes &&
      TriedBefore(p, j, k, found.value.perm, found.value.polarityCode, found.value.rotationCode) ::
      CountAt(rubans, orders, p, j, k) != Target
    ensures found.None? ==> forall p: nat, j: nat, k: nat | p < |orders| && j < PolarityCodes && k < RotationCodes ::
      CountAt(rubans, orders, p, j, k) != Target
  {
    var grids := new U8[4, 4, 4]((_, _, _) => 0);
    found := None;
    for perm := 0 to |orders|
      invariant found.None?
      invariant forall x, y, z | InRange(x, y, z) :: grids[x, y, z] == 0
      invariant forall p: nat, j: nat, k: nat | p < perm && j < PolarityCodes && k < RotationCodes ::
        CountAt(rubans, orders, p, j, k) != Target
    {
      var order := orders[perm];
      var pieces := Permute(rubans, order);
      found := SearchPolarities(rubans, orders, perm, pieces, grids);
      if found.Some? {
        break;
      }
    }
  }
}
