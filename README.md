# RubanLock in Dafny

RubanLock is a brute-force solver for a 4×4×4 packing puzzle. Six "Ruban" pieces each carry a 2×2×4 pattern of 0/1 cells. Each piece goes into one of six slots of the cube: two parallel slabs per axis, chosen by a direction X/Y/Z and a shift 0/1. Each placement also has a polarity (mirrored or not) and one of four quarter-turn rotation codes. For every piece order, every polarity vector and every rotation vector, the solver adds the six placed pieces into one u8 accumulator. It then counts the cells holding an odd value and stops at the first trial whose count is 56.

The model has four modules:

- `Geometry` (`geometry.dfy`) covers the pieces and their placement:
  - the cell type `U8`, grids as values and the accumulator as an `array3<U8>`;
  - `Ruban::new` (`NewRuban`) and the rotated lookup `get_single_grid` (`GetSingleGrid`);
  - the slot footprint (`InSlot`) and the coordinate map of the projection (`PieceCoord`, with inverse `WorldCoord`);
  - the per-cell specification of one placement (`Delta` and `Placement`);
  - the two imperative forms of the projection. `get_grids` (`GetGrids`) builds a fresh grid. `add_to_grids` (`AddToGrids`) adds into the accumulator in place.
  - Each loop level of the source is one method with its own loop. For example, `GetGridsY`, `GetPlaneY` and `GetColumnY` are the three nested loops of the `Direction::Y` arm of `get_grids`. Every level is proved against `Delta`.
- `Digits` (`digits.dfy`) covers `>>` as repeated halving and base-b digit strings. With these, the decoded polarity and rotation vectors are the base-2 and base-4 digits of the loop counters.
- `Search` (`search.dfy`) covers the rest of `main`:
  - `count_grids` (`CountGrids`), against the recursive count `OddCount`;
  - the slot table;
  - decoding of the codes (`Polarities`, `Rotations`);
  - one trial (`PlaceAll`, `RunTrial`), specified by the cell sums of its six placements (`Accumulate`, `TrialCount`);
  - the three nested search loops (`SearchRotations`, `SearchPolarities`, `Search`).
- `Lock` (`lock.dfy`) holds the six piece patterns of `main`. `Run` builds the pieces from them and runs the search.

Modelling decisions:

- The code comments in `get_single_grid` label codes 0..3 as 90°..360°. The code makes code 0 the identity. The model follows the index maps, not the comments.
- A nonzero polarity of any value selects the mirrored map, as in the code. Polarity is never checked.
- The loop `for (z, sz) in (1..3).zip(s_iter)` pairs the piece index with the shifted world index. The model carries both indices, with `sz == lo + z - 1`.
- Both source panics (rotation ≥ 4 and shift ≥ 2) are preconditions.
- An overflowing u8 `+=` panics in a debug build and wraps around modulo 256 in a release build. The precondition of `AddToGrids` excludes both. `TrialCellAtMostThree` shows that neither can happen in a trial of 0/1 pieces.
- The `break 'order_for` out of three loops is modelled in two steps:
  - the two inner loop methods return early;
  - the outer loop then breaks.
- The accumulator is allocated once by `Search`. Every trial receives it all-zero: this is a precondition of `RunTrial`, kept as a loop invariant of the three loops.

## Model

| member | source | states |
|---|---|---|
| Geometry.NewRuban | src/main.rs:14-24 | the piece holds `shape[x-1][y-1][z]` on the four centre columns x, y ∈ {1,2} and 0 in every other cell |
| Geometry.EmbedBinary | src/main.rs:14-24 | a piece built from a 0/1 pattern has only 0/1 cells |
| Geometry.GetSingleGrid | src/main.rs:26-40 | a rotated lookup is defined for codes 0..3 only; on a centre column it reads a centre column of the piece at the same height |
| Geometry.Rotate | src/main.rs:26-40 | the piece under one rotation code holds the rotated lookup in every cell |
| Geometry.RotateZero | src/main.rs:29 | rotation code 0 is the identity |
| Geometry.RotateStep | src/main.rs:29-35 | a quarter turn (code 1) after code r is code (r + 1) mod 4: the codes form the cyclic group generated by code 1 |
| Geometry.RotateFullTurn | src/main.rs:31 | four quarter turns give back the piece |
| Geometry.RotateHalfTurnTwice | src/main.rs:33 | two half turns give back the piece |
| Geometry.ShiftBase | src/main.rs:55-61 | a shift outside {0,1} is excluded; the selected index pair starts at an even index and fits in 0..4 |
| Geometry.InSlot | src/main.rs:55-118 | every cell of the slot a (direction, shift) writes lies inside the 4×4×4 cube |
| Geometry.PieceCoord | src/main.rs:63-118 | every piece coordinate (xp, yp, zp) read for a slot cell lies in the centre columns xp, yp ∈ {1,2}, with zp in 0..4, so `3 - x` never underflows and every index is in range |
| Geometry.WorldCoord | src/main.rs:63-118 | each of the 16 centre cells of the piece has a world cell in the slot that reads it |
| Geometry.SlotBijection | src/main.rs:63-118 | distinct slot cells read distinct piece cells: the projection is one-to-one on the slot |
| Geometry.SameDirectionDisjoint | src/main.rs:55-61 | the slots with shift 0 and shift 1 of one direction share no cell |
| Geometry.Delta | src/main.rs:63-118 | a placement contributes 0 to every cell outside its slot |
| Geometry.DeltaBinary | src/main.rs:63-118 | a 0/1 piece contributes at most 1 to any cell |
| Geometry.Placement | src/main.rs:42-121 | the placement grid is 4×4×4 and holds the contribution of the placement in each cell |
| Geometry.GetGrids | src/main.rs:42-121 | `get_grids` returns exactly the placement grid: each slot cell gets one lookup, and every other cell is 0 |
| Geometry.GetGridsX | src/main.rs:65-80 | the `Direction::X` arm fills world planes x = 0..3 with the placement |
| Geometry.GetPlaneX | src/main.rs:66-79 | the y loop of the X arm fills one world plane with the placement |
| Geometry.GetColumnX | src/main.rs:67-78 | the zipped z/sz loop fills one world column with the placement |
| Geometry.GetGridsY | src/main.rs:83-98 | the `Direction::Y` arm (zipped x/sx loop) gives the placement grid |
| Geometry.GetPlaneY | src/main.rs:84-97 | the y loop of the Y arm fills world plane sx with the placement |
| Geometry.GetColumnY | src/main.rs:85-96 | the z loop of the Y arm fills one world column with the placement |
| Geometry.GetGridsZ | src/main.rs:101-116 | the `Direction::Z` arm gives the placement grid |
| Geometry.GetPlaneZ | src/main.rs:102-115 | the zipped y/sy loop fills world plane x with the placement |
| Geometry.GetColumnZ | src/main.rs:103-114 | the z loop of the Z arm fills one world column with the placement |
| Geometry.AddToGrids | src/main.rs:123-199 | `add_to_grids` leaves the accumulator equal to its old value plus the placement grid, so a zero accumulator ends up equal to the placement grid; cells outside the slot are unchanged; a u8 overflow is excluded |
| Geometry.AddToZeroIsPlacement | src/main.rs:123-199 | into a zero accumulator, the in-place form gives exactly the grid `get_grids` returns |
| Geometry.AddToGridsX | src/main.rs:145-160 | the X arm adds the placement to every cell |
| Geometry.AddPlaneX | src/main.rs:146-159 | the y loop of the X arm adds the placement to world plane x only |
| Geometry.AddColumnX | src/main.rs:147-158 | the zipped z/sz loop adds the placement to one world column only |
| Geometry.AddToGridsY | src/main.rs:163-178 | the Y arm adds the placement to every cell |
| Geometry.AddPlaneY | src/main.rs:164-177 | the y loop of the Y arm adds the placement to world plane sx only |
| Geometry.AddColumnY | src/main.rs:165-176 | the z loop of the Y arm adds the placement to one world column only |
| Geometry.AddToGridsZ | src/main.rs:181-196 | the Z arm adds the placement to every cell |
| Geometry.AddPlaneZ | src/main.rs:182-195 | the zipped y/sy loop adds the placement to world plane x only |
| Geometry.AddColumnZ | src/main.rs:183-194 | the z loop of the Z arm adds the placement to one world column only |
| Digits.ToDigits | src/main.rs:258 | the n lowest base-b digits: n of them, each below b |
| Digits.DigitAt | src/main.rs:258 | digit i is the value divided i times by b, modulo b |
| Digits.Shr | src/main.rs:258 | `v >> n` never exceeds v, and is 0 when v < 2^n |
| Digits.ShrIsHalving | src/main.rs:258 | `j >> i` is j divided by 2^i, rounded down |
| Digits.DivPowIsQuotient | src/main.rs:258 | the i successive halvings that pick polarity bit i amount to one division by 2^i |
| Digits.ShrTwiceIsQuartering | src/main.rs:262 | `k >> (2 * i)` is k divided i times by 4 |
| Digits.FromDigitsBound | src/main.rs:257 | n digits below b encode a number below b^n |
| Digits.FromToDigits | src/main.rs:257-262 | re-encoding the n lowest digits of v < b^n gives back v |
| Digits.ToFromDigits | src/main.rs:257-262 | decoding the encoding of a digit string gives back the string |
| Search.OddCount | src/main.rs:215-225 | the number of odd cells of a cube is at most 64 |
| Search.OddCountFull | src/main.rs:215-225 | the odd-cell count is 64 exactly when every cell is odd |
| Search.CountGrids | src/main.rs:215-225 | `count_grids` returns the number of cells with an odd value, so the u8 counter stays in 0..64 |
| Search.Permute | src/main.rs:254 | an order picks six pieces |
| Search.PickReorder | src/main.rs:254 | index sequences with the same multiset pick the same multiset of pieces |
| Search.PermuteUsesEachPieceOnce | src/main.rs:238-254 | an order that is a permutation of 0..5 uses every piece exactly once |
| Search.Polarities | src/main.rs:258 | every decoded polarity `(j >> i) & 1` is 0 or 1 |
| Search.Rotations | src/main.rs:262 | every decoded rotation `(k >> 2i) & 3` is in 0..3, so no lookup can panic |
| Search.PolaritiesAreBits | src/main.rs:258 | the polarities are the six binary digits of j, slot 0 least significant |
| Search.RotationsAreQuads | src/main.rs:262 | the rotations are the six base-4 digits of k, slot 0 least significant |
| Search.PolarityCodesBijective | src/main.rs:257-258 | every 0/1 vector of six comes from exactly one j < 64, and re-encoding gives back j: the j loop tries each polarity vector once |
| Search.RotationCodesBijective | src/main.rs:261-262 | every vector of six codes in 0..3 comes from exactly one k < 4096: the k loop tries each rotation vector once |
| Search.Trial | src/main.rs:264-272 | a trial makes six placement calls, each with a valid rotation and shift from the slot table |
| Search.Accumulate | src/main.rs:264-272 | each accumulated cell is the sum of the grids added, in order |
| Search.SumAtSnoc | src/main.rs:264-272 | adding one more grid adds its cell to the sum |
| Search.SumAtAtMostLength | src/main.rs:264-272 | adding n grids of 0/1 cells gives a cell between 0 and n |
| Search.SumAtReorder | src/main.rs:264-272 | a cell sum does not depend on the order of the grids |
| Search.AccumulateReorder | src/main.rs:264-274 | the accumulated grid and its odd-cell count do not depend on the order of the grids |
| Search.Placements | src/main.rs:264-272 | one 4×4×4 grid per placement call |
| Search.PlacementsReorder | src/main.rs:264-272 | reordering the placement calls reorders their grids |
| Search.TrialCount | src/main.rs:264-274 | the count of a trial is at most 64 |
| Search.TrialCountReorder | src/main.rs:264-274 | reordering the six `add_to_grids` calls of a trial does not change its count |
| Search.SumOfSix | src/main.rs:264-272 | a trial cell is the sum of the six placement cells |
| Search.TrialCellAtMostThree | src/main.rs:240-272 | with 0/1 pieces and the slot table X,X,Y,Y,Z,Z / 0,1,0,1,0,1, every trial cell is at most 3: each direction touches a cell at most once, so no u8 cell overflows |
| Search.PlaceAll | src/main.rs:264-272 | the six `add_to_grids` calls on a zero accumulator leave the cell sums of the six placements |
| Search.RunTrial | src/main.rs:264-274 | after a trial on a zero accumulator, the accumulator holds the cell sums of the six placements and the returned count is their odd-cell count |
| Search.GetAllGrids | src/main.rs:277-286 | the grids fetched for a reported solution are the six placement grids of that trial |
| Search.SearchRotations | src/main.rs:261-291 | the k loop starts each trial on a zero accumulator; on a hit it returns the first k whose count is 56, with the trial's polarities, rotations and grids, and leaves the accumulator holding that trial's sum (the break skips the reset); otherwise no k reaches 56 and the accumulator is zero |
| Search.SearchPolarities | src/main.rs:257-292 | the j loop returns the first (j, k) in enumeration order whose count is 56, with the accumulator holding that trial's sum, or none after every (j, k) misses, with the accumulator zero |
| Search.Search | src/main.rs:237-293 | A reported solution is a trial of the enumeration whose count is 56, every trial before it in (order, j, k) order has a count other than 56, and when none is reported no trial of the enumeration has count 56. |
| Lock.Run | src/main.rs:227-293 | the six pieces are the given patterns embedded by `Ruban::new`, and the outcome is that of the search over them |

## Left out

- Printing is not modelled. This covers `print_grids`, the progress line for each order and the solution dump. On success `main` prints, for each slot b, the piece index `order[b]` and that piece's `get_grids` grid. The model's `Solution` also returns the order index, both codes and the decoded polarity and rotation vectors, which the source does not print.
- `itertools::permutations` is a library call. `Search` and `Run` take the orders as a sequence `orders`, in which each order names six pieces. The source enumerates the 720 permutations of 0..5 in lexicographic order. The model does not prove that `orders` is that enumeration. `PermuteUsesEachPieceOnce` states what a permutation order gives.
- The model does not decide whether the six concrete pieces have a trial with count 56. That would mean evaluating up to 188,743,680 trials. `Search` states what the outcome means in either case.
- Search.Permute: its contract states only the number of pieces. What a permutation order yields is stated by `PermuteUsesEachPieceOnce`.
- u64 loop counters and the u8 casts of the decoded digits are unbounded integers. All values stay in range, since j < 64, k < 4096 and the digits are below 4.
- The integer widths of `usize` indices do not matter: every index is proved to lie in 0..4.
- u8 overflow in `add_to_grids` is not modelled as a behaviour, neither the debug-build panic nor the release-build wrap-around. It is a precondition, and no trial of the search can reach it.
- Search.Search: the accumulator is local to `main`, as in the source, and nothing reads it after the search. Its final contents are therefore not part of the contract. The inner loop methods state them: the winning trial's sum on a hit, zero otherwise.
