/** The fixed data of `main`: the six piece shapes and the run that builds
    the pieces from them and searches. */
module Lock {
  import opened Geometry
  import opened Search

  /** The six definition patterns of `main`, in the order `Ruban::new` is called. */
  const Shapes: seq<Shape> := [
    [[[0, 1, 0, 0], [1, 1, 1, 1]], [[0, 0, 0, 0], [1, 0, 0, 1]]],
    [[[1, 1, 1, 1], [1, 1, 0, 0]], [[1, 0, 0, 1], [1, 0, 0, 0]]],
    [[[1, 1, 1, 1], [0, 1, 0, 0]], [[1, 0, 0, 1], [0, 0, 0, 0]]],
    [[[1, 1, 1, 1], [1, 1, 1, 1]], [[0, 0, 1, 1], [0, 0, 1, 1]]],
    [[[1, 1, 1, 1], [0, 1, 1, 1]], [[1, 0, 0, 1], [0, 0, 0, 1]]],
    [[[1, 1, 1, 1], [1, 0, 1, 1]], [[1, 0, 0, 1], [1, 0, 0, 1]]]
  ]

  /** Builds the pieces of `main` and runs the search over `orders`, the
      piece orders in enumeration order. The pieces are the embedded shapes,
      and the outcome is the first trial whose count is the target, or none. */
  method Run(orders: seq<seq<nat>>) returns (rubans: seq<Ruban>, found: Option<Solution>)
    requires OrdersOk(orders)
    ensures PiecesOk(rubans)
    ensures forall i | 0 <= i < 6 :: rubans[i] == Embed(Shapes[i])
    ensures found.Some? ==> IsSolution(rubans, orders, found.value)
    ensures found.Some? ==> forall p: nat, j: nat, k: nat |
      p < |orders| && j < PolarityCodes && k < RotationCodes &&
      TriedBefore(p, j, k, found.value.perm, found.value.polarityCode, found.value.rotationCode) ::
      CountAt(rubans, orders, p, j, k) != Target
    ensures found.None? ==> forall p: nat, j: nat, k: nat | p < |orders| && j < PolarityCodes && k < RotationCodes ::
      CountAt(rubans, orders, p, j, k) != Target
  {
    forall i | 0 <= i < 6 ensures IsShape(Shapes[i]) && IsBinaryShape(Shapes[i]) {
    }
    var r0 := NewRuban(Shapes[0]);
    var r1 := NewRuban(Shapes[1]);
    var r2 := NewRuban(Shapes[2]);
    var r3 := NewRuban(Shapes[3]);
    var r4 := NewRuban(Shapes[4]);
    var r5 := NewRuban(Shapes[5]);
    rubans := [r0, r1, r2, r3, r4, r5];
    assert forall i | 0 <= i < 6 :: rubans[i] == Embed(Shapes[i]);
    forall i | 0 <= i < 6 ensures rubans[i].Valid() && IsBinary(rubans[i]) {
      EmbedBinary(Shapes[i]);
    }
    found := Search.Search(rubans, orders);
  }
}
