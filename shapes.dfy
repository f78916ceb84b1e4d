/** Shape queries of src/basic.c: a shape is a 4-slot integer array whose
    logical length (the rank) ends at the first zero entry. */
module Shapes {
  import opened Outcomes

  /** Number of slots of a TensorShape. */
  const Capacity: nat := 4

  type Shape = s: seq<int> | |s| == Capacity witness [0, 0, 0, 0]

  /** The all-zero shape `(TensorShape){0}`: rank 0, one element. */
  const ScalarShape: Shape := [0, 0, 0, 0]

  /** A shape a tensor may have: sizes are non-negative and, once a zero
      terminates the shape, every later slot is zero too. */
  ghost predicate ValidShape(s: Shape) {
    && s[0] >= 0 && s[1] >= 0 && s[2] >= 0 && s[3] >= 0
    && (s[0] == 0 ==> s[1] == 0) && (s[1] == 0 ==> s[2] == 0) && (s[2] == 0 ==> s[3] == 0)
  }

  /** The rank (TensorShape_dim): the index of the first zero slot, or 4. */
  function Rank(s: Shape): (r: nat)
    ensures r <= Capacity
    ensures (r > 0 ==> s[0] != 0) && (r > 1 ==> s[1] != 0) && (r > 2 ==> s[2] != 0) && (r > 3 ==> s[3] != 0)
    ensures r < Capacity ==> s[r] == 0
  {
    if s[0] == 0 then 0
    else if s[1] == 0 then 1
    else if s[2] == 0 then 2
    else if s[3] == 0 then 3
    else 4
  }

  /** Product of a sequence of sizes; the empty product is 1. */
  function Product(xs: seq<int>): int {
    if xs == [] then 1 else Product(xs[..|xs| - 1]) * xs[|xs| - 1]
  }

  /** The element count (TensorShape_numel): the product of the entries
      before the rank. */
  function Numel(s: Shape): int {
    Product(s[..Rank(s)])
  }

  /** Loop form of TensorShape_dim. */
  method ShapeDim(shape: Shape) returns (d: int)
    ensures d == Rank(shape)
    ensures 0 <= d <= Capacity
  {
    for i := 0 to Capacity
      invariant forall k :: 0 <= k < i ==> shape[k] != 0
    {
      if shape[i] == 0 {
        return i;
      }
    }
    return Capacity;
  }

  /** Loop form of TensorShape_numel. */
  method ShapeNumel(shape: Shape) returns (numel: int)
    ensures numel == Numel(shape)
  {
    numel := 1;
    var i := 0;
    while i < Capacity
      invariant 0 <= i <= Rank(shape)
      invariant numel == Product(shape[..i])
    {
      if shape[i] == 0 {
        break;
      }
      assert shape[..i + 1][..i] == shape[..i];
      numel := numel * shape[i];
      i := i + 1;
    }
  }

  /** TensorShape_asdim: a negative dim counts from the end; anything that
      is still outside [0, rank) is an error carrying the adjusted dim. */
  function AsDim(shape: Shape, dim: int): (r: Result<nat>)
    ensures r.Ok? <==> -(Rank(shape) as int) <= dim < Rank(shape)
    ensures r.Ok? ==> r.value < Rank(shape)
    ensures r.Ok? && dim >= 0 ==> r.value == dim
    ensures r.Ok? && dim < 0 ==> r.value == dim + Rank(shape)
    ensures r.Fail? ==> r.error == DimOutOfRange(if dim < 0 then dim + Rank(shape) else dim)
  {
    var shapeDim := Rank(shape);
    var d := if dim < 0 then dim + shapeDim else dim;
    if 0 <= d < shapeDim then Ok(d) else Fail(DimOutOfRange(d))
  }

  lemma {:induction false} ProductPositive(xs: seq<int>)
    requires forall i :: 0 <= i < |xs| ==> xs[i] > 0
    ensures Product(xs) >= 1
  {
    if xs != [] {
      ProductPositive(xs[..|xs| - 1]);
      var p := Product(xs[..|xs| - 1]);
      assert p * xs[|xs| - 1] >= p * 1;
    }
  }

  lemma {:induction false} ProductNonZero(xs: seq<int>)
    requires forall i :: 0 <= i < |xs| ==> xs[i] != 0
    ensures Product(xs) != 0
  {
    if xs != [] {
      ProductNonZero(xs[..|xs| - 1]);
    }
  }

  /** Every shape has a non-zero element count: the entries before the rank
      are non-zero by definition, so the division in Tensor_mean never
      divides by zero. */
  lemma NumelNonZero(s: Shape)
    ensures Numel(s) != 0
  {
    ProductNonZero(s[..Rank(s)]);
  }

  /** A valid shape has at least one element; the scalar shape has exactly one. */
  lemma NumelPositive(s: Shape)
    requires ValidShape(s)
    ensures Numel(s) >= 1
    ensures Rank(s) == 0 ==> Numel(s) == 1
  {
    ProductPositive(s[..Rank(s)]);
  }

  /** Past the rank a valid shape holds only zeros, so the rank is exactly
      the number of positive slots. */
  lemma RankOfValid(s: Shape, k: nat)
    requires ValidShape(s) && k <= Capacity
    requires forall i :: 0 <= i < k ==> s[i] > 0
    requires k < Capacity ==> s[k] == 0
    ensures Rank(s) == k
  {
  }

  /** Numel splits off the last dimension. */
  lemma {:induction false} NumelLast(s: Shape)
    requires Rank(s) >= 1
    ensures Numel(s) == Product(s[..Rank(s) - 1]) * s[Rank(s) - 1]
  {
    assert s[..Rank(s)][..Rank(s) - 1] == s[..Rank(s) - 1];
  }
}
