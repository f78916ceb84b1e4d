/** Optional values and the engine's fatal error conditions, as values. */
module Outcomes {

  datatype Option<+T> = None | Some(value: T)

  /** Why an operation stopped. In the C engine every one of these aborts the
      program (`assert`, `cten_assert`, `cten_assert_shape`); the model returns
      them instead, so that callers can see which check fired. */
  datatype Error =
    | DimOutOfRange(dim: int)   // TensorShape_asdim: the normalised dim is not in [0, rank)
    | RankBelowTwo              // Tensor_matmul: an operand has rank < 2
    | InnerDimMismatch          // Tensor_matmul: n differs from other's second-to-last dim
    | NotScalar                 // Tensor_backward without a seed on a tensor of numel != 1
    | SeedHasNode               // Tensor_backward: the seed gradient carries a GradNode
    | BroadcastNotModelled      // shapes differ: the outcome belongs to the external broadcasting routine,
                                // whose behaviour this model does not include
    | RowsPastProduct           // Tensor_backward's rank-mismatch branch with equal shapes and rows longer
                                // than 1: its row sums would read past the product's elements

  datatype Result<+T> = Ok(value: T) | Fail(error: Error)

  datatype Status = Done | Aborted(error: Error)
}
