# cTensor core in Dafny

This project models the core of cTensor, a small C tensor engine with
reverse-mode automatic differentiation. The model covers:

- **Shape queries.** A `TensorShape` is four integer slots ended by the first
  zero. `TensorShape_dim` gives the rank, `TensorShape_numel` the element
  count and `TensorShape_asdim` normalises an axis.
- **Buffers and tensors.** A `FloatBuffer` holds a reference count, an element
  count and a flexible array of elements. A tensor is a value: a copy of the
  shape, a pointer to a shared buffer and an optional `GradNode`. The model
  covers `Tensor_new`, `Tensor_zeros`, `Tensor_ones`, `Tensor_detach` and
  `Tensor_delete`.
- **Operators.** The model covers `Tensor_add`, `Tensor_mul`, `Tensor_mulf`,
  `Tensor_sum`, `Tensor_mean`, `Tensor_matmul` and `Tensor_argmax`, and the
  gradient rules `GradFn_add`, `GradFn_mul`, `GradFn_sum`, `GradFn_mean` and
  `GradFn_matmul`.
- **The backward engine.** `Tensor_backward` accumulates gradients into the
  nodes, which tensor copies share. The model includes its rank-mismatch
  branch (`_softmax_preprosess` and the in-place compaction of rows) and the
  counting walk `Tensor_backward_apply`.

Modules:

| file | module | contents |
|---|---|---|
| `outcomes.dfy` | `Outcomes` | `Option`, `Result`, the error kinds, and `Status` for backward |
| `shapes.dfy` | `Shapes` | shapes, rank, element count, axis normalisation |
| `element_math.dfy` | `ElementMath` | exact sums, row sums, dot products and matrix products over element sequences |
| `tensors.dfy` | `Tensors` | the `FloatBuffer` and `GradNode` classes, the `Tensor` datatype, the tensor lifecycle |
| `operators.dfy` | `Operators` | the operators and their gradient rules |
| `autograd.dfy` | `Autograd` | the graph invariant, `Tensor_backward` and `Tensor_backward_apply` |
| `usage.dfy` | `Usage` | small programs that build a graph with the operators and run backward on it |

Design choices:

- **Elements.** Elements are `real`, so sums and products are exact.
- **Classes.** `FloatBuffer` is a class because `refcount` changes in place
  through every tensor that shares the buffer. Its element array is a Dafny
  `array<real>`. `numel` is a `const`: the one place the source rewrites it
  (src/basic.c:118, on a buffer the rank-mismatch branch has just
  allocated) is modelled by a second header, the constructor `Over`, with
  the lowered count over the same element array. `GradNode` is a class
  because backward writes `grad` through a pointer that every copy of a
  tensor shares.
- **Nodes.** The operators fill in the fields of the node `Tensor_new` made
  (src/operator.c:30-33). `Operators.Record` instead builds a new node with
  the rule and the operands already in place, so the fields of a node never
  change after it is built.
- **Gradient rules.** The `grad_fn` pointer becomes the enumeration `GradFn`.
  `NoGradFn` stands for the zeroed pointer of a fresh node. `n_inputs` is the
  length of the `inputs` sequence.
- **Depth.** A ghost `depth` on each node is lower on every input's node than
  on the node that records it. It is how the acyclic graph appears in the
  model, and it gives the recursions of backward a decreasing measure.
- **Failed assertions.** Where the source would fail a C `assert` or
  `cten_assert`, the model returns an error value: a `Result`, or an
  `Aborted` status for backward.

Three behaviours of the source that the model follows as written:

- **`GradFn_mean`.** Its comment (src/operator.c:85) gives the derivative as
  `1 / x.numel()` for the input x. The code fills a tensor shaped like the
  owner, the scalar mean result, with `1 / owner.numel`, which is 1
  (src/operator.c:86-89). So after `mean(a)` and backward, a receives the
  one-element gradient `[1.0]` of shape (1), whatever a's shape
  (`Usage.MeanBackward`).
- **`Tensor_mul`.** It ignores the result of `cten_elemwise_broadcast`
  (src/operator.c:45), so mul itself never reports a shape error.
- **`Tensor_argmax`.** It replaces the running index only when a strictly
  larger value appears (src/operator.c:78), so among equal maxima the first
  index is kept.

## Model

| member | source | states |
|---|---|---|
| Shapes.Rank | src/basic.c:18-23 | the rank is in [0, 4]; every slot before it is non-zero, and the slot at it is zero when it is below 4 |
| Shapes.ShapeDim | src/basic.c:18-23 | the loop returns the index of the first zero slot, or 4 if there is none |
| Shapes.ShapeNumel | src/basic.c:9-16 | the loop computes the product of the slots before the first zero; the scalar shape gives the empty product 1 |
| Shapes.NumelPositive | src/basic.c:9-16 | a valid shape has at least one element, and a rank-0 shape has exactly one |
| Shapes.NumelNonZero | src/basic.c:9-16 | the element count is never zero, so the division in Tensor_mean (which uses it) is defined |
| Shapes.ProductPositive | src/basic.c:11-14 | a product of positive sizes is at least 1 |
| Shapes.ProductNonZero | src/basic.c:11-14 | a product of non-zero sizes is non-zero |
| Shapes.AsDim | src/basic.c:25-30 | succeeds exactly when -rank <= dim < rank; a negative dim gets the rank added; the result is in [0, rank); otherwise the error carries the adjusted dim |
| Shapes.RankOfValid | src/basic.c:18-23 | in a valid shape the rank is the number of leading positive slots |
| Shapes.NumelLast | src/basic.c:9-16 | the element count is the product of the leading dimensions times the last one |
| Tensors.FloatBuffer.constructor | src/basic.c:40-42 | a fresh buffer has one reference and numel equal to its length |
| Tensors.FloatBuffer.Over | src/basic.c:118 | the buffer after numel is lowered: the same element array and reference count, with the new element count |
| Tensors.GradNode.constructor | src/basic.c:44-45 | a new node with no grad and the given rule, inputs and depth; Tensor_new's zeroed node is the one with no rule and no inputs |
| Tensors.ValidNumel | src/basic.c:36-42 | a valid tensor holds at least one element, and its elements number Numel(shape) |
| Tensors.New | src/basic.c:36-50 | the shape is copied, the fresh buffer holds Numel(shape) elements with refcount 1, and a fresh empty node exists exactly when gradients are requested |
| Tensors.Zeros | src/basic.c:52-56 | as New, and every element is 0 |
| Tensors.Ones | src/basic.c:58-64 | as New, and every element is 1 |
| Tensors.Detach | src/basic.c:74-79 | same shape and same buffer with no node; the buffer's refcount rises by exactly one and nothing else changes |
| Tensors.Delete | src/basic.c:66-72 | the buffer's refcount drops by one, and the stored gradient's buffer drops by one more when set (two on the same buffer when they alias); only reference counts change |
| Tensors.DetachThenDelete | src/basic.c:66-79 | deleting a detached alias restores the original refcount, so the original's buffer is not freed |
| Operators.MaxDepth | src/operator.c:29-34 | the depth recorded for a new node is at least the depth of every operand |
| Operators.Record | src/operator.c:29-34 | the result's node gets the rule and the operands (n_inputs is their count) and keeps an empty grad |
| Operators.Add | src/operator.c:20-36 | equal shapes give a fresh result of that shape with result[k] = self[k] + other[k]; a node exists iff either operand has one, and it records [self, other] and the add rule; unequal shapes give BroadcastNotModelled |
| Operators.GradFnAdd | src/operator.c:9-13 | a node-less all-ones tensor shaped like input i |
| Operators.LiftScalar | src/operator.c:38-44 | a rank-0 operand takes the shape (1) and keeps its buffer and node; any other operand is unchanged |
| Operators.LiftScalarValid | src/operator.c:38-44 | the lifted operand is still valid, has the same elements and has rank at least 1 |
| Operators.Mul | src/operator.c:38-58 | after the rank-0 lift, equal shapes give result[k] = self[k] * other[k] in a fresh buffer of exactly that size; the node records the lifted operands and the mul rule; differing lifted shapes give BroadcastNotModelled |
| Operators.GradFnMul | src/operator.c:15-18 | the other input, detached: same shape and buffer, no node, refcount +1 |
| Operators.MulScalar | src/operator.c:60-68 | result[k] = self[k] * c; a node exists iff self has one, and it records the lifted self and a fresh node-less constant tensor |
| Operators.FirstMaxUnique | src/operator.c:73-80 | the first position of a maximum is unique, so argmax's result is determined |
| Operators.Argmax | src/operator.c:70-82 | an axis out of range gives the AsDim error; otherwise, with d = shape[dim], entry i (i < d) is the first j < d that maximises flex[j*d + i], with ties going to the earlier index |
| Operators.Mean | src/operator.c:93-106 | a fresh scalar-shaped result holding Total(self) / numel; a node exists iff self has one, and it records [self] and the mean rule |
| Operators.GradFnMean | src/operator.c:84-91 | a node-less tensor shaped like the owner, filled with 1 / owner.numel |
| Operators.MeanGradIsOne | src/operator.c:84-91 | for a mean result (scalar shape) that fill value is exactly 1 |
| Operators.Sum | src/operator.c:113-126 | a fresh scalar-shaped result holding Total(self); a node exists iff self has one, and it records [self] and the sum rule |
| Operators.GradFnSum | src/operator.c:108-111 | a node-less all-ones tensor shaped like input i |
| Operators.SumGradTotal | src/operator.c:108-111 | the all-ones gradient of sum adds up to the element count of the summed input |
| Operators.MatrixFits | src/operator.c:142-144 | the trailing m-by-n matrix of a valid shape of rank at least 2 fits inside its elements |
| Operators.MatMulShapeValid | src/operator.c:148-150 | replacing the last dimension by p keeps the shape valid and the rank unchanged, with rows m and columns p |
| Operators.DotAt | src/operator.c:155-158 | the inner loop's sum is the dot product of row i of self with column j of other |
| Operators.FillProduct | src/operator.c:153-161 | after the two outer loops every cell (i, j) of the m-by-p result holds that dot product |
| Operators.MatMul | src/operator.c:136-171 | rank below 2 gives RankBelowTwo and n != other's rows gives InnerDimMismatch; otherwise the result has self's shape with the last dimension p, and its first m*p elements are the matrix product of the first blocks; the node records [self, other] and the matmul rule |
| Operators.GradFnMatMul | src/operator.c:128-134 | inputs i and 1 - i are detached (refcount +1 each, +2 on a shared buffer) and multiplied in that order; the result is node-less and succeeds iff their dims agree in that order |
| Operators.GradFnPointwise | src/basic.c:104 | the add, sum, mul and mean rules, called through grad_fn, never fail and only raise reference counts |
| Operators.GradFnApply | src/basic.c:104 | the call through the grad_fn pointer, rule by rule: ones shaped like input i for add and sum, the detached other input for mul, the owner-shaped constant for mean, the detached product for matmul |
| ElementMath.TotalSnoc | src/operator.c:115-119 | appending an element adds it to the total |
| ElementMath.TotalConcat | src/operator.c:115-119 | the total of a concatenation is the sum of the totals |
| ElementMath.TotalConstant | src/operator.c:108-111 | n copies of c add up to n * c |
| ElementMath.TotalPointwise | src/operator.c:26-28 | summing an elementwise sum gives the sum of the two totals, so add followed by sum agrees with sum followed by add |
| ElementMath.RowSumsAt | src/basic.c:110-116 | entry i of the row sums is the sum of row i |
| ElementMath.RowSumsTotal | src/basic.c:110-116 | the row sums add up to the total of the first rows*L elements, so compaction loses nothing |
| ElementMath.RowStartAtLeast | src/basic.c:110-115 | i <= i*L for non-empty rows, so the write to position i never reaches an unread row |
| ElementMath.RowSumsOfWidthOne | src/basic.c:110-116 | with rows of length one the row sums are the elements themselves |
| ElementMath.DoneStep | src/operator.c:159 | writing cell (i, j) extends the finished prefix of the product by one cell and keeps the earlier cells |
| ElementMath.DotIdentity | src/operator.c:155-158 | a partial dot product against the identity picks out a[i][j] exactly when j lies in the range summed |
| ElementMath.MatMulByIdentity | src/operator.c:153-161 | a product with the identity on the right reproduces the left operand |
| Autograd.SoftmaxShapeFacts | src/basic.c:82-86 | the reshaped gradient shape is valid, has rank r + 1 and the same element count, and ends in the old last dimension |
| Autograd.SoftmaxPreprocess | src/basic.c:81-89 | the stored gradient with the reshaped shape, multiplied elementwise by the local gradient; it fails iff the local shape differs from the reshaped one |
| Autograd.RowTotal | src/basic.c:111-114 | the inner loop's sum is the total of the elements base .. base + L - 1 |
| Autograd.CompactRow | src/basic.c:110-115 | one pass writes the sum of row i to position i; positions below i keep the earlier row sums and positions from i + 1 on are still untouched |
| Autograd.CompactRows | src/basic.c:110-116 | after the loop, element i is the sum of product elements i*L .. i*L + L - 1 for every i below the row count, and the rest of the buffer is unchanged |
| Autograd.MismatchBranch | src/basic.c:106-119 | the branch succeeds iff the local shape is the reshaped stored shape and the last dimension is 1; then the result takes the stored gradient's shape and numel and holds the elementwise product; with that shape and a longer last dimension it fails with RowsPastProduct, since the rows read (numel times the last dimension) exceed the product's elements; with another shape it fails with BroadcastNotModelled |
| Autograd.Combine | src/basic.c:106-122 | the gradient handed to an input: through the mismatch branch or Tensor_mul, the elementwise product of the stored and the local gradient, with the shape each branch gives and failing exactly when that branch does, with that branch's error |
| Autograd.LocalGradient | src/basic.c:104 | the call through grad_fn read as values: it succeeds exactly when the rule can (only matmul's can fail), with the local shape of the rule and its per-rule elements: ones for add and sum, the other input's elements for mul, 1 / owner.numel for mean, the matrix product for matmul; reference counts only rise |
| Autograd.InputGradient | src/basic.c:104-122 | the local rule, then Combine; it succeeds exactly when both do, and then the result is valid, node-less and is what the input is handed: the stored gradient times the local gradient, element by element, in the shape Combine gives; reference counts only rise |
| Autograd.HandedByRule | src/basic.c:104-122 | rule by rule, what an input is handed: add and sum pass the stored gradient on unchanged, mul scales it by the other input's elements, mean divides it by the owner's element count; the shape is the stored one, lifted from rank 0 to (1) unless the rank-mismatch branch ran |
| Autograd.AttachKeepsInvariant | src/operator.c:29-34 | recording a fresh node over operands already in the graph keeps the graph closed, acyclic and well formed |
| Autograd.Accumulate | src/basic.c:98-102 | no stored gradient: the seed is stored; stored and equal shapes: the stored gradient becomes the elementwise sum (Received); unequal shapes give BroadcastNotModelled with nothing stored; the graph invariant holds after |
| Autograd.SeedGradient | src/basic.c:92-97 | without a seed, a one-element tensor gets the scalar 1 and any other gives NotScalar; a seed with a node gives SeedHasNode; otherwise the seed itself |
| Autograd.PropagateInput | src/basic.c:103-124 | one pass of the input loop: input i is handed the stored gradient times its local gradient exactly when the rule and Combine succeed, and a failure aborts; input i's node then receives it (stored when it had none, added elementwise otherwise) or the shapes differ and the walk aborts with BroadcastNotModelled; only input i's node and deeper nodes change, the graph invariant holds and reference counts only rise |
| Autograd.Deliver | src/basic.c:123 | the recursive call on input x with gradient d: x's node receives d, or the shapes differ and it aborts; a fresh leaf never aborts; on success x's own inputs are handed x's stored gradient times their local gradients and each isolated one's node receives it (Delivered); only x's node and deeper nodes change |
| Autograd.PropagateStep | src/basic.c:103-124 | one pass extends what the loop has delivered from inputs 0 .. i - 1 to input i, and cannot fail when backward goes one level deep |
| Autograd.Propagate | src/basic.c:103-125 | on success every input i was handed downs[i], the stored gradient times the local gradient locals[i], and the node of every isolated input received it on top of what it held before the loop; a one-level graph never aborts; the graph invariant holds, reference counts only rise and nothing at or above t's depth changes |
| Autograd.AccumulateAndPropagate | src/basic.c:98-125 | accumulation as in Accumulate, then on success every input is handed the accumulated gradient (not g alone) times its local gradient and every isolated input's node receives it; the root's accumulated gradient is the one left at the end |
| Autograd.Backward | src/basic.c:91-127 | no node: nothing changes; without a seed, a non-scalar tensor is refused (NotScalar) and a seed with a node is refused (SeedHasNode); the seed (a scalar 1 by default) is stored or added to the stored gradient; on success every input is handed the stored gradient times its local gradient and every isolated input's node receives it; one level deep it always succeeds; the graph invariant holds throughout |
| Usage.Leaf | src/basic.c:36-50 | a fresh leaf with a node and no gradient joins the graph and keeps the invariant |
| Usage.IsolatedLeafReceives | src/basic.c:98-102 | after backward, an isolated input whose node held no gradient holds exactly what it was handed |
| Usage.BuildAdd | src/operator.c:20-36 | add over two fresh leaves of one shape records a node over two distinct leaf nodes, keeps the graph invariant, and backward from it goes one level deep |
| Usage.AddBackward | src/basic.c:91-127 | add(a, b) then backward with seed s: the result's node holds s, and a and b each hold s itself (lifted to shape (1) when s is a scalar) |
| Usage.BuildMean | src/operator.c:93-106 | mean over a fresh leaf records a one-element node over it and keeps the graph invariant; backward from it goes one level deep |
| Usage.MeanHandsOne | src/operator.c:84-91 | the mean rule of a one-element owner turns a stored scalar 1 into the one-element [1.0] of shape (1) |
| Usage.MeanBackward | src/basic.c:91-127 | mean(a) then backward without a seed: the mean holds the scalar 1, and a holds the one-element [1.0] of shape (1), whatever a's shape |
| Autograd.WalkPreorder | src/basic.c:129-137 | the walk is empty iff t has no node; otherwise it starts with t, every later entry lies strictly below t, and every visited tensor has a node in the graph |
| Autograd.WalkFromBelow | src/basic.c:133-135 | everything the input loop visits has a node in the graph no deeper than the owner |
| Autograd.BackwardApply | src/basic.c:129-137 | the count is the length of the pre-order walk (0 without a node, else 1 plus the inputs' counts), and the visitor receives exactly that walk in order when one is given |

Proof helpers without a row: `ElementMath.RowIndexBound`, `RowFits`,
`PrefixRowsFit`, `NextRow`, `CellBefore`, `ScaleAtLeast`, `DoneRow` and
`DoneAll` are index arithmetic for the matmul and row-compaction loops,
and `RowsFitWidthOne` bounds the rows the compaction reads;
`Autograd.RuleGivesLocal`, `DeliveredStart`, `DeliveredNext`,
`OneLevelStart`, `StepDelivered`, `StepKeeps`, `GrowthKeeps`,
`AccumulateKeeps`, `ViewKept`, `ViewsKept`, `StoredKept`, `GradKept`,
`ElementsUnchanged` and `RefcountsKeepGrads` carry the backward proofs
across calls; `Autograd.HandDown` is the recursive call as one pass of the
input loop makes it, stating what input i's own node receives;
`Autograd.WalkFromStep` unfolds the walk over a node's inputs by one; `Usage.AddOfLeavesOneLevel` is the one-level fact for the add
client.

## Left out

- `Tensor_print` and `TensorShape_tostring` are left out: they only format text through stdio and `snprintf`.
- IEEE single-precision behaviour is left out: rounding, NaN and `1.0f / numel` become exact `real` arithmetic.
- C `int` overflow is left out: of element counts, of products of dimensions and of the count returned by `Tensor_backward_apply`. Integers are unbounded.
- `cten_elemwise_broadcast`, `cten_assert` and `cten_assert_shape` are not part of this model, because their definitions lie outside the modelled files.
- Add: operands of equal shape are added; for unequal shapes the broadcasting verdict is not modelled, and the result is the error BroadcastNotModelled.
- Mul: the same holds after the rank-0 lift. Scalar stretching and the one-dimension-shorter case are not modelled.
- Backward: through a sum, the input's local gradient is shaped like the input and the stored gradient is a scalar, so Combine succeeds only for an input of shape (1) or of rank 0, which both lift to (1); other inputs need broadcasting and are reported as BroadcastNotModelled, not computed. Through a mean no broadcasting arises: GradFn_mean is owner-shaped, both scalars lift to (1), and the input receives the one-element [1.0] of shape (1), not a gradient shaped like itself (Usage.MeanBackward).
- MismatchBranch: when the local gradient has exactly the reshaped stored shape, no broadcasting is involved and the product holds only numel(h) elements, as many as the stored gradient h. The row sums read rows of length L, h's last dimension, so for L > 1 the source reads `flex[i*L + j]` up to index numel(h)*L - 1, past the product's end (stored shape (2,3) and local shape (2,1,3): indices up to 17 of 6 elements). The model reports that case as RowsPastProduct instead of reading. When the local shape differs from the reshaped one, the external broadcasting routine decides the product's size, and the model reports BroadcastNotModelled.
- Argmax: requires d*d <= numel for d = shape[dim]. The source reads `flex[j*d + i]` for all i, j < d and reads out of bounds on smaller buffers.
- MatMul: the batch dimensions in front of the last two are not multiplied. Like the source, the result only fills its first m*p elements, and the rest are unspecified.
- GradFnMatMul: follows the code's order `matmul(detach(inputs[i]), detach(inputs[1-i]))`. For i = 1 this needs other's columns to equal self's rows, and the model reports InnerDimMismatch otherwise.
- Delete: freeing memory is modelled as the reference count reaching zero (`Freed`). Freeing the node itself is not modelled.
- Delete: requires every reference it drops to be held. A double delete is a use-after-free in the source.
- The leaks left by the commented-out deletes (src/basic.c:126, src/operator.c:66) are not modelled. No reference count is ever lowered by an operator.
- The rank-4 write of `_softmax_preprosess` (`shape[4]`) cannot occur in the model. The mismatch branch is taken only when the local gradient's rank is one above the stored rank, so the stored rank is at most 3.
- Backward: an error (a failed assert in the source) stops the walk with an `Aborted` status. Gradients already accumulated in deeper nodes stay; the source would have ended the process.
- Backward: what an input's node receives is stated only for isolated inputs (no other input of the same node shares that node or lies deeper). A node reached along several paths receives one delivery per path, and each visit re-propagates the node's whole accumulated gradient, since src/basic.c:104-122 multiplies `self.node->grad` and not the incoming gradient: with c = add(m, m) and m = mul(a, b), a ends with 3·b, not 2·b. Stating that needs a count of deliveries per path over the whole graph, which the contracts do not carry.
- Deliver: states what isolated inputs' nodes receive, not shared or deeper nodes, for the reason given under Backward.
- Propagate: states what isolated inputs' nodes receive, not shared or deeper nodes, for the reason given under Backward.
- AccumulateAndPropagate: states what isolated inputs' nodes receive, not shared or deeper nodes, for the reason given under Backward.
- PropagateInput: states what input i's own node receives, not the nodes below it that the recursive call also changes.
- Backward: the graph G and the buffer set B are ghost parameters that describe the reachable part of the heap.
- BackwardApply: the visitor `f` and its context are modelled as a flag saying whether a visitor was given, plus the sequence of tensors it receives. The visitor's own side effects are not modelled.
- Function-pointer dispatch is modelled by the `GradFn` enumeration and a match.
