/** The data model of src/basic.c: reference-counted float buffers, gradient
    nodes, tensors as values, and the tensor lifecycle (Tensor_new,
    Tensor_zeros, Tensor_ones, Tensor_detach, Tensor_delete). */
module Tensors {
  import opened Outcomes
  import opened Shapes

  /** FloatBuffer: a reference count, an element count, and the flexible
      array of elements. Only the count of references changes in place. The
      rank-mismatch branch of backward lowers `numel` of a buffer it has
      just allocated; the model gives that buffer a second header, Over,
      with the lowered count over the same array. */
  class FloatBuffer {
    var refcount: int
    const numel: int
    const flex: array<real>

    constructor (n: nat)
      ensures refcount == 1 && numel == n
      ensures flex.Length == n && fresh(flex)
    {
      refcount := 1;
      numel := n;
      flex := new real[n];
    }

    /** A buffer holding the first n elements of flex, with the given count
        of references. */
    constructor Over(flex: array<real>, n: int, refcount: int)
      ensures this.refcount == refcount && numel == n && this.flex == flex
    {
      this.refcount := refcount;
      numel := n;
      this.flex := flex;
    }
  }

  /** The gradient rule a node applies; `NoGradFn` is the zeroed pointer of a
      freshly allocated node. */
  datatype GradFn = NoGradFn | AddGrad | MulGrad | SumGrad | MeanGrad | MatMulGrad

  /** How many inputs an operator records along with each rule. */
  function Arity(fn: GradFn): nat {
    match fn
    case NoGradFn => 0
    case SumGrad | MeanGrad => 1
    case AddGrad | MulGrad | MatMulGrad => 2
  }

  /** GradNode: the stored gradient (absent while `grad.data` is NULL), the
      recorded operands (`n_inputs` is their number) and the gradient rule.
      `depth` is proof bookkeeping: a node is deeper than the nodes of its
      inputs, which is how the acyclic graph shows up in the model. */
  class GradNode {
    var grad: Option<Tensor>
    const inputs: seq<Tensor>
    const gradFn: GradFn
    ghost const depth: nat

    constructor (fn: GradFn, inputs: seq<Tensor>, ghost depth: nat)
      ensures grad == None && this.inputs == inputs && gradFn == fn && this.depth == depth
    {
      grad := None;
      this.inputs := inputs;
      gradFn := fn;
      this.depth := depth;
    }
  }

  /** A tensor value: its own copy of the shape, a shared buffer and an
      optional node. Copies of a tensor share buffer and node. */
  datatype Tensor = Tensor(shape: Shape, data: FloatBuffer, node: GradNode?)

  /** The buffer agrees with the shape and holds that many elements. */
  ghost predicate Valid(t: Tensor)
  {
    && ValidShape(t.shape)
    && t.data.numel == Numel(t.shape)
    && 0 < t.data.numel <= t.data.flex.Length
  }

  /** The elements of a tensor, `flex[0 .. numel)`. */
  ghost function Values(t: Tensor): (v: seq<real>)
    reads t.data.flex
    requires 0 <= t.data.numel <= t.data.flex.Length
    ensures |v| == t.data.numel
  {
    t.data.flex[..t.data.numel]
  }

  /** Proof measure: one more than the depth of the node, 0 without one. */
  ghost function Depth(t: Tensor): nat
  {
    if t.node == null then 0 else t.node.depth + 1
  }

  lemma ValidNumel(t: Tensor)
    requires Valid(t)
    ensures t.data.numel >= 1 && |Values(t)| == Numel(t.shape)
  {
    NumelPositive(t.shape);
  }

  /** Tensor_new: copy the shape, allocate a buffer of Numel(shape) elements
      with one reference, and a zeroed node exactly when gradients are
      requested. The elements themselves are left unspecified (malloc). */
  method New(shape: Shape, requiresGrad: bool) returns (t: Tensor)
    requires ValidShape(shape)
    ensures t.shape == shape && Valid(t)
    ensures fresh(t.data) && fresh(t.data.flex)
    ensures t.data.refcount == 1 && t.data.flex.Length == Numel(shape)
    ensures (t.node != null) == requiresGrad
    ensures t.node != null ==>
              && fresh(t.node) && t.node.depth == 0
              && t.node.grad == None && t.node.inputs == [] && t.node.gradFn == NoGradFn
  {
    NumelPositive(shape);
    var numel := ShapeNumel(shape);
    var data := new FloatBuffer(numel);
    var node: GradNode? := null;
    if requiresGrad {
      node := new GradNode(NoGradFn, [], 0);
    }
    t := Tensor(shape, data, node);
  }

  /** Tensor_zeros: Tensor_new, then every element set to 0 (memset). */
  method Zeros(shape: Shape, requiresGrad: bool) returns (t: Tensor)
    requires ValidShape(shape)
    ensures t.shape == shape && Valid(t)
    ensures fresh(t.data) && fresh(t.data.flex) && t.data.refcount == 1
    ensures (t.node != null) == requiresGrad
    ensures t.node != null ==>
              && fresh(t.node)
              && t.node.grad == None && t.node.inputs == [] && t.node.gradFn == NoGradFn
    ensures forall k :: 0 <= k < |Values(t)| ==> Values(t)[k] == 0.0
  {
    t := New(shape, requiresGrad);
    forall k | 0 <= k < t.data.flex.Length {
      t.data.flex[k] := 0.0;
    }
  }

  /** Tensor_ones: Tensor_new, then a loop setting every element to 1. */
  method Ones(shape: Shape, requiresGrad: bool) returns (t: Tensor)
    requires ValidShape(shape)
    ensures t.shape == shape && Valid(t)
    ensures fresh(t.data) && fresh(t.data.flex) && t.data.refcount == 1
    ensures (t.node != null) == requiresGrad
    ensures t.node != null ==>
              && fresh(t.node)
              && t.node.grad == None && t.node.inputs == [] && t.node.gradFn == NoGradFn
    ensures forall k :: 0 <= k < |Values(t)| ==> Values(t)[k] == 1.0
  {
    t := New(shape, requiresGrad);
    var i := 0;
    while i < t.data.numel
      modifies t.data.flex
      invariant 0 <= i <= t.data.numel
      invariant forall k :: 0 <= k < i ==> t.data.flex[k] == 1.0
    {
      t.data.flex[i] := 1.0;
      i := i + 1;
    }
  }

  /** Tensor_detach: the same shape and buffer without a node; the buffer
      gains one reference and nothing else changes. */
  method Detach(t: Tensor) returns (d: Tensor)
    modifies t.data`refcount
    ensures d == Tensor(t.shape, t.data, null)
    ensures t.data.refcount == old(t.data.refcount) + 1
  {
    d := t.(node := null);
    d.data.refcount := d.data.refcount + 1;
  }

  /** The buffers of a node's recorded inputs. */
  ghost function InputBuffers(n: GradNode): set<FloatBuffer>
  {
    set k | 0 <= k < |n.inputs| :: n.inputs[k].data
  }

  /** The element arrays of a node's recorded inputs. */
  ghost function InputArrays(n: GradNode): set<array<real>>
  {
    set k | 0 <= k < |n.inputs| :: n.inputs[k].data.flex
  }

  /** The gradient a node stores, if any (the tensor deleted along with it). */
  function StoredGrad(t: Tensor): Option<Tensor>
    reads t.node
  {
    if t.node == null then None else t.node.grad
  }

  /** A buffer is released exactly when its count has dropped to zero. */
  ghost predicate Freed(b: FloatBuffer)
    reads b
  {
    b.refcount == 0
  }

  /** Tensor_delete: drop one reference to the buffer (it is freed when the
      count reaches zero), then delete the node's stored gradient, if any,
      the same way. Every reference dropped must be held: deleting a tensor
      whose buffer is already freed is the caller's error in the source. A
      stored gradient never carries a node (backward rejects such seeds), so
      the recursion is one level deep. Freeing the node itself is memory
      management and has no counterpart here. */
  method Delete(t: Tensor)
    requires t.data.refcount >= 1
    requires StoredGrad(t).Some? ==> StoredGrad(t).value.node == null
    requires StoredGrad(t).Some? ==>
               StoredGrad(t).value.data.refcount >= (if StoredGrad(t).value.data == t.data then 2 else 1)
    modifies t.data`refcount
    modifies if StoredGrad(t).Some? then {StoredGrad(t).value.data} else {}
    ensures StoredGrad(t) == old(StoredGrad(t))
    ensures StoredGrad(t).None? ==> t.data.refcount == old(t.data.refcount) - 1
    ensures StoredGrad(t).Some? ==>
              var g := StoredGrad(t).value.data;
              if g == t.data then t.data.refcount == old(t.data.refcount) - 2
              else t.data.refcount == old(t.data.refcount) - 1 && g.refcount == old(g.refcount) - 1
    ensures StoredGrad(t).Some? ==> StoredGrad(t).value.data.numel == old(StoredGrad(t).value.data.numel)
    decreases if t.node == null then 0 else 1
  {
    t.data.refcount := t.data.refcount - 1;
    if t.node != null {
      if t.node.grad.Some? {
        Delete(t.node.grad.value);
      }
    }
  }

  /** Deleting a detached alias hands back exactly the reference the detach
      took, so the original's buffer stays live. */
  method DetachThenDelete(t: Tensor)
    requires t.data.refcount >= 1
    modifies t.data`refcount
    ensures t.data.refcount == old(t.data.refcount) && !Freed(t.data)
  {
    var d := Detach(t);
    Delete(d);
  }
}
