/** The operators of src/operator.c. Each allocates a fresh result, fills it
    in a loop and, when an operand has a node, attaches a node recording the
    operands and the gradient rule. */
module Operators {
  import opened Outcomes
  import opened Shapes
  import opened ElementMath
  import opened Tensors

  function Max(a: nat, b: nat): nat {
    if a < b then b else a
  }

  /** The deepest of the operands' depths. */
  ghost function MaxDepth(ts: seq<Tensor>): (d: nat)
    ensures forall k :: 0 <= k < |ts| ==> Depth(ts[k]) <= d
  {
    if ts == [] then 0 else Max(Depth(ts[0]), MaxDepth(ts[1..]))
  }

  /** The node an operator attaches to its result: fresh, no gradient yet,
      the given operands and rule, and deeper than every operand's node. */
  ghost predicate AttachedNode(res: Tensor, inputs: seq<Tensor>, fn: GradFn)
    reads res.node
  {
    && res.node != null
    && res.node.grad == None
    && res.node.inputs == inputs
    && res.node.gradFn == fn
    && forall k :: 0 <= k < |inputs| ==> Depth(inputs[k]) <= res.node.depth
  }

  /** What every operator does to the node Tensor_new gave its result:
      record the rule and the operands (n_inputs is their number). The
      model builds that node complete, rule and operands included, in place
      of the empty one, which nothing refers to yet. */
  method Record(res: Tensor, fn: GradFn, inputs: seq<Tensor>) returns (r: Tensor)
    ensures r.shape == res.shape && r.data == res.data
    ensures fresh(r.node) && AttachedNode(r, inputs, fn)
  {
    var node := new GradNode(fn, inputs, MaxDepth(inputs));
    r := res.(node := node);
  }

  // ---------------------------------------------------------------- add

  /** Tensor_add. Equal shapes need no broadcasting and the elements are
      added pairwise; for unequal shapes the external broadcasting routine
      decides, which the model reports as BroadcastNotModelled. */
  method Add(self: Tensor, other: Tensor) returns (r: Result<Tensor>)
    requires Valid(self) && Valid(other)
    ensures r.Fail? <==> self.shape != other.shape
    ensures r.Fail? ==> r.error == BroadcastNotModelled
    ensures r.Ok? ==>
              var res := r.value;
              && res.shape == self.shape && Valid(res)
              && fresh(res.data) && fresh(res.data.flex) && res.data.refcount == 1
              && |Values(res)| == |Values(self)| == |Values(other)|
              && (forall k :: 0 <= k < |Values(res)| ==> Values(res)[k] == Values(self)[k] + Values(other)[k])
              && ((res.node != null) == (self.node != null || other.node != null))
              && (res.node != null ==> fresh(res.node) && AttachedNode(res, [self, other], AddGrad))
  {
    if self.shape != other.shape {
      return Fail(BroadcastNotModelled);
    }
    var requireGrad := self.node != null || other.node != null;
    var res := New(self.shape, requireGrad);
    for i := 0 to self.data.numel
      modifies res.data.flex
      invariant forall k :: 0 <= k < i ==> res.data.flex[k] == self.data.flex[k] + other.data.flex[k]
    {
      res.data.flex[i] := self.data.flex[i] + other.data.flex[i];
    }
    if requireGrad {
      res := Record(res, AddGrad, [self, other]);
    }
    return Ok(res);
  }

  /** GradFn_add: d(x + y)/dx = d(x + y)/dy = 1, as a node-less all-ones
      tensor shaped like input i. */
  method GradFnAdd(self: Tensor, i: nat) returns (g: Tensor)
    requires self.node != null && i < |self.node.inputs| && ValidShape(self.node.inputs[i].shape)
    ensures g.shape == self.node.inputs[i].shape && g.node == null && Valid(g)
    ensures fresh(g.data) && fresh(g.data.flex)
    ensures forall k :: 0 <= k < |Values(g)| ==> Values(g)[k] == 1.0
  {
    var input := self.node.inputs[i];
    g := Ones(input.shape, false);
  }

  // ---------------------------------------------------------------- mul

  /** Tensor_mul first gives a rank-0 operand the shape (1). */
  function LiftScalar(t: Tensor): (u: Tensor)
    ensures u.data == t.data && u.node == t.node
    ensures Rank(t.shape) == 0 && ValidShape(t.shape) ==> u.shape == [1, 0, 0, 0]
    ensures Rank(t.shape) != 0 ==> u == t
  {
    if Rank(t.shape) == 0 then t.(shape := t.shape[0 := 1]) else t
  }

  /** Lifting a scalar to shape (1) keeps it valid: both shapes have one element. */
  lemma LiftScalarValid(t: Tensor)
    requires Valid(t)
    ensures Valid(LiftScalar(t)) && Values(LiftScalar(t)) == Values(t)
    ensures Rank(LiftScalar(t).shape) >= 1
  {
    var u := LiftScalar(t);
    if Rank(t.shape) == 0 {
      assert u.shape == [1, 0, 0, 0];
      assert Rank(u.shape) == 1;
      assert u.shape[..1] == [1];
      assert Numel(u.shape) == 1;
      NumelPositive(t.shape);
    }
  }

  /** Tensor_mul: after the rank-0 lift, equal shapes are multiplied
      pairwise and the lifted operands are recorded. The source ignores the
      broadcasting verdict; when the lifted shapes differ the external
      routine decides the product, which the model reports as BroadcastNotModelled. */
  method Mul(self: Tensor, other: Tensor) returns (r: Result<Tensor>)
    requires Valid(self) && Valid(other)
    ensures r.Fail? <==> LiftScalar(self).shape != LiftScalar(other).shape
    ensures r.Fail? ==> r.error == BroadcastNotModelled
    ensures r.Ok? ==>
              var res := r.value;
              && res.shape == LiftScalar(self).shape && Valid(res)
              && fresh(res.data) && fresh(res.data.flex) && res.data.refcount == 1
              && res.data.flex.Length == res.data.numel
              && |Values(res)| == |Values(self)| == |Values(other)|
              && (forall k :: 0 <= k < |Values(res)| ==> Values(res)[k] == Times(Values(self)[k], Values(other)[k]))
              && ((res.node != null) == (self.node != null || other.node != null))
              && (res.node != null ==>
                    fresh(res.node) && AttachedNode(res, [LiftScalar(self), LiftScalar(other)], MulGrad))
  {
    LiftScalarValid(self);
    LiftScalarValid(other);
    var a := LiftScalar(self);
    var b := LiftScalar(other);
    if a.shape != b.shape {
      return Fail(BroadcastNotModelled);
    }
    var requireGrad := a.node != null || b.node != null;
    var res := New(a.shape, requireGrad);
    for i := 0 to a.data.numel
      modifies res.data.flex
      invariant forall k :: 0 <= k < i ==> res.data.flex[k] == Times(a.data.flex[k], b.data.flex[k])
    {
      res.data.flex[i] := Times(a.data.flex[i], b.data.flex[i]);
    }
    if requireGrad {
      res := Record(res, MulGrad, [a, b]);
    }
    assert a.data == self.data && b.data == other.data;
    return Ok(res);
  }

  /** GradFn_mul: d(x * y)/dx = y, d(x * y)/dy = x, as a detached alias of
      the other input. */
  method GradFnMul(self: Tensor, i: nat) returns (g: Tensor)
    requires self.node != null && |self.node.inputs| == 2 && i < 2
    modifies self.node.inputs[1 - i].data`refcount
    ensures g == Tensor(self.node.inputs[1 - i].shape, self.node.inputs[1 - i].data, null)
    ensures g.data.refcount == old(g.data.refcount) + 1
  {
    g := Detach(self.node.inputs[1 - i]);
  }

  /** Tensor_mulf: multiply by a constant through Tensor_mul with a
      node-less tensor of the same shape filled with the constant. That
      tensor is never deleted and stays recorded as the second input. */
  method MulScalar(self: Tensor, c: real) returns (res: Tensor)
    requires Valid(self)
    ensures res.shape == LiftScalar(self).shape && Valid(res) && fresh(res.data)
    ensures |Values(res)| == |Values(self)|
    ensures forall k :: 0 <= k < |Values(res)| ==> Values(res)[k] == Values(self)[k] * c
    ensures (res.node != null) == (self.node != null)
    ensures fresh(res.data.flex) && res.data.refcount == 1
    ensures res.node != null ==>
              && fresh(res.node) && res.node.grad == None && res.node.gradFn == MulGrad
              && |res.node.inputs| == 2 && res.node.inputs[0] == LiftScalar(self)
              && Depth(self) <= res.node.depth
              && var constant := res.node.inputs[1];
              && constant.node == null && fresh(constant.data) && Valid(constant)
              && constant.shape == LiftScalar(self).shape
              && forall k :: 0 <= k < |Values(constant)| ==> Values(constant)[k] == c
  {
    var tmp := New(self.shape, false);
    for i := 0 to tmp.data.numel
      modifies tmp.data.flex
      invariant forall k :: 0 <= k < i ==> tmp.data.flex[k] == c
    {
      tmp.data.flex[i] := c;
    }
    var r := Mul(self, tmp);
    res := r.value;
  }

  // ---------------------------------------------------------------- argmax

  /** Column `col` of v read as rows of stride d: the entries
      v[k * d + col] for k < d. */
  ghost function Column(v: seq<real>, d: nat, col: nat): (c: seq<real>)
    requires d * d <= |v| && col < d
    ensures |c| == d
  {
    seq(d, k requires 0 <= k < d => (RowIndexBound(k, d, d, col); v[k * d + col]))
  }

  /** j is the first position of the maximum of c: no entry exceeds c[j] and
      every earlier entry is strictly smaller. */
  ghost predicate IsFirstMax(c: seq<real>, j: int) {
    && 0 <= j < |c|
    && (forall k :: 0 <= k < |c| ==> c[k] <= c[j])
    && (forall k :: 0 <= k < j ==> c[k] < c[j])
  }

  /** There is only one first maximum, so the result of argmax is determined. */
  lemma FirstMaxUnique(c: seq<real>, j1: int, j2: int)
    requires IsFirstMax(c, j1) && IsFirstMax(c, j2)
    ensures j1 == j2
  {
    assert c[j1] == c[j2];
  }

  /** Tensor_argmax. The dim is normalised by TensorShape_asdim; with
      d = shape[dim], entry i of the result (i < d) is the first j < d
      maximising flex[j * d + i]. Those reads stay inside the buffer only
      when it holds d * d elements, which the caller has to ensure. */
  method Argmax(self: Tensor, dim: int) returns (r: Result<seq<int>>)
    requires Valid(self)
    requires AsDim(self.shape, dim).Ok? ==>
               self.shape[AsDim(self.shape, dim).value] * self.shape[AsDim(self.shape, dim).value] <= self.data.numel
    ensures AsDim(self.shape, dim).Fail? ==> r == Fail(AsDim(self.shape, dim).error)
    ensures AsDim(self.shape, dim).Ok? ==>
              && r.Ok?
              && var d := self.shape[AsDim(self.shape, dim).value];
              && d >= 0 && |r.value| == d
              && forall i :: 0 <= i < d ==> IsFirstMax(Column(Values(self), d, i), r.value[i])
  {
    var normalised := AsDim(self.shape, dim);
    if normalised.Fail? {
      return Fail(normalised.error);
    }
    var d := self.shape[normalised.value];
    ghost var v := Values(self);
    var res := new int[d];
    for i := 0 to d
      invariant forall i' :: 0 <= i' < i ==> IsFirstMax(Column(v, d, i'), res[i'])
    {
      ghost var c := Column(v, d, i);
      var best := 0;
      for j := 0 to d
        modifies {}
        invariant 0 <= best < d && (best == 0 || best < j)
        invariant forall k :: 0 <= k < j ==> c[k] <= c[best]
        invariant forall k :: 0 <= k < best ==> c[k] < c[best]
      {
        RowIndexBound(best, d, d, i);
        RowIndexBound(j, d, d, i);
        var x0 := self.data.flex[best * d + i];
        var x1 := self.data.flex[j * d + i];
        assert x0 == c[best] && x1 == c[j];
        if x0 < x1 {
          best := j;
        }
      }
      res[i] := best;
    }
    return Ok(res[..]);
  }

  // ---------------------------------------------------------------- mean, sum

  /** Tensor_mean: a scalar-shaped result holding the sum of the elements
      divided by their number. */
  method Mean(self: Tensor) returns (res: Tensor)
    requires Valid(self)
    ensures res.shape == ScalarShape && Valid(res)
    ensures fresh(res.data) && fresh(res.data.flex) && res.data.refcount == 1
    ensures Values(res) == [Total(Values(self)) / (self.data.numel as real)]
    ensures (res.node != null) == (self.node != null)
    ensures res.node != null ==> fresh(res.node) && AttachedNode(res, [self], MeanGrad)
  {
    res := New(ScalarShape, self.node != null);
    assert ScalarShape[..Rank(ScalarShape)] == [];
    var sum := 0.0;
    for i := 0 to self.data.numel
      modifies {}
      invariant sum == Total(self.data.flex[..i])
    {
      assert self.data.flex[..i + 1] == self.data.flex[..i] + [self.data.flex[i]];
      TotalSnoc(self.data.flex[..i], self.data.flex[i]);
      sum := sum + self.data.flex[i];
    }
    NumelNonZero(self.shape);
    res.data.flex[0] := sum / (self.data.numel as real);
    if res.node != null {
      res := Record(res, MeanGrad, [self]);
    }
  }

  /** GradFn_mean. The source fills a tensor shaped like the owner `self`
      (the mean's scalar result), not like the input, with 1 / the owner's
      element count, which for a mean result is 1. */
  method GradFnMean(self: Tensor, i: nat) returns (g: Tensor)
    requires Valid(self)
    ensures g.shape == self.shape && g.node == null && Valid(g)
    ensures fresh(g.data) && fresh(g.data.flex)
    ensures forall k :: 0 <= k < |Values(g)| ==> Values(g)[k] == 1.0 / (self.data.numel as real)
  {
    g := New(self.shape, false);
    for k := 0 to g.data.numel
      modifies g.data.flex
      invariant forall k' :: 0 <= k' < k ==> g.data.flex[k'] == 1.0 / (self.data.numel as real)
    {
      g.data.flex[k] := 1.0 / (self.data.numel as real);
    }
  }

  /** The gradient rule of a mean result is the constant 1, whatever the
      size of the averaged tensor: the owner is scalar-shaped. */
  lemma MeanGradIsOne(owner: Tensor)
    requires Valid(owner) && owner.shape == ScalarShape
    ensures owner.data.numel == 1 && 1.0 / (owner.data.numel as real) == 1.0
  {
    assert ScalarShape[..Rank(ScalarShape)] == [];
  }

  /** Tensor_sum: a scalar-shaped result holding the sum of the elements. */
  method Sum(self: Tensor) returns (res: Tensor)
    requires Valid(self)
    ensures res.shape == ScalarShape && Valid(res)
    ensures fresh(res.data) && fresh(res.data.flex) && res.data.refcount == 1
    ensures Values(res) == [Total(Values(self))]
    ensures (res.node != null) == (self.node != null)
    ensures res.node != null ==> fresh(res.node) && AttachedNode(res, [self], SumGrad)
  {
    res := New(ScalarShape, self.node != null);
    assert ScalarShape[..Rank(ScalarShape)] == [];
    var sum := 0.0;
    for i := 0 to self.data.numel
      modifies {}
      invariant sum == Total(self.data.flex[..i])
    {
      assert self.data.flex[..i + 1] == self.data.flex[..i] + [self.data.flex[i]];
      TotalSnoc(self.data.flex[..i], self.data.flex[i]);
      sum := sum + self.data.flex[i];
    }
    res.data.flex[0] := sum;
    if res.node != null {
      res := Record(res, SumGrad, [self]);
    }
  }

  /** GradFn_sum: d(sum x)/dx = 1, as a node-less all-ones tensor shaped
      like input i. */
  method GradFnSum(self: Tensor, i: nat) returns (g: Tensor)
    requires self.node != null && i < |self.node.inputs| && ValidShape(self.node.inputs[i].shape)
    ensures g.shape == self.node.inputs[i].shape && g.node == null && Valid(g)
    ensures fresh(g.data) && fresh(g.data.flex)
    ensures forall k :: 0 <= k < |Values(g)| ==> Values(g)[k] == 1.0
    ensures Total(Values(g)) == Numel(self.node.inputs[i].shape) as real
  {
    g := Ones(self.node.inputs[i].shape, false);
    SumGradTotal(g);
  }

  /** The all-ones gradient of sum adds up to the element count of the
      summed input. */
  lemma SumGradTotal(g: Tensor)
    requires Valid(g)
    requires forall k :: 0 <= k < |Values(g)| ==> Values(g)[k] == 1.0
    ensures Total(Values(g)) == Numel(g.shape) as real
  {
    TotalConstant(Values(g), 1.0);
  }

  // ---------------------------------------------------------------- matmul

  /** Second-to-last and last dimension of a shape. */
  function Rows(s: Shape): int
    requires Rank(s) >= 2
  {
    s[Rank(s) - 2]
  }

  function Cols(s: Shape): int
    requires Rank(s) >= 1
  {
    s[Rank(s) - 1]
  }

  /** The shapes Tensor_matmul accepts: rank at least 2 on both sides and
      matching inner dimensions. */
  predicate MatMulDims(a: Shape, b: Shape) {
    Rank(a) >= 2 && Rank(b) >= 2 && Cols(a) == Rows(b)
  }

  /** The result shape: a's shape with its last dimension replaced by b's. */
  function MatMulShape(a: Shape, b: Shape): Shape
    requires Rank(a) >= 1 && Rank(b) >= 1
  {
    a[Rank(a) - 1 := Cols(b)]
  }

  /** The trailing matrix of a valid shape fits inside its elements. */
  lemma MatrixFits(s: Shape)
    requires ValidShape(s) && Rank(s) >= 2
    ensures Rows(s) >= 1 && Cols(s) >= 1 && Rows(s) * Cols(s) <= Numel(s)
  {
    var r := Rank(s);
    var a, b := s[r - 2], s[r - 1];
    NumelLast(s);
    var front := s[..r - 1];
    assert front[..|front| - 1] == s[..r - 2];
    var pre := Product(s[..r - 2]);
    ProductPositive(s[..r - 2]);
    assert Product(front) == pre * a;
    ScaleAtLeast(pre, a, b);
  }

  /** Replacing the last dimension keeps the rank and yields an m-by-p
      trailing matrix. */
  lemma MatMulShapeValid(a: Shape, b: Shape)
    requires ValidShape(a) && ValidShape(b) && Rank(a) >= 2 && Rank(b) >= 1
    ensures ValidShape(MatMulShape(a, b)) && Rank(MatMulShape(a, b)) == Rank(a)
    ensures Rows(MatMulShape(a, b)) == Rows(a) && Cols(MatMulShape(a, b)) == Cols(b)
  {
    var c := MatMulShape(a, b);
    RankOfValid(c, Rank(a));
  }

  /** The inner loop of Tensor_matmul: the dot product of row i of the
      n-column matrix held in x with column j of the p-column matrix held
      in y. */
  method DotAt(x: array<real>, y: array<real>, ghost a: seq<real>, ghost b: seq<real>,
               n: nat, p: nat, i: nat, j: nat) returns (sum: real)
    requires (i + 1) * n <= |a| <= x.Length && a == x[..|a|]
    requires n * p <= |b| <= y.Length && b == y[..|b|]
    requires j < p
    ensures sum == Dot(a, b, n, p, i, j, n)
  {
    sum := 0.0;
    for k := 0 to n
      invariant sum == Dot(a, b, n, p, i, j, k)
    {
      RowIndexBound(k, n, p, j);
      assert i * n + k < (i + 1) * n;
      sum := sum + Times(x[i * n + k], y[k * p + j]);
    }
  }

  /** The two outer loops of Tensor_matmul: cell (i, j) of the m-by-p
      result c receives the dot product of row i of x with column j of y. */
  method FillProduct(c: array<real>, x: array<real>, y: array<real>,
                     ghost a: seq<real>, ghost b: seq<real>, m: nat, n: nat, p: nat)
    requires c != x && c != y
    requires m * p <= c.Length
    requires m * n <= |a| <= x.Length && a == x[..|a|]
    requires n * p <= |b| <= y.Length && b == y[..|b|]
    modifies c
    ensures IsMatMulOf(c[..], a, b, m, n, p)
  {
    for i := 0 to m
      invariant DoneUpTo(c[..], a, b, m, n, p, i, 0)
    {
      for j := 0 to p
        invariant DoneUpTo(c[..], a, b, m, n, p, i, j)
      {
        RowFits(i, m, n);
        var sum := DotAt(x, y, a, b, n, p, i, j);
        RowIndexBound(i, m, p, j);
        DoneStep(c[..], a, b, m, n, p, i, j, sum);
        c[i * p + j] := sum;
      }
      DoneRow(c[..], a, b, m, n, p, i);
    }
    DoneAll(c[..], a, b, m, n, p);
  }

  /** Tensor_matmul. Both ranks must be at least 2 and the inner dimensions
      must agree; the result has a's shape with the last dimension set to p,
      and its first m * p elements hold the product of the first m-by-n
      block of self with the first n-by-p block of other. */
  method MatMul(self: Tensor, other: Tensor) returns (r: Result<Tensor>)
    requires Valid(self) && Valid(other)
    ensures (Rank(self.shape) < 2 || Rank(other.shape) < 2) ==> r == Fail(RankBelowTwo)
    ensures Rank(self.shape) >= 2 && Rank(other.shape) >= 2 && Cols(self.shape) != Rows(other.shape) ==>
              r == Fail(InnerDimMismatch)
    ensures MatMulDims(self.shape, other.shape) ==>
              && r.Ok?
              && var res := r.value;
              && res.shape == MatMulShape(self.shape, other.shape) && Valid(res)
              && fresh(res.data) && fresh(res.data.flex) && res.data.refcount == 1
              && IsMatMulOf(Values(res), Values(self), Values(other),
                            Rows(self.shape) as nat, Cols(self.shape) as nat, Cols(other.shape) as nat)
              && ((res.node != null) == (self.node != null || other.node != null))
              && (res.node != null ==> fresh(res.node) && AttachedNode(res, [self, other], MatMulGrad))
  {
    var selfDim := ShapeDim(self.shape);
    var otherDim := ShapeDim(other.shape);
    if selfDim < 2 || otherDim < 2 {
      return Fail(RankBelowTwo);
    }
    var m := self.shape[selfDim - 2];
    var n := self.shape[selfDim - 1];
    var p := other.shape[otherDim - 1];
    if n != other.shape[otherDim - 2] {
      return Fail(InnerDimMismatch);
    }
    MatrixFits(self.shape);
    MatrixFits(other.shape);
    MatMulShapeValid(self.shape, other.shape);
    var resShape := self.shape[selfDim - 1 := p];
    MatrixFits(resShape);
    var res := New(resShape, self.node != null || other.node != null);
    ghost var a, b := Values(self), Values(other);
    assert m * n <= |a| && n * p <= |b| && m * p <= res.data.flex.Length;
    FillProduct(res.data.flex, self.data.flex, other.data.flex, a, b, m, n, p);
    ghost var c := Values(res);
    assert c == res.data.flex[..];
    if res.node != null {
      res := Record(res, MatMulGrad, [self, other]);
    }
    assert Values(res) == c && Values(self) == a && Values(other) == b;
    return Ok(res);
  }

  /** GradFn_matmul: detach input i and input 1 - i and multiply them in
      that order. Both detaches take a reference, two on one buffer when
      the inputs share it. The product only exists when the inner
      dimensions agree in that order. */
  method GradFnMatMul(self: Tensor, i: nat) returns (r: Result<Tensor>)
    requires self.node != null && |self.node.inputs| == 2 && i < 2
    requires Valid(self.node.inputs[0]) && Valid(self.node.inputs[1])
    modifies self.node.inputs[0].data`refcount, self.node.inputs[1].data`refcount
    ensures var x, y := self.node.inputs[i], self.node.inputs[1 - i];
            && (r.Ok? <==> MatMulDims(x.shape, y.shape))
            && (r.Ok? ==>
                  && r.value.shape == MatMulShape(x.shape, y.shape) && Valid(r.value)
                  && r.value.node == null && fresh(r.value.data)
                  && IsMatMulOf(Values(r.value), Values(x), Values(y),
                                Rows(x.shape) as nat, Cols(x.shape) as nat, Cols(y.shape) as nat))
    ensures var x, y := self.node.inputs[i], self.node.inputs[1 - i];
            if x.data == y.data then x.data.refcount == old(x.data.refcount) + 2
            else x.data.refcount == old(x.data.refcount) + 1 && y.data.refcount == old(y.data.refcount) + 1
  {
    var x := Detach(self.node.inputs[i]);
    var y := Detach(self.node.inputs[1 - i]);
    r := MatMul(x, y);
  }

  // ---------------------------------------------------------------- dispatch

  /** The buffers whose reference counts a gradient rule may raise. */
  ghost function RuleFrame(self: Tensor): set<FloatBuffer>
  {
    if self.node == null then {} else InputBuffers(self.node)
  }

  /** The rules that cannot fail: add and sum give ones shaped like the
      input, mul the detached other input, mean ones-over-numel shaped like
      the owner. */
  method GradFnPointwise(self: Tensor, i: nat) returns (g: Tensor)
    requires Valid(self) && self.node != null && self.node.gradFn != MatMulGrad
    requires |self.node.inputs| == Arity(self.node.gradFn) && i < |self.node.inputs|
    requires forall k :: 0 <= k < |self.node.inputs| ==> Valid(self.node.inputs[k])
    modifies RuleFrame(self)`refcount
    ensures Valid(g) && g.node == null
    ensures fresh(g.data) || self.node.gradFn == MulGrad
    ensures forall k :: 0 <= k < |self.node.inputs| ==> Valid(self.node.inputs[k])
    ensures self.node.gradFn in {AddGrad, SumGrad} ==>
              && g.shape == self.node.inputs[i].shape
              && forall k :: 0 <= k < |Values(g)| ==> Values(g)[k] == 1.0
    ensures self.node.gradFn == MulGrad ==>
              g == Tensor(self.node.inputs[1 - i].shape, self.node.inputs[1 - i].data, null)
    ensures self.node.gradFn == MeanGrad ==>
              && g.shape == self.shape
              && forall k :: 0 <= k < |Values(g)| ==> Values(g)[k] == 1.0 / (self.data.numel as real)
    ensures forall b :: b in RuleFrame(self) ==> b.refcount >= old(b.refcount)
  {
    match self.node.gradFn
    case AddGrad =>
      g := GradFnAdd(self, i);
    case SumGrad =>
      g := GradFnSum(self, i);
    case MulGrad =>
      g := GradFnMul(self, i);
    case MeanGrad =>
      g := GradFnMean(self, i);
  }

  /** r is what the rule of self's node gives for input i: ones shaped
      like the input for add and sum, the detached other input for mul,
      ones-over-numel shaped like the owner for mean, and for matmul the
      product of the detached inputs, which fails exactly when they do not
      chain. */
  ghost predicate RuleApplied(self: Tensor, i: nat, r: Result<Tensor>)
    requires Valid(self) && self.node != null
    requires |self.node.inputs| == Arity(self.node.gradFn) && i < |self.node.inputs|
    reads InputArrays(self.node)
    reads if r.Ok? then {r.value.data} else {}, if r.Ok? then {r.value.data.flex} else {}
  {
    && (r.Ok? ==> Valid(r.value) && r.value.node == null)
    && (self.node.gradFn in {AddGrad, SumGrad} ==>
          && r.Ok? && r.value.shape == self.node.inputs[i].shape
          && forall k :: 0 <= k < |Values(r.value)| ==> Values(r.value)[k] == 1.0)
    && (self.node.gradFn == MulGrad ==>
          && r == Ok(Tensor(self.node.inputs[1 - i].shape, self.node.inputs[1 - i].data, null)))
    && (self.node.gradFn == MeanGrad ==>
          && r.Ok? && r.value.shape == self.shape
          && forall k :: 0 <= k < |Values(r.value)| ==> Values(r.value)[k] == 1.0 / (self.data.numel as real))
    && (self.node.gradFn == MatMulGrad ==>
          && var x, y := self.node.inputs[i], self.node.inputs[1 - i];
          && Valid(x) && Valid(y)
          && (r.Ok? <==> MatMulDims(x.shape, y.shape))
          && (r.Ok? ==>
                && r.value.shape == MatMulShape(x.shape, y.shape)
                && IsMatMulOf(Values(r.value), Values(x), Values(y),
                              Rows(x.shape) as nat, Cols(x.shape) as nat, Cols(y.shape) as nat)))
  }

  /** A node's rule applied to its input i, through the grad_fn pointer.
      Only matmul's rule can fail; a rule only raises reference counts. */
  method GradFnApply(self: Tensor, i: nat) returns (r: Result<Tensor>)
    requires Valid(self) && self.node != null
    requires |self.node.inputs| == Arity(self.node.gradFn) && i < |self.node.inputs|
    requires forall k :: 0 <= k < |self.node.inputs| ==> Valid(self.node.inputs[k])
    modifies RuleFrame(self)`refcount
    ensures r.Ok? ==> fresh(r.value.data) || self.node.gradFn == MulGrad
    ensures forall k :: 0 <= k < |self.node.inputs| ==> Valid(self.node.inputs[k])
    ensures RuleApplied(self, i, r)
    ensures forall b :: b in RuleFrame(self) ==> b.refcount >= old(b.refcount)
  {
    if self.node.gradFn == MatMulGrad {
      r := GradFnMatMul(self, i);
    } else {
      var g := GradFnPointwise(self, i);
      r := Ok(g);
    }
  }
}
