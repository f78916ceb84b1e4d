/** The backward engine of src/basic.c: gradient accumulation over the
    graph of nodes (Tensor_backward), its rank-mismatch branch
    (_softmax_preprosess and the in-place row compaction), and the counting
    walk Tensor_backward_apply. */
module Autograd {
  import opened Outcomes
  import opened Shapes
  import opened ElementMath
  import opened Tensors
  import opened Operators

  // ---------------------------------------------------------------- softmax branch

  /** The shape _softmax_preprosess gives the stored gradient: with rank r,
      slot r receives the size at index max(r - 1, 0) and that index
      becomes 1, so a row of the gradient turns into a column. */
  function SoftmaxShape(s: Shape): Shape
    requires Rank(s) < Capacity
  {
    var r := Rank(s);
    var dim1 := if r > 1 then r - 1 else 0;
    s[r := s[dim1]][dim1 := 1]
  }

  /** The reshaped gradient has one more dimension, the same element count,
      and ends in the old last dimension. */
  lemma SoftmaxShapeFacts(s: Shape)
    requires ValidShape(s) && 1 <= Rank(s) < Capacity
    ensures ValidShape(SoftmaxShape(s)) && Rank(SoftmaxShape(s)) == Rank(s) + 1
    ensures Numel(SoftmaxShape(s)) == Numel(s)
    ensures SoftmaxShape(s)[Rank(s)] == s[Rank(s) - 1]
  {
    var r := Rank(s);
    var t := SoftmaxShape(s);
    RankOfValid(t, r + 1);
    NumelLast(s);
    NumelLast(t);
    assert t[..r + 1][..r] == t[..r];
    if r == 1 {
      assert t[..1] == [1];
      assert s[..0] == [];
    } else {
      assert t[..r] == s[..r - 1] + [1];
      assert t[..r][..r - 1] == s[..r - 1];
    }
  }

  /** _softmax_preprosess: multiply the reshaped stored gradient by the
      local gradient. */
  method SoftmaxPreprocess(self: Tensor, other: Tensor) returns (r: Result<Tensor>)
    requires Valid(self) && Valid(other) && 1 <= Rank(self.shape) < Capacity
    ensures r.Fail? <==> other.shape != SoftmaxShape(self.shape)
    ensures r.Fail? ==> r.error == BroadcastNotModelled
    ensures r.Ok? ==>
              var res := r.value;
              && res.shape == SoftmaxShape(self.shape) && Valid(res)
              && fresh(res.data) && fresh(res.data.flex)
              && res.data.flex.Length == res.data.numel == self.data.numel
              && (forall k :: 0 <= k < |Values(res)| ==> Values(res)[k] == Times(Values(self)[k], Values(other)[k]))
              && ((res.node != null) == (self.node != null || other.node != null))
  {
    SoftmaxShapeFacts(self.shape);
    var reshaped := self.(shape := SoftmaxShape(self.shape));
    assert LiftScalar(reshaped) == reshaped;
    LiftScalarValid(other);
    r := Mul(reshaped, other);
  }

  /** The inner loop of the compaction: the sum of a[base .. base + l). */
  method RowTotal(a: array<real>, base: nat, l: nat) returns (sum: real)
    requires base + l <= a.Length
    ensures sum == Total(a[base .. base + l])
  {
    sum := 0.0;
    for j := 0 to l
      invariant sum == Total(a[base .. base + j])
    {
      assert a[base .. base + j + 1] == a[base .. base + j] + [a[base + j]];
      TotalSnoc(a[base .. base + j], a[base + j]);
      sum := sum + a[base + j];
    }
  }

  /** The compaction loop of the rank-mismatch branch: element i of the
      buffer becomes the sum of row i (elements i * l .. i * l + l) for
      each i < rows. */
  method CompactRows(buf: FloatBuffer, rows: nat, l: nat)
    requires rows <= buf.flex.Length && rows * l <= buf.flex.Length
    modifies buf.flex
    ensures buf.flex[..rows] == RowSums(old(buf.flex[..]), rows, l)
    ensures buf.flex[rows..] == old(buf.flex[rows..])
  {
    ghost var v := buf.flex[..];
    for i := 0 to rows
      invariant Compacted(buf.flex[..], v, i, rows, l)
    {
      CompactRow(buf.flex, v, i, rows, l);
    }
  }

  /** The first i elements hold the first i row sums of v; the rest is v. */
  ghost predicate Compacted(c: seq<real>, v: seq<real>, i: nat, rows: nat, l: nat) {
    && |c| == |v| && i <= rows <= |v| && rows * l <= |v|
    && (PrefixRowsFit(i, rows, l); c[..i] == RowSums(v, i, l))
    && c[i..] == v[i..]
  }

  /** One pass of the compaction loop. Row i is read before any write can
      reach it: the writes so far went to positions below i <= i * l. */
  method CompactRow(a: array<real>, ghost v: seq<real>, i: nat, rows: nat, l: nat)
    requires i < rows && Compacted(a[..], v, i, rows, l)
    modifies a
    ensures Compacted(a[..], v, i + 1, rows, l)
  {
    var base := i * l;
    RowFits(i, rows, l);
    NextRow(i, l);
    RowStartAtLeast(i, l);
    var sum := RowTotal(a, base, l);
    assert a[base .. base + l] == v[base .. base + l];
    assert RowSums(v, i + 1, l) == RowSums(v, i, l) + [sum];
    a[i] := sum;
    assert a[..i + 1] == a[..i] + [sum];
  }

  // ---------------------------------------------------------------- the graph


  /** G is closed under inputs, and an input's node is shallower than the
      node that records it: the graph is acyclic. */
  ghost predicate Closed(G: set<GradNode>)
  {
    forall n, k | n in G && 0 <= k < |n.inputs| ::
      n.inputs[k].node != null ==> n.inputs[k].node in G && n.inputs[k].node.depth < n.depth
  }

  /** The shape of the graph the operators build: closed, with nodes
      recording as many inputs as their rule takes, all of them valid
      tensors with their buffers in B. None of it changes after a node is
      built. */
  ghost predicate WellBuilt(G: set<GradNode>, B: set<FloatBuffer>)
  {
    && Closed(G)
    && forall n | n in G ::
         && |n.inputs| == Arity(n.gradFn)
         && forall k | 0 <= k < |n.inputs| :: Valid(n.inputs[k]) && n.inputs[k].data in B
  }

  /** Every gradient stored in G is a valid node-less tensor. */
  ghost predicate GradsValid(G: set<GradNode>)
    reads G`grad
  {
    forall n | n in G && n.grad.Some? :: n.grad.value.node == null && Valid(n.grad.value)
  }

  /** What the operators build and backward keeps. */
  ghost predicate GraphInvariant(G: set<GradNode>, B: set<FloatBuffer>)
    reads G`grad
  {
    WellBuilt(G, B) && GradsValid(G)
  }

  /** Changing reference counts keeps the stored gradients valid: the
      invariant does not read the counts, and the rest of it reads nothing
      that can change. */
  twostate lemma RefcountsKeepGrads(G: set<GradNode>)
    requires old(GradsValid(G))
    requires unchanged(G)
    ensures GradsValid(G)
  {
  }

  /** Recording a fresh operator node over inputs already in the graph
      keeps the invariant. */
  lemma AttachKeepsInvariant(G: set<GradNode>, B: set<FloatBuffer>, res: Tensor, inputs: seq<Tensor>, fn: GradFn)
    requires GraphInvariant(G, B) && AttachedNode(res, inputs, fn) && res.node !in G
    requires |inputs| == Arity(fn)
    requires forall k :: 0 <= k < |inputs| ==> Valid(inputs[k]) && inputs[k].data in B
    requires forall k :: 0 <= k < |inputs| ==> inputs[k].node != null ==> inputs[k].node in G
    ensures GraphInvariant(G + {res.node}, B)
  {
    var G' := G + {res.node};
    forall n | n in G'
      ensures forall k | 0 <= k < |n.inputs| ::
                n.inputs[k].node != null ==> n.inputs[k].node in G' && n.inputs[k].node.depth < n.depth
    {
      if n == res.node {
        forall k | 0 <= k < |n.inputs| && n.inputs[k].node != null
          ensures n.inputs[k].node.depth < n.depth
        {
          assert Depth(inputs[k]) <= res.node.depth;
        }
      }
    }
  }

  // ---------------------------------------------------------------- backward

  /** The shape of the gradient backward starts from: the seed's, or the
      scalar shape of the all-ones default. */
  function SeedShape(seed: Option<Tensor>): Shape {
    if seed.None? then ScalarShape else seed.value.shape
  }

  /** The first half of Tensor_backward's accumulation step: store g as the
      node's gradient, or replace the stored gradient by its sum with g. */
  method Accumulate(node: GradNode, g: Tensor, ghost G: set<GradNode>, ghost B: set<FloatBuffer>) returns (st: Status)
    requires GraphInvariant(G, B) && node in G && Valid(g) && g.node == null
    modifies node`grad
    ensures GraphInvariant(G, B)
    ensures old(node.grad).None? ==> st == Done && node.grad == Some(g)
    ensures old(node.grad).Some? && old(node.grad).value.shape != g.shape ==>
              st == Aborted(BroadcastNotModelled) && node.grad == old(node.grad)
    ensures old(node.grad).Some? && old(node.grad).value.shape == g.shape ==> st == Done
    ensures old(node.grad).None? || old(node.grad).value.shape == g.shape ==>
              Received(old(StoredView(node)), GradOf(g), StoredView(node))
  {
    if node.grad.None? {
      node.grad := Some(g);
    } else {
      var s := Add(node.grad.value, g);
      if s.Fail? {
        return Aborted(s.error);
      }
      node.grad := Some(s.value);
    }
    st := Done;
  }

  /** The test of the rank-mismatch branch: the local gradient has exactly
      one more dimension than the stored one, which is not a scalar. */
  predicate RankMismatch(stored: Shape, local: Shape) {
    Rank(local) as int - Rank(stored) as int == 1 && Rank(stored) != 0
  }

  /** The rank-mismatch branch of Tensor_backward: the reshaped stored
      gradient h is multiplied by the local gradient gf, each row of the
      product is summed in place, and the result takes h's shape and
      element count. With equal-shape products the product holds only
      numel(h) elements, so the rows fit only when they have length 1, and
      then the row sums are the product itself. Longer rows would be read
      past the product's end. */
  method MismatchBranch(h: Tensor, gf: Tensor) returns (r: Result<Tensor>)
    requires Valid(h) && Valid(gf) && h.node == null && gf.node == null
    requires RankMismatch(h.shape, gf.shape)
    ensures r.Ok? <==> gf.shape == SoftmaxShape(h.shape) && h.shape[Rank(h.shape) - 1] == 1
    ensures r.Fail? ==> r.error == if gf.shape == SoftmaxShape(h.shape) then RowsPastProduct else BroadcastNotModelled
    ensures r.Fail? && gf.shape == SoftmaxShape(h.shape) ==>
              h.data.numel * h.shape[Rank(h.shape) - 1] > gf.data.numel
    ensures r.Ok? ==>
              && r.value.shape == h.shape && Valid(r.value) && r.value.node == null && fresh(r.value.data)
              && |Values(r.value)| == |Values(h)| == |Values(gf)|
              && forall k :: 0 <= k < |Values(h)| ==> Values(r.value)[k] == Times(Values(h)[k], Values(gf)[k])
  {
    var m := SoftmaxPreprocess(h, gf);
    if m.Fail? {
      return m;
    }
    var p := m.value;
    SoftmaxShapeFacts(h.shape);
    var lastDim := p.shape[Rank(p.shape) - 1];
    var rows := h.data.numel;
    assert lastDim >= 1 && rows >= 1 && p.data.flex.Length == rows;
    RowsFitWidthOne(rows, lastDim);
    if rows * lastDim > p.data.flex.Length {
      return Fail(RowsPastProduct);
    }
    ghost var product := p.data.flex[..];
    CompactRows(p.data, rows, lastDim);
    RowSumsOfWidthOne(product, rows);
    var data := new FloatBuffer.Over(p.data.flex, rows, p.data.refcount);
    return Ok(Tensor(h.shape, data, p.node));
  }

  /** Tensor_mul's rank-0 lift, on shapes: LiftScalar(t).shape. */
  function LiftedShape(s: Shape): Shape {
    if Rank(s) == 0 then s[0 := 1] else s
  }

  /** Whether Combine succeeds on a stored gradient of shape hs and a local
      gradient of shape gs, with equal-shape products. */
  predicate CombineOk(hs: Shape, gs: Shape) {
    if RankMismatch(hs, gs) then gs == SoftmaxShape(hs) && hs[Rank(hs) - 1] == 1
    else LiftedShape(hs) == LiftedShape(gs)
  }

  /** The shape of what Combine returns: the stored gradient's own shape
      after the rank-mismatch branch, its rank-0 lift after Tensor_mul. */
  function CombinedShape(hs: Shape, gs: Shape): Shape {
    if RankMismatch(hs, gs) then hs else LiftedShape(hs)
  }

  /** The gradient Tensor_backward hands to an input: the stored gradient
      h times the local gradient gf, through the rank-mismatch branch or
      Tensor_mul. Both come down to the elementwise product. */
  method Combine(h: Tensor, gf: Tensor) returns (r: Result<Tensor>)
    requires Valid(h) && Valid(gf) && h.node == null && gf.node == null
    ensures r.Ok? <==> CombineOk(h.shape, gf.shape)
    ensures r.Fail? ==> r.error == if RankMismatch(h.shape, gf.shape) && gf.shape == SoftmaxShape(h.shape)
                                   then RowsPastProduct else BroadcastNotModelled
    ensures r.Ok? ==>
              && Valid(r.value) && r.value.node == null && fresh(r.value.data)
              && r.value.shape == CombinedShape(h.shape, gf.shape)
              && |Values(r.value)| == |Values(h)| == |Values(gf)|
              && forall k :: 0 <= k < |Values(h)| ==> Values(r.value)[k] == Times(Values(h)[k], Values(gf)[k])
  {
    if RankMismatch(h.shape, gf.shape) {
      r := MismatchBranch(h, gf);
    } else {
      r := Mul(h, gf);
    }
  }

  /** What a node's rule reads, as values: the rule, the owner's shape and
      element count, and the shapes and elements of the inputs. */
  datatype RuleView = RuleView(fn: GradFn, ownerShape: Shape, ownerNumel: int,
                               shapes: seq<Shape>, values: seq<seq<real>>)

  /** The element arrays of a sequence of tensors. */
  ghost function Arrays(ts: seq<Tensor>): set<array<real>> {
    if ts == [] then {} else {ts[0].data.flex} + Arrays(ts[1..])
  }

  /** The elements of each tensor in ts that is valid. */
  ghost function Elements(ts: seq<Tensor>): (r: seq<seq<real>>)
    reads Arrays(ts)
    ensures |r| == |ts| && forall k :: 0 <= k < |ts| && Valid(ts[k]) ==> r[k] == Values(ts[k])
  {
    if ts == [] then []
    else [if 0 <= ts[0].data.numel <= ts[0].data.flex.Length then Values(ts[0]) else []] + Elements(ts[1..])
  }

  /** Elements reads only the element counts and arrays of ts. */
  twostate lemma {:induction false} ElementsUnchanged(ts: seq<Tensor>)
    requires forall k :: 0 <= k < |ts| ==> unchanged(ts[k].data.flex)
    ensures Elements(ts) == old(Elements(ts))
  {
    if ts != [] {
      ElementsUnchanged(ts[1..]);
      assert forall k :: 0 <= k < |ts[1..]| ==> ts[1..][k] == ts[k + 1];
    }
  }

  /** The shape of each tensor in ts. */
  function ShapesOf(ts: seq<Tensor>): (r: seq<Shape>)
    ensures |r| == |ts| && forall k :: 0 <= k < |ts| ==> r[k] == ts[k].shape
  {
    if ts == [] then [] else [ts[0].shape] + ShapesOf(ts[1..])
  }

  /** The view the rule of t's node has. */
  ghost function ViewOf(t: Tensor): (v: RuleView)
    requires t.node != null
    reads Arrays(t.node.inputs)
  {
    RuleView(t.node.gradFn, t.shape, t.data.numel, ShapesOf(t.node.inputs), Elements(t.node.inputs))
  }

  /** The view depends only on the node's rule and inputs, the owner's
      element count, and the element counts and arrays of the inputs. */
  twostate lemma ViewKept(t: Tensor)
    requires t.node != null
    requires forall k :: 0 <= k < |t.node.inputs| ==> unchanged(t.node.inputs[k].data.flex)
    ensures ViewOf(t) == old(ViewOf(t))
  {
    ElementsUnchanged(t.node.inputs);
  }

  /** The rule, input shapes and owner form a node the operators build. */
  ghost predicate WellFormedView(v: RuleView) {
    && |v.shapes| == |v.values| == Arity(v.fn)
    && v.ownerNumel > 0
    && forall k :: 0 <= k < |v.shapes| ==> ValidShape(v.shapes[k])
  }

  /** The shape of the local gradient for input i: input i's for add and
      sum, the other input's for mul, the owner's for mean, and the
      product's for matmul. */
  function LocalShape(v: RuleView, i: nat): Shape
    requires |v.shapes| == Arity(v.fn) && i < |v.shapes|
  {
    var xs := v.shapes[i];
    match v.fn
    case NoGradFn | AddGrad | SumGrad => xs
    case MulGrad => v.shapes[1 - i]
    case MeanGrad => v.ownerShape
    case MatMulGrad =>
      var ys := v.shapes[1 - i];
      if MatMulDims(xs, ys) then MatMulShape(xs, ys) else xs
  }

  /** Whether the rule for input i produces a local gradient: only matmul's
      can fail, when inputs i and 1 - i do not chain in that order. */
  predicate RuleOk(v: RuleView, i: nat)
    requires |v.shapes| == Arity(v.fn) && i < |v.shapes|
  {
    v.fn == MatMulGrad ==> MatMulDims(v.shapes[i], v.shapes[1 - i])
  }

  /** local is the local gradient the rule gives for input i: all ones for
      add and sum, the elements of the other input for mul,
      1 / owner.numel for mean, the product of input i with input 1 - i
      for matmul. */
  ghost predicate LocalRule(v: RuleView, i: nat, local: seq<real>)
    requires WellFormedView(v) && i < |v.shapes|
  {
    && |local| == Numel(LocalShape(v, i))
    && match v.fn
       case NoGradFn => false
       case AddGrad | SumGrad => forall k :: 0 <= k < |local| ==> local[k] == 1.0
       case MulGrad => local == v.values[1 - i]
       case MeanGrad => forall k :: 0 <= k < |local| ==> local[k] == 1.0 / (v.ownerNumel as real)
       case MatMulGrad =>
         var xs, ys := v.shapes[i], v.shapes[1 - i];
         && MatMulDims(xs, ys)
         && IsMatMulOf(local, v.values[i], v.values[1 - i], Rows(xs) as nat, Cols(xs) as nat, Cols(ys) as nat)
  }

  /** A gradient as values: its shape and its elements. */
  datatype GradView = GradView(shape: Shape, values: seq<real>)

  /** What backward hands to input i of a node whose rule reads v and
      whose stored gradient is h: the local gradient, and down, the
      elementwise product of h and the local gradient in the shape
      Combine gives it. */
  ghost predicate Handed(v: RuleView, h: GradView, i: nat, local: seq<real>, down: GradView)
  {
    && WellFormedView(v) && i < |v.shapes|
    && RuleOk(v, i) && CombineOk(h.shape, LocalShape(v, i))
    && LocalRule(v, i, local)
    && down.shape == CombinedShape(h.shape, LocalShape(v, i))
    && |down.values| == |h.values| == |local|
    && forall k :: 0 <= k < |h.values| ==> down.values[k] == Times(h.values[k], local[k])
  }

  /** Handed rule by rule: add and sum pass the stored gradient on as it
      is, mul scales it by the other input's elements and mean by one over
      the owner's element count; the shape is the stored gradient's, lifted
      from rank 0 to (1) unless the rank-mismatch branch ran. */
  lemma HandedByRule(v: RuleView, h: GradView, i: nat, local: seq<real>, down: GradView)
    requires Handed(v, h, i, local, down)
    ensures |down.values| == |h.values|
    ensures down.shape == if RankMismatch(h.shape, LocalShape(v, i)) then h.shape else LiftedShape(h.shape)
    ensures v.fn in {AddGrad, SumGrad} ==> down.values == h.values
    ensures v.fn == MulGrad ==>
              forall k :: 0 <= k < |h.values| ==> down.values[k] == h.values[k] * v.values[1 - i][k]
    ensures v.fn == MeanGrad ==>
              forall k :: 0 <= k < |h.values| ==> down.values[k] == h.values[k] / (v.ownerNumel as real)
  {
    if v.fn in {AddGrad, SumGrad} {
      assert forall k :: 0 <= k < |h.values| ==> down.values[k] == h.values[k];
    }
  }

  /** The view of a valid tensor. */
  ghost function GradOf(g: Tensor): GradView
    requires Valid(g)
    reads g.data.flex
  {
    GradView(g.shape, Values(g))
  }

  /** A gradient's view depends only on its element array. */
  twostate lemma GradKept(g: Tensor)
    requires Valid(g) && unchanged(g.data.flex)
    ensures GradOf(g) == old(GradOf(g))
  {
  }

  /** What GradFnApply promises, read as values: the rule succeeds as
      RuleOk says, with the shape LocalShape gives and the local gradient
      LocalRule describes. */
  lemma RuleGivesLocal(t: Tensor, i: nat, g: Result<Tensor>)
    requires Valid(t) && t.node != null
    requires |t.node.inputs| == Arity(t.node.gradFn) && i < |t.node.inputs|
    requires forall k :: 0 <= k < |t.node.inputs| ==> Valid(t.node.inputs[k])
    requires RuleApplied(t, i, g)
    ensures WellFormedView(ViewOf(t))
    ensures g.Ok? <==> RuleOk(ViewOf(t), i)
    ensures g.Ok? ==> g.value.shape == LocalShape(ViewOf(t), i) && LocalRule(ViewOf(t), i, Values(g.value))
  {
    var v := ViewOf(t);
    if g.Ok? {
      ValidNumel(g.value);
    }
  }

  /** GradFnApply as the walk sees it: the local gradient for input i of
      t's node, read as values, with reference counts only raised. */
  method LocalGradient(t: Tensor, i: nat, ghost v: RuleView, ghost B: set<FloatBuffer>) returns (g: Result<Tensor>)
    requires Valid(t) && t.node != null
    requires |t.node.inputs| == Arity(t.node.gradFn) && i < |t.node.inputs|
    requires forall k :: 0 <= k < |t.node.inputs| ==> Valid(t.node.inputs[k])
    requires v == ViewOf(t) && RuleFrame(t) <= B
    modifies RuleFrame(t)`refcount
    ensures forall b | b in B :: b.refcount >= old(b.refcount)
    ensures WellFormedView(v) && i < |v.shapes|
    ensures g.Ok? <==> RuleOk(v, i)
    ensures g.Ok? ==>
              && Valid(g.value) && g.value.node == null
              && g.value.shape == LocalShape(v, i) && LocalRule(v, i, Values(g.value))
  {
    g := GradFnApply(t, i);
    ViewKept(t);
    RuleGivesLocal(t, i, g);
  }

  /** The gradient Tensor_backward hands to input i of t's node: the
      node's rule gives the local gradient, and Combine multiplies the
      stored gradient by it. The rule may only raise reference counts. */
  method InputGradient(t: Tensor, i: nat, ghost v: RuleView, ghost h: GradView, ghost B: set<FloatBuffer>)
    returns (r: Result<Tensor>, ghost local: seq<real>, ghost down: GradView)
    requires Valid(t) && t.node != null
    requires |t.node.inputs| == Arity(t.node.gradFn) && i < |t.node.inputs|
    requires forall k :: 0 <= k < |t.node.inputs| ==> Valid(t.node.inputs[k])
    requires t.node.grad.Some? && Valid(t.node.grad.value) && t.node.grad.value.node == null
    requires v == ViewOf(t) && h == GradOf(t.node.grad.value) && RuleFrame(t) <= B
    modifies RuleFrame(t)`refcount
    ensures forall b | b in B :: b.refcount >= old(b.refcount)
    ensures r.Ok? <==> RuleOk(v, i) && CombineOk(h.shape, LocalShape(v, i))
    ensures r.Ok? ==> Valid(r.value) && r.value.node == null && down == GradOf(r.value)
    ensures r.Ok? ==> Handed(v, h, i, local, down)
  {
    var g := LocalGradient(t, i, v, B);
    if g.Fail? {
      return Fail(g.error), [], h;
    }
    local := Values(g.value);
    assert Values(t.node.grad.value) == h.values;
    r := Combine(t.node.grad.value, g.value);
    if r.Ok? {
      down := GradOf(r.value);
    } else {
      down := h;
    }
  }

  /** The element array of a node's stored gradient, if any. */
  ghost function GradArray(n: GradNode): set<array<real>>
    reads n`grad
  {
    if n.grad.Some? then {n.grad.value.data.flex} else {}
  }

  /** A node's stored gradient as values. */
  ghost function StoredView(n: GradNode): Option<GradView>
    reads n`grad, GradArray(n)
  {
    if n.grad.Some? && Valid(n.grad.value) then Some(GradOf(n.grad.value)) else None
  }

  /** The stored view depends only on the node's gradient and that
      gradient's element count and array. */
  twostate lemma StoredKept(n: GradNode)
    requires unchanged(n`grad)
    requires unchanged(GradArray(n))
    ensures StoredView(n) == old(StoredView(n))
  {
  }

  /** What accumulation leaves in a node that held `before` and received
      g: g the first time, the elementwise sum after that. */
  ghost predicate Received(before: Option<GradView>, g: GradView, after: Option<GradView>) {
    && after.Some?
    && (before.None? ==> after.value == g)
    && (before.Some? ==>
          && after.value.shape == before.value.shape
          && |after.value.values| == |before.value.values| == |g.values|
          && forall k :: 0 <= k < |g.values| ==> after.value.values[k] == before.value.values[k] + g.values[k])
  }

  /** Input i's node is reached from t's node through slot i only: every
      other input has no node, or a different node that is no deeper, so
      the walks from the other slots cannot reach it. */
  ghost predicate Isolated(t: Tensor, i: nat)
    requires t.node != null && i < |t.node.inputs|
  {
    var n := t.node.inputs[i].node;
    && n != null
    && forall j :: 0 <= j < |t.node.inputs| && j != i && t.node.inputs[j].node != null ==>
         t.node.inputs[j].node != n && t.node.inputs[j].node.depth <= n.depth
  }

  /** Backward below t goes one level deep and succeeds, for a stored
      gradient of shape hs: every input's rule and product succeed, and
      every input has no node, or an isolated node with no inputs and no
      gradient yet. */
  ghost predicate OneLevel(t: Tensor, hs: Shape)
    requires t.node != null && |t.node.inputs| == Arity(t.node.gradFn)
    reads (set k | 0 <= k < |t.node.inputs| && t.node.inputs[k].node != null :: t.node.inputs[k].node)`grad
  {
    forall i :: 0 <= i < |t.node.inputs| ==>
      && RuleOk(RuleView(t.node.gradFn, t.shape, 0, ShapesOf(t.node.inputs), []), i)
      && CombineOk(hs, LocalShape(RuleView(t.node.gradFn, t.shape, 0, ShapesOf(t.node.inputs), []), i))
      && (t.node.inputs[i].node != null ==>
            && Isolated(t, i)
            && t.node.inputs[i].node.inputs == [] && t.node.inputs[i].node.grad.None?)
  }

  /** One pass of Tensor_backward's loop over the inputs of t's node,
      whose gradient is stored: the gradient `down` for input i is
      computed and the walk recurses into input i, whose node receives it.
      Only input i's node and nodes below it change. */
  method PropagateInput(t: Tensor, i: nat, ghost G: set<GradNode>, ghost B: set<FloatBuffer>, ghost v: RuleView, ghost h: GradView)
    returns (st: Status, ghost local: seq<real>, ghost down: Option<GradView>)
    requires GraphInvariant(G, B)
    requires Valid(t) && t.node != null && t.node in G && t.node.grad.Some? && i < |t.node.inputs|
    requires v == ViewOf(t) && h == GradOf(t.node.grad.value)
    modifies G`grad, B`refcount
    decreases Depth(t), 0
    ensures GraphInvariant(G, B)
    ensures forall b | b in B :: b.refcount >= old(b.refcount)
    ensures forall n | n in G && n.depth >= t.node.depth :: n.grad == old(n.grad)
    ensures var x := t.node.inputs[i];
            forall n | n in G && (x.node == null || (n != x.node && n.depth >= x.node.depth)) :: n.grad == old(n.grad)
    ensures down.Some? <==> RuleOk(v, i) && CombineOk(h.shape, LocalShape(v, i))
    ensures down.Some? ==> Handed(v, h, i, local, down.value)
    ensures down.None? ==> st.Aborted?
    ensures down.Some? && t.node.inputs[i].node == null ==> st == Done
    ensures down.Some? && t.node.inputs[i].node != null ==>
              var n := t.node.inputs[i].node;
              && (old(n.grad).None? || old(n.grad).value.shape == down.value.shape ==>
                    Received(old(StoredView(n)), down.value, StoredView(n)))
              && (old(n.grad).Some? && old(n.grad).value.shape != down.value.shape ==>
                    st == Aborted(BroadcastNotModelled))
              && (n.inputs == [] && old(n.grad).None? ==> st == Done)
  {
    var g;
    ghost var d;
    var x := t.node.inputs[i];
    label Entry:
    g, local, d := InputGradient(t, i, v, h, B);
    RefcountsKeepGrads(G);
    if g.Fail? {
      return Aborted(g.error), local, None;
    }
    down := Some(d);
    assert x.node != null ==> x.node in G && x.node.depth < t.node.depth;
    if x.node != null {
      StoredKept@Entry(x.node);
    }
    st := HandDown(t, i, g.value, G, B);
  }

  /** The recursive call at the end of one pass of the input loop: input
      i's node receives g, and only that node and the nodes below it
      change. */
  method HandDown(t: Tensor, i: nat, g: Tensor, ghost G: set<GradNode>, ghost B: set<FloatBuffer>) returns (st: Status)
    requires GraphInvariant(G, B)
    requires Valid(t) && t.node != null && t.node in G && i < |t.node.inputs|
    requires Valid(g) && g.node == null
    modifies G`grad, B`refcount
    decreases Depth(t), 0, 0
    ensures GraphInvariant(G, B)
    ensures forall b | b in B :: b.refcount >= old(b.refcount)
    ensures var x := t.node.inputs[i];
            forall n | n in G && (x.node == null || (n != x.node && n.depth >= x.node.depth)) :: n.grad == old(n.grad)
    ensures t.node.inputs[i].node == null ==> st == Done
    ensures t.node.inputs[i].node != null ==>
              var n := t.node.inputs[i].node;
              && (old(n.grad).None? || old(n.grad).value.shape == g.shape ==>
                    Received(old(StoredView(n)), GradOf(g), StoredView(n)))
              && (old(n.grad).Some? && old(n.grad).value.shape != g.shape ==>
                    st == Aborted(BroadcastNotModelled))
              && (n.inputs == [] && old(n.grad).None? ==> st == Done)
  {
    var x := t.node.inputs[i];
    assert x.node != null ==> x.node in G && x.node.depth < t.node.depth;
    ghost var below, belowDowns;
    st, below, belowDowns := Deliver(x, g, G, B);
  }

  /** The recursive call of Tensor_backward on an input x with the
      gradient d: x's node receives d, x's own inputs are handed what
      Backward hands them (locals and downs), and only x's node and the
      nodes below it change. */
  method Deliver(x: Tensor, d: Tensor, ghost G: set<GradNode>, ghost B: set<FloatBuffer>)
    returns (st: Status, ghost locals: seq<seq<real>>, ghost downs: seq<GradView>)
    requires GraphInvariant(G, B)
    requires Valid(x) && (x.node != null ==> x.node in G) && Valid(d) && d.node == null
    modifies G`grad, B`refcount
    decreases Depth(x), 5
    ensures GraphInvariant(G, B)
    ensures forall b | b in B :: b.refcount >= old(b.refcount)
    ensures forall n | n in G && (x.node == null || (n != x.node && n.depth >= x.node.depth)) :: n.grad == old(n.grad)
    ensures x.node == null ==> st == Done
    ensures x.node != null && (old(x.node.grad).None? || old(x.node.grad).value.shape == d.shape) ==>
              Received(old(StoredView(x.node)), GradOf(d), StoredView(x.node))
    ensures x.node != null && old(x.node.grad).Some? && old(x.node.grad).value.shape != d.shape ==>
              st == Aborted(BroadcastNotModelled)
    ensures x.node != null && x.node.inputs == [] && old(x.node.grad).None? ==> st == Done
    ensures st.Done? && x.node != null ==>
              && StoredView(x.node).Some?
              && Delivered(x, G, old(ViewOf(x)), StoredView(x.node).value, old(StoredGrads(G)), old(StoredViews(G)),
                           |x.node.inputs|, locals, downs)
  {
    st, locals, downs := Backward(x, Some(d), G, B);
  }

  /** The element arrays of the gradients stored in G. */
  ghost function GradArrays(G: set<GradNode>): set<array<real>>
    reads G`grad
  {
    set n | n in G && n.grad.Some? :: n.grad.value.data.flex
  }

  /** The gradient each node of G stores, and the same as values. */
  ghost function StoredGrads(G: set<GradNode>): map<GradNode, Option<Tensor>>
    reads G`grad
  {
    map n | n in G :: n.grad
  }

  ghost function StoredViews(G: set<GradNode>): map<GradNode, Option<GradView>>
    reads G`grad, GradArrays(G)
  {
    map n | n in G :: StoredView(n)
  }

  /** What the walk below t keeps, against the gradients g0 and reference
      counts r0 it started from: the invariant holds, no reference count
      dropped, and the nodes at least as deep as t's are untouched. */
  ghost predicate Kept(t: Tensor, G: set<GradNode>, B: set<FloatBuffer>,
                       g0: map<GradNode, Option<Tensor>>, r0: map<FloatBuffer, int>)
    requires t.node != null
    reads G`grad, B`refcount
  {
    && GraphInvariant(G, B)
    && (forall b | b in B :: b in r0 && b.refcount >= r0[b])
    && (forall n | n in G && n.depth >= t.node.depth :: n in g0 && n.grad == g0[n])
  }

  /** What the loop over the inputs of t's node has achieved after inputs
      0 .. i - 1, for a node storing h whose rule reads v, with g and s the
      gradients and views the nodes store now and g0 and s0 those they
      stored before the loop: input k < i was handed downs[k], h times the
      local gradient locals[k], and its node, when isolated, received it;
      the isolated nodes of the inputs still ahead are untouched. */
  ghost predicate DeliveredIn(t: Tensor, v: RuleView, h: GradView,
                              g0: map<GradNode, Option<Tensor>>, s0: map<GradNode, Option<GradView>>,
                              g: map<GradNode, Option<Tensor>>, s: map<GradNode, Option<GradView>>,
                              i: nat, locals: seq<seq<real>>, downs: seq<GradView>)
    requires t.node != null
  {
    && t.node in s && s[t.node] == Some(h)
    && |locals| == |downs| == i <= |t.node.inputs|
    && (forall k :: 0 <= k < i ==> Handed(v, h, k, locals[k], downs[k]))
    && (forall k :: 0 <= k < i && Isolated(t, k) ==>
          var n := t.node.inputs[k].node;
          n in s0 && n in s && Received(s0[n], downs[k], s[n]))
    && (forall k :: i <= k < |t.node.inputs| && Isolated(t, k) ==>
          var n := t.node.inputs[k].node;
          n in g0 && n in s0 && n in g && n in s && g[n] == g0[n] && s[n] == s0[n])
  }

  /** DeliveredIn for the gradients G stores now, with t's rule still
      reading v. */
  ghost predicate Delivered(t: Tensor, G: set<GradNode>, v: RuleView, h: GradView,
                            g0: map<GradNode, Option<Tensor>>, s0: map<GradNode, Option<GradView>>,
                            i: nat, locals: seq<seq<real>>, downs: seq<GradView>)
    requires t.node != null
    reads G`grad, GradArrays(G), Arrays(t.node.inputs)
  {
    ViewOf(t) == v && DeliveredIn(t, v, h, g0, s0, StoredGrads(G), StoredViews(G), i, locals, downs)
  }

  /** Input i handed d, and the walk into it changed only its node and
      nodes below it, with that node, when isolated, receiving d: the
      loop's progress extends from i to i + 1. gb, sb and ga, sa are the
      gradients and views of G before and after input i. */
  lemma DeliveredNext(t: Tensor, G: set<GradNode>, i: nat, v: RuleView, h: GradView,
                      g0: map<GradNode, Option<Tensor>>, s0: map<GradNode, Option<GradView>>,
                      gb: map<GradNode, Option<Tensor>>, sb: map<GradNode, Option<GradView>>,
                      ga: map<GradNode, Option<Tensor>>, sa: map<GradNode, Option<GradView>>,
                      locals: seq<seq<real>>, downs: seq<GradView>, l: seq<real>, d: GradView)
    requires Closed(G) && t.node != null && t.node in G && i < |t.node.inputs|
    requires forall n | n in G :: n in gb && n in sb && n in ga && n in sa
    requires DeliveredIn(t, v, h, g0, s0, gb, sb, i, locals, downs)
    requires Handed(v, h, i, l, d)
    requires var x := t.node.inputs[i];
             forall n | n in G && (x.node == null || (n != x.node && n.depth >= x.node.depth)) ::
               ga[n] == gb[n] && sa[n] == sb[n]
    requires Isolated(t, i) ==> Received(sb[t.node.inputs[i].node], d, sa[t.node.inputs[i].node])
    ensures DeliveredIn(t, v, h, g0, s0, ga, sa, i + 1, locals + [l], downs + [d])
  {
    var x := t.node.inputs[i];
    assert x.node != null ==> t.node.depth > x.node.depth;
    forall k | 0 <= k < |t.node.inputs| && k != i && Isolated(t, k)
      ensures ga[t.node.inputs[k].node] == gb[t.node.inputs[k].node]
      ensures sa[t.node.inputs[k].node] == sb[t.node.inputs[k].node]
    {
      assert t.node.inputs[k].node in G;
    }
  }

  /** The inputs from i on go one level deep and succeed, for a stored
      gradient of shape hs and nodes holding the gradients g0: OneLevel
      with the gradients read from g0. */
  ghost predicate OneLevelFrom(t: Tensor, hs: Shape, g0: map<GradNode, Option<Tensor>>, i: nat)
    requires t.node != null && |t.node.inputs| == Arity(t.node.gradFn)
  {
    forall k :: i <= k < |t.node.inputs| ==>
      && RuleOk(RuleView(t.node.gradFn, t.shape, 0, ShapesOf(t.node.inputs), []), k)
      && CombineOk(hs, LocalShape(RuleView(t.node.gradFn, t.shape, 0, ShapesOf(t.node.inputs), []), k))
      && (t.node.inputs[k].node != null ==>
            && Isolated(t, k) && t.node.inputs[k].node.inputs == []
            && t.node.inputs[k].node in g0 && g0[t.node.inputs[k].node].None?)
  }

  /** Before the loop nothing is delivered yet, against snapshots g0 and s0
      that agree with g and s on the nodes below t's. */
  lemma DeliveredStart(t: Tensor, G: set<GradNode>, v: RuleView, h: GradView,
                       g0: map<GradNode, Option<Tensor>>, s0: map<GradNode, Option<GradView>>,
                       g: map<GradNode, Option<Tensor>>, s: map<GradNode, Option<GradView>>)
    requires Closed(G) && t.node != null && t.node in G
    requires t.node in s && s[t.node] == Some(h)
    requires forall n | n in G && n.depth < t.node.depth :: n in g0 && n in s0 && n in g && n in s && g[n] == g0[n] && s[n] == s0[n]
    ensures DeliveredIn(t, v, h, g0, s0, g, s, 0, [], [])
  {
    forall k | 0 <= k < |t.node.inputs| && Isolated(t, k)
      ensures t.node.inputs[k].node in G && t.node.inputs[k].node.depth < t.node.depth
    {
    }
  }

  /** OneLevel read from snapshots g0 that agree with the nodes below t's. */
  lemma OneLevelStart(t: Tensor, G: set<GradNode>, hs: Shape, g0: map<GradNode, Option<Tensor>>)
    requires Closed(G) && t.node != null && t.node in G && |t.node.inputs| == Arity(t.node.gradFn)
    requires forall n | n in G && n.depth < t.node.depth :: n in g0 && g0[n] == n.grad
    ensures OneLevel(t, hs) ==> OneLevelFrom(t, hs, g0, 0)
  {
    forall k | 0 <= k < |t.node.inputs| && t.node.inputs[k].node != null
      ensures t.node.inputs[k].node in G && t.node.inputs[k].node.depth < t.node.depth
    {
    }
  }

  /** The nodes of G that keep their gradients keep their stored views,
      as long as no gradient's elements change. */
  twostate lemma ViewsKept(G: set<GradNode>)
    requires unchanged(old(GradArrays(G)))
    ensures forall n | n in G && n.grad == old(n.grad) :: StoredView(n) == old(StoredView(n))
  {
    forall n | n in G && n.grad == old(n.grad)
      ensures StoredView(n) == old(StoredView(n))
    {
      StoredKept(n);
    }
  }

  /** The walk into input x of t's node keeps the view of t's rule and what
      the nodes outside x's reach store, as snapshots of G. */
  twostate lemma StepKeeps(new t: Tensor, new G: set<GradNode>, new x: Tensor)
    requires old(allocated(t)) && old(allocated(G)) && old(allocated(x))
    requires t.node != null && (x.node != null ==> x.node in G)
    requires forall n | n in G && (x.node == null || (n != x.node && n.depth >= x.node.depth)) :: n.grad == old(n.grad)
    requires unchanged(old(GradArrays(G)))
    requires forall k :: 0 <= k < |t.node.inputs| ==> unchanged(t.node.inputs[k].data.flex)
    ensures ViewOf(t) == old(ViewOf(t))
    ensures forall n | n in G && (x.node == null || (n != x.node && n.depth >= x.node.depth)) ::
              StoredGrads(G)[n] == old(StoredGrads(G))[n] && StoredViews(G)[n] == old(StoredViews(G))[n]
    ensures x.node != null ==>
              StoredViews(G)[x.node] == StoredView(x.node) && old(StoredViews(G))[x.node] == old(StoredView(x.node))
  {
    ViewKept(t);
    ViewsKept(G);
  }

  /** The walk into input i of t's node handed d and kept its frame, and
      an isolated input's node received d: Delivered extends from i to
      i + 1. */
  twostate lemma StepDelivered(new t: Tensor, new G: set<GradNode>, new i: nat, new v: RuleView, new h: GradView,
                               new g0: map<GradNode, Option<Tensor>>, new s0: map<GradNode, Option<GradView>>,
                               new locals: seq<seq<real>>, new downs: seq<GradView>, new l: seq<real>, new d: GradView)
    requires old(allocated(t)) && old(allocated(G)) && old(allocated(g0)) && old(allocated(s0))
    requires Closed(G) && t.node != null && t.node in G && i < |t.node.inputs|
    requires var x := t.node.inputs[i];
             forall n | n in G && (x.node == null || (n != x.node && n.depth >= x.node.depth)) :: n.grad == old(n.grad)
    requires unchanged(old(GradArrays(G)))
    requires forall k :: 0 <= k < |t.node.inputs| ==> unchanged(t.node.inputs[k].data.flex)
    ensures && old(Delivered(t, G, v, h, g0, s0, i, locals, downs))
            && Handed(v, h, i, l, d)
            && (Isolated(t, i) ==>
                  Received(old(StoredView(t.node.inputs[i].node)), d, StoredView(t.node.inputs[i].node)))
            ==> Delivered(t, G, v, h, g0, s0, i + 1, locals + [l], downs + [d])
  {
    if && old(Delivered(t, G, v, h, g0, s0, i, locals, downs))
       && Handed(v, h, i, l, d)
       && (Isolated(t, i) ==>
             Received(old(StoredView(t.node.inputs[i].node)), d, StoredView(t.node.inputs[i].node)))
    {
      StepKeeps(t, G, t.node.inputs[i]);
      DeliveredNext(t, G, i, v, h, g0, s0, old(StoredGrads(G)), old(StoredViews(G)), StoredGrads(G), StoredViews(G),
                    locals, downs, l, d);
    }
  }

  /** One pass of the loop of Tensor_backward over the inputs of t's node:
      PropagateInput for input i, which carries the loop's progress from
      i to i + 1 when it succeeds and keeps its frame in any case. */
  method PropagateStep(t: Tensor, i: nat, ghost G: set<GradNode>, ghost B: set<FloatBuffer>,
                       ghost v: RuleView, ghost h: GradView,
                       ghost g0: map<GradNode, Option<Tensor>>, ghost s0: map<GradNode, Option<GradView>>,
                       ghost locals: seq<seq<real>>, ghost downs: seq<GradView>)
    returns (st: Status, ghost locals': seq<seq<real>>, ghost downs': seq<GradView>)
    requires Valid(t) && t.node != null && t.node in G && i < |t.node.inputs|
    requires GraphInvariant(G, B) && Delivered(t, G, v, h, g0, s0, i, locals, downs)
    modifies G`grad, B`refcount
    decreases Depth(t), 1
    ensures GraphInvariant(G, B)
    ensures forall b | b in B :: b.refcount >= old(b.refcount)
    ensures forall n | n in G && n.depth >= t.node.depth :: n.grad == old(n.grad)
    ensures st.Done? ==> Delivered(t, G, v, h, g0, s0, i + 1, locals', downs')
    ensures OneLevelFrom(t, h.shape, g0, i) ==> st.Done?
  {
    label Before:
    ghost var l, d;
    assert StoredViews(G)[t.node] == StoredView(t.node);
    st, l, d := PropagateInput(t, i, G, B, v, h);
    locals', downs' := locals, downs;
    if st.Aborted? {
      return;
    }
    StepDelivered@Before(t, G, i, v, h, g0, s0, locals, downs, l, d.value);
    locals', downs' := locals + [l], downs + [d.value];
  }

  /** The loop of Tensor_backward over the inputs of t's node; the first
      failing input ends it. On success input i was handed downs[i], the
      stored gradient times the local gradient locals[i], and an isolated
      input's node received it: Delivered for all inputs, against the
      state before the loop. */
  method Propagate(t: Tensor, ghost G: set<GradNode>, ghost B: set<FloatBuffer>,
                   ghost g0: map<GradNode, Option<Tensor>>, ghost s0: map<GradNode, Option<GradView>>)
    returns (st: Status, ghost locals: seq<seq<real>>, ghost downs: seq<GradView>)
    requires GraphInvariant(G, B)
    requires Valid(t) && t.node != null && t.node in G && t.node.grad.Some?
    requires forall n | n in G && n.depth < t.node.depth :: n in g0 && n in s0 && g0[n] == n.grad && s0[n] == StoredView(n)
    modifies G`grad, B`refcount
    decreases Depth(t), 2
    ensures GraphInvariant(G, B)
    ensures forall b | b in B :: b.refcount >= old(b.refcount)
    ensures forall n | n in G && n.depth >= t.node.depth :: n.grad == old(n.grad)
    ensures st.Done? ==>
              Delivered(t, G, old(ViewOf(t)), old(GradOf(t.node.grad.value)), g0, s0, |t.node.inputs|, locals, downs)
    ensures old(OneLevel(t, t.node.grad.value.shape)) ==> st == Done
  {
    ghost var v, h := ViewOf(t), GradOf(t.node.grad.value);
    ghost var gk := StoredGrads(G);
    ghost var r0 := map b | b in B :: b.refcount;
    ghost var oneLevel := OneLevel(t, h.shape);
    OneLevelStart(t, G, h.shape, g0);
    DeliveredStart(t, G, v, h, g0, s0, gk, StoredViews(G));
    locals, downs := [], [];
    for i := 0 to |t.node.inputs|
      invariant Kept(t, G, B, gk, r0) && Delivered(t, G, v, h, g0, s0, i, locals, downs)
      invariant oneLevel ==> OneLevelFrom(t, h.shape, g0, i)
    {
      st, locals, downs := PropagateStep(t, i, G, B, v, h, g0, s0, locals, downs);
      if st.Aborted? {
        return;
      }
    }
    return Done, locals, downs;
  }

  /** The gradient Tensor_backward starts from: the seed, or without one a
      scalar 1 for a one-element tensor; a seed carrying a node is refused. */
  method SeedGradient(t: Tensor, seed: Option<Tensor>) returns (r: Result<Tensor>)
    requires Valid(t) && (seed.Some? ==> Valid(seed.value))
    ensures r.Fail? <==> (seed.None? && t.data.numel != 1) || (seed.Some? && seed.value.node != null)
    ensures r.Fail? ==> r.error == (if seed.None? then NotScalar else SeedHasNode)
    ensures r.Ok? ==> Valid(r.value) && r.value.node == null && r.value.shape == SeedShape(seed)
    ensures r.Ok? && seed.Some? ==> r.value == seed.value
    ensures r.Ok? && seed.None? ==> Values(r.value) == [1.0]
  {
    if seed.None? {
      if t.data.numel != 1 {
        return Fail(NotScalar);
      }
      var ones := Ones(ScalarShape, false);
      assert ScalarShape[..Rank(ScalarShape)] == [];
      return Ok(ones);
    }
    if seed.value.node != null {
      return Fail(SeedHasNode);
    }
    return Ok(seed.value);
  }

  /** What only allocates keeps the views and gradients G stores and the
      view of t's rule. */
  twostate lemma GrowthKeeps(new t: Tensor, new G: set<GradNode>)
    requires old(allocated(t)) && old(allocated(G))
    requires t.node != null
    requires unchanged(G) && unchanged(old(GradArrays(G)))
    requires forall k :: 0 <= k < |t.node.inputs| ==> unchanged(t.node.inputs[k].data.flex)
    ensures ViewOf(t) == old(ViewOf(t))
    ensures StoredGrads(G) == old(StoredGrads(G))
    ensures StoredViews(G) == old(StoredViews(G))
  {
    ViewKept(t);
    ViewsKept(G);
  }

  /** Accumulating into t's node keeps the view of t's rule, what the
      other nodes of G store, and whether backward below t goes one level
      deep for a gradient of shape hs. */
  twostate lemma AccumulateKeeps(new t: Tensor, new G: set<GradNode>, new hs: Shape)
    requires old(allocated(t)) && old(allocated(G)) && old(allocated(hs))
    requires Closed(G) && t.node != null && t.node in G && |t.node.inputs| == Arity(t.node.gradFn)
    requires forall n | n in G && n != t.node :: n.grad == old(n.grad)
    requires unchanged(old(GradArrays(G)))
    requires forall k :: 0 <= k < |t.node.inputs| ==> unchanged(t.node.inputs[k].data.flex)
    ensures ViewOf(t) == old(ViewOf(t))
    ensures forall n | n in G && n != t.node :: StoredGrads(G)[n] == old(StoredGrads(G))[n]
    ensures forall n | n in G && n != t.node :: StoredViews(G)[n] == old(StoredViews(G))[n]
    ensures OneLevel(t, hs) == old(OneLevel(t, hs))
  {
    ViewKept(t);
    ViewsKept(G);
  }

  /** The body of Tensor_backward past its checks: accumulate g into the
      node's gradient, which is final from then on, and Propagate the
      accumulated gradient (not g alone) to the inputs. */
  method AccumulateAndPropagate(t: Tensor, g: Tensor, ghost G: set<GradNode>, ghost B: set<FloatBuffer>)
    returns (st: Status, ghost locals: seq<seq<real>>, ghost downs: seq<GradView>)
    requires GraphInvariant(G, B)
    requires Valid(t) && t.node != null && t.node in G && Valid(g) && g.node == null
    modifies G`grad, B`refcount
    decreases Depth(t), 3
    ensures GraphInvariant(G, B)
    ensures forall b | b in B :: b.refcount >= old(b.refcount)
    ensures forall n | n in G && n != t.node && n.depth >= t.node.depth :: n.grad == old(n.grad)
    ensures old(t.node.grad).None? ==> t.node.grad == Some(g)
    ensures old(t.node.grad).None? || old(t.node.grad).value.shape == g.shape ==>
              Received(old(StoredView(t.node)), GradOf(g), StoredView(t.node))
    ensures old(t.node.grad).Some? && old(t.node.grad).value.shape != g.shape ==>
              && st == Aborted(BroadcastNotModelled)
              && (forall n | n in G :: n.grad == old(n.grad))
              && (forall b | b in B :: b.refcount == old(b.refcount))
    ensures st.Done? ==>
              && StoredView(t.node).Some?
              && Delivered(t, G, old(ViewOf(t)), StoredView(t.node).value, old(StoredGrads(G)), old(StoredViews(G)),
                           |t.node.inputs|, locals, downs)
    ensures (old(t.node.grad).None? || old(t.node.grad).value.shape == g.shape) && old(OneLevel(t, g.shape)) ==>
              st == Done
  {
    locals, downs := [], [];
    label Entry:
    ghost var g0, s0 := StoredGrads(G), StoredViews(G);
    st := Accumulate(t.node, g, G, B);
    if st.Done? {
      AccumulateKeeps@Entry(t, G, g.shape);
      label Accumulated:
      st, locals, downs := Propagate(t, G, B, g0, s0);
      StoredKept@Accumulated(t.node);
      GradKept@Accumulated(g);
    }
  }

  /** Backward gets past its checks: t has a node, and the seed is
      node-less, or absent with t holding one element. */
  ghost predicate Admitted(t: Tensor, seed: Option<Tensor>)
  {
    && t.node != null
    && (seed.None? ==> t.data.numel == 1)
    && (seed.Some? ==> seed.value.node == null)
  }

  /** The values of the gradient backward starts from: the seed's, or a
      scalar 1. */
  ghost function SeedView(seed: Option<Tensor>): GradView
    requires seed.Some? ==> Valid(seed.value)
    reads if seed.Some? then {seed.value.data} else {}, if seed.Some? then {seed.value.data.flex} else {}
  {
    if seed.None? then GradView(ScalarShape, [1.0]) else GradOf(seed.value)
  }

  /** Tensor_backward. Without a node there is nothing to do. Without a
      seed the tensor must hold one element and the seed is a scalar 1; a
      seed must not carry a node. The seed is accumulated into the node's
      gradient, and the accumulated gradient times each rule's local
      gradient locals[i] is carried to input i as downs[i]. Detaching
      inside the rules only raises reference counts. A step the source
      leaves to the external broadcasting routine, or to an assert, ends
      the walk with an error. */
  method Backward(t: Tensor, seed: Option<Tensor>, ghost G: set<GradNode>, ghost B: set<FloatBuffer>)
    returns (st: Status, ghost locals: seq<seq<real>>, ghost downs: seq<GradView>)
    requires GraphInvariant(G, B)
    requires Valid(t) && (t.node != null ==> t.node in G)
    requires seed.Some? ==> Valid(seed.value)
    modifies G`grad, B`refcount
    decreases Depth(t), 4
    ensures GraphInvariant(G, B)
    ensures forall b | b in B :: b.refcount >= old(b.refcount)
    ensures forall n | n in G && (t.node == null || (n != t.node && n.depth >= t.node.depth)) :: n.grad == old(n.grad)
    ensures t.node == null ==> st == Done && forall b | b in B :: b.refcount == old(b.refcount)
    ensures t.node != null && ((seed.None? && t.data.numel != 1) || (seed.Some? && seed.value.node != null)) ==>
              && st == Aborted(if seed.None? then NotScalar else SeedHasNode)
              && (forall n | n in G :: n.grad == old(n.grad))
              && (forall b | b in B :: b.refcount == old(b.refcount))
    ensures Admitted(t, seed) && seed.Some? && old(t.node.grad).None? ==> t.node.grad == seed
    ensures Admitted(t, seed) && (old(t.node.grad).None? || old(t.node.grad).value.shape == SeedShape(seed)) ==>
              Received(old(StoredView(t.node)), old(SeedView(seed)), StoredView(t.node))
    ensures Admitted(t, seed) && old(t.node.grad).Some? && old(t.node.grad).value.shape != SeedShape(seed) ==>
              && st == Aborted(BroadcastNotModelled)
              && (forall n | n in G :: n.grad == old(n.grad))
              && (forall b | b in B :: b.refcount == old(b.refcount))
    ensures st.Done? && t.node != null ==>
              && StoredView(t.node).Some?
              && Delivered(t, G, old(ViewOf(t)), StoredView(t.node).value, old(StoredGrads(G)), old(StoredViews(G)),
                           |t.node.inputs|, locals, downs)
    ensures (&& Admitted(t, seed)
             && (old(t.node.grad).None? || old(t.node.grad).value.shape == SeedShape(seed))
             && old(OneLevel(t, SeedShape(seed)))) ==> st == Done
  {
    locals, downs := [], [];
    if t.node == null {
      return Done, locals, downs;
    }
    label Entry:
    var g := SeedGradient(t, seed);
    if g.Fail? {
      return Aborted(g.error), locals, downs;
    }
    GrowthKeeps@Entry(t, G);
    st, locals, downs := AccumulateAndPropagate(t, g.value, G, B);
  }

  // ---------------------------------------------------------------- backward_apply

  /** The tensors Tensor_backward_apply hands to its visitor, in order:
      nothing without a node, otherwise t itself followed by the walks from
      its inputs, first to last. A node reached along two paths is visited
      once per path. */
  ghost function Walk(t: Tensor, G: set<GradNode>): seq<Tensor>
    requires Closed(G) && (t.node != null ==> t.node in G)
    decreases Depth(t), 1
  {
    if t.node == null then [] else [t] + WalkFrom(t.node, 0, G)
  }

  /** The walks from inputs k, k + 1, ... of node n, one after another. */
  ghost function WalkFrom(n: GradNode, k: nat, G: set<GradNode>): seq<Tensor>
    requires Closed(G) && n in G && k <= |n.inputs|
    decreases n.depth + 1, 0, |n.inputs| - k
  {
    if k == |n.inputs| then []
    else Walk(n.inputs[k], G) + WalkFrom(n, k + 1, G)
  }

  /** The walk is a pre-order: it is empty exactly when t has no node, it
      starts with t, and everything after t lies strictly below t in the
      graph, so t is visited before its inputs and never again. */
  lemma {:induction false} WalkPreorder(t: Tensor, G: set<GradNode>)
    requires Closed(G) && (t.node != null ==> t.node in G)
    decreases Depth(t), 1
    ensures (Walk(t, G) == []) == (t.node == null)
    ensures Walk(t, G) != [] ==> Walk(t, G)[0] == t
    ensures forall x | x in Walk(t, G) :: x.node != null && x.node in G
    ensures forall k | 0 < k < |Walk(t, G)| :: Depth(Walk(t, G)[k]) < Depth(t)
  {
    if t.node != null {
      WalkFromBelow(t.node, 0, G);
      var w := Walk(t, G);
      assert w == [t] + WalkFrom(t.node, 0, G);
      forall k | 0 < k < |w|
        ensures Depth(w[k]) < Depth(t)
      {
        assert w[k] in WalkFrom(t.node, 0, G);
      }
    }
  }

  /** Every tensor in the walks from n's inputs has a node in G no deeper
      than n. */
  lemma {:induction false} WalkFromBelow(n: GradNode, k: nat, G: set<GradNode>)
    requires Closed(G) && n in G && k <= |n.inputs|
    decreases n.depth + 1, 0, |n.inputs| - k
    ensures forall x | x in WalkFrom(n, k, G) :: x.node != null && x.node in G && Depth(x) <= n.depth
  {
    if k < |n.inputs| {
      var t := n.inputs[k];
      assert t.node != null ==> t.node in G && t.node.depth < n.depth;
      WalkPreorder(t, G);
      WalkFromBelow(n, k + 1, G);
      forall x | x in Walk(t, G)
        ensures Depth(x) <= n.depth
      {
        var i :| 0 <= i < |Walk(t, G)| && Walk(t, G)[i] == x;
        if i == 0 {
          assert x == t;
        }
      }
    }
  }

  lemma WalkFromStep(n: GradNode, k: nat, G: set<GradNode>)
    requires Closed(G) && n in G && k < |n.inputs|
    ensures WalkFrom(n, k, G) == Walk(n.inputs[k], G) + WalkFrom(n, k + 1, G)
  {
  }

  /** Tensor_backward_apply: 0 without a node, otherwise 1 plus the counts
      of the inputs' walks. `visit` says whether a visitor was passed;
      `visited` lists the tensors it receives, self before inputs. */
  method BackwardApply(t: Tensor, visit: bool, ghost G: set<GradNode>) returns (count: int, visited: seq<Tensor>)
    requires Closed(G) && (t.node != null ==> t.node in G)
    decreases Depth(t), 1
    ensures count == |Walk(t, G)|
    ensures visited == if visit then Walk(t, G) else []
  {
    if t.node == null {
      return 0, [];
    }
    var n := t.node;
    assert Walk(t, G) == [t] + WalkFrom(n, 0, G);
    ghost var done := [t];
    visited := if visit then [t] else [];
    count := 1;
    for i := 0 to |n.inputs|
      invariant done + WalkFrom(n, i, G) == Walk(t, G)
      invariant count == |done|
      invariant visited == if visit then done else []
    {
      assert n.inputs[i].node != null ==> n.inputs[i].node in G && n.inputs[i].node.depth < n.depth;
      ghost var w, rest := Walk(n.inputs[i], G), WalkFrom(n, i + 1, G);
      WalkFromStep(n, i, G);
      assert (done + w) + rest == done + (w + rest);
      var c, v := BackwardApply(n.inputs[i], visit, G);
      done := done + w;
      count := count + c;
      visited := visited + v;
    }
    assert WalkFrom(n, |n.inputs|, G) == [];
    assert done == Walk(t, G);
  }
}
