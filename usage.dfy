/** Operators followed by Tensor_backward, as a program using the library
    calls them: which gradients the leaves end up holding. */
module Usage {
  import opened Outcomes
  import opened Shapes
  import opened Tensors
  import opened Operators
  import opened Autograd

  /** A leaf that records gradients: Tensor_new with requires_grad, its
      node joined to the graph G and its buffer to B. */
  method Leaf(shape: Shape, ghost G: set<GradNode>, ghost B: set<FloatBuffer>)
    returns (x: Tensor, ghost G': set<GradNode>, ghost B': set<FloatBuffer>)
    requires ValidShape(shape) && GraphInvariant(G, B)
    ensures Valid(x) && x.shape == shape && x.node != null && fresh(x.node) && fresh(x.data)
    ensures x.node.inputs == [] && x.node.grad == None && x.node.gradFn == NoGradFn && x.node.depth == 0
    ensures G' == G + {x.node} && B' == B + {x.data} && GraphInvariant(G', B')
  {
    x := New(shape, true);
    AttachKeepsInvariant(G, B, x, [], NoGradFn);
    G', B' := G + {x.node}, B + {x.data};
  }

  /** After a completed backward from t, an isolated input whose node held
      no gradient before holds exactly what it was handed. */
  lemma IsolatedLeafReceives(t: Tensor, G: set<GradNode>, v: RuleView, h: GradView,
                             g0: map<GradNode, Option<Tensor>>, s0: map<GradNode, Option<GradView>>,
                             locals: seq<seq<real>>, downs: seq<GradView>, k: nat)
    requires Closed(G) && t.node != null && t.node in G && k < |t.node.inputs|
    requires Delivered(t, G, v, h, g0, s0, |t.node.inputs|, locals, downs)
    requires Isolated(t, k) && t.node.inputs[k].node in s0 && s0[t.node.inputs[k].node] == None
    ensures k < |downs| && Handed(v, h, k, locals[k], downs[k])
    ensures StoredView(t.node.inputs[k].node) == Some(downs[k])
  {
    var n := t.node.inputs[k].node;
    assert n in G;
    assert StoredViews(G)[n] == StoredView(n);
  }

  /** c = a + b over two fresh leaves of the same shape, with everything
      backward one level deep needs: no gradient stored yet, and the two
      leaves on distinct nodes. */
  method BuildAdd(shape: Shape, ghost G: set<GradNode>, ghost B: set<FloatBuffer>)
    returns (a: Tensor, b: Tensor, c: Tensor, ghost G': set<GradNode>, ghost B': set<FloatBuffer>)
    requires ValidShape(shape) && GraphInvariant(G, B)
    ensures a.node != null && b.node != null && c.node != null
    ensures fresh(a.node) && fresh(b.node) && fresh(c.node) && fresh(a.data) && fresh(b.data)
    ensures G' == G + {a.node, b.node, c.node} && B' == B + {a.data, b.data} && GraphInvariant(G', B')
    ensures Valid(c) && c.shape == shape && a.shape == shape && b.shape == shape
    ensures c.node.inputs == [a, b] && c.node.gradFn == AddGrad && c.node.grad == None
    ensures a.node.grad == None && b.node.grad == None
    ensures Isolated(c, 0) && Isolated(c, 1) && OneLevel(c, shape)
  {
    ghost var G1, B1, G2;
    a, G1, B1 := Leaf(shape, G, B);
    b, G2, B' := Leaf(shape, G1, B1);
    var r := Add(a, b);
    c := r.value;
    AttachKeepsInvariant(G2, B', c, [a, b], AddGrad);
    G' := G2 + {c.node};
    AddOfLeavesOneLevel(c, shape);
  }

  /** Backward from the sum of two distinct fresh leaves of one shape, with
      a stored gradient of that shape, goes one level deep and succeeds. */
  lemma AddOfLeavesOneLevel(c: Tensor, shape: Shape)
    requires c.node != null && c.node.gradFn == AddGrad && |c.node.inputs| == 2
    requires var a, b := c.node.inputs[0], c.node.inputs[1];
             && a.shape == shape && b.shape == shape
             && a.node != null && b.node != null && a.node != b.node
             && a.node.depth == 0 && b.node.depth == 0
             && a.node.inputs == [] && b.node.inputs == [] && a.node.grad == None && b.node.grad == None
    ensures Isolated(c, 0) && Isolated(c, 1) && OneLevel(c, shape)
  {
  }

  /** c = a + b for two leaves, then backward from c with seed s: c keeps
      s, and a and b each receive s as it is (lifted to shape (1) when s
      is a scalar). */
  method AddBackward(shape: Shape, s: Tensor, ghost G: set<GradNode>, ghost B: set<FloatBuffer>)
    returns (a: Tensor, b: Tensor, c: Tensor, st: Status)
    requires ValidShape(shape) && GraphInvariant(G, B)
    requires Valid(s) && s.node == null && s.shape == shape
    modifies G`grad, B`refcount
    ensures st == Done
    ensures a.node != null && b.node != null && c.node != null && c.node.inputs == [a, b]
    ensures StoredView(c.node) == Some(GradOf(s))
    ensures StoredView(a.node) == Some(GradView(LiftedShape(shape), Values(s)))
    ensures StoredView(b.node) == Some(GradView(LiftedShape(shape), Values(s)))
  {
    ghost var G', B';
    a, b, c, G', B' := BuildAdd(shape, G, B);
    ghost var locals, downs;
    ghost var v := ViewOf(c);
    ghost var g0, s0 := StoredGrads(G'), StoredViews(G');
    assert s0[a.node] == None && s0[b.node] == None;
    st, locals, downs := Backward(c, Some(s), G', B');
    ghost var h := StoredView(c.node).value;
    IsolatedLeafReceives(c, G', v, h, g0, s0, locals, downs, 0);
    IsolatedLeafReceives(c, G', v, h, g0, s0, locals, downs, 1);
    HandedByRule(v, h, 0, locals[0], downs[0]);
    HandedByRule(v, h, 1, locals[1], downs[1]);
  }

  /** m = mean(a) over a fresh leaf of any shape, with nothing stored yet. */
  method BuildMean(shape: Shape, ghost G: set<GradNode>, ghost B: set<FloatBuffer>)
    returns (a: Tensor, m: Tensor, ghost G': set<GradNode>, ghost B': set<FloatBuffer>)
    requires ValidShape(shape) && GraphInvariant(G, B)
    ensures a.node != null && m.node != null
    ensures fresh(a.node) && fresh(m.node) && fresh(a.data)
    ensures G' == G + {a.node, m.node} && B' == B + {a.data} && GraphInvariant(G', B')
    ensures Valid(m) && m.shape == ScalarShape && m.data.numel == 1
    ensures m.node.inputs == [a] && m.node.gradFn == MeanGrad && m.node.grad == None && a.node.grad == None
    ensures Isolated(m, 0) && OneLevel(m, ScalarShape)
  {
    ghost var G1;
    a, G1, B' := Leaf(shape, G, B);
    m := Mean(a);
    AttachKeepsInvariant(G1, B', m, [a], MeanGrad);
    G' := G1 + {m.node};
    MeanGradIsOne(m);
  }

  /** m = mean(a) for a leaf a of any shape, then backward from m without a
      seed: m holds the scalar 1, and a receives the one-element gradient
      [1.0] of shape (1), whatever a's shape, since the mean rule is shaped
      like its scalar owner and fills in 1 / 1. */
  method MeanBackward(shape: Shape, ghost G: set<GradNode>, ghost B: set<FloatBuffer>)
    returns (a: Tensor, m: Tensor, st: Status)
    requires ValidShape(shape) && GraphInvariant(G, B)
    modifies G`grad, B`refcount
    ensures st == Done
    ensures a.node != null && m.node != null && m.node.inputs == [a]
    ensures StoredView(m.node) == Some(GradView(ScalarShape, [1.0]))
    ensures StoredView(a.node) == Some(GradView(LiftedShape(ScalarShape), [1.0]))
  {
    ghost var G', B';
    a, m, G', B' := BuildMean(shape, G, B);
    ghost var locals, downs;
    ghost var v := ViewOf(m);
    ghost var g0, s0 := StoredGrads(G'), StoredViews(G');
    assert s0[a.node] == None;
    st, locals, downs := Backward(m, None, G', B');
    ghost var h := StoredView(m.node).value;
    IsolatedLeafReceives(m, G', v, h, g0, s0, locals, downs, 0);
    MeanHandsOne(v, h, locals[0], downs[0]);
  }

  /** The mean rule of a one-element owner passes a stored scalar 1 on as
      the one-element gradient [1.0] of shape (1). */
  lemma MeanHandsOne(v: RuleView, h: GradView, local: seq<real>, down: GradView)
    requires v.fn == MeanGrad && v.ownerNumel == 1 && h == GradView(ScalarShape, [1.0])
    requires Handed(v, h, 0, local, down)
    ensures down == GradView(LiftedShape(ScalarShape), [1.0])
  {
    HandedByRule(v, h, 0, local, down);
    assert down.values == [1.0];
  }
}
