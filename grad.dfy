/** The reverse-mode gradient engine. `Grad(y, xs)` seeds the gradient of `y` with respect
    to itself with ones, visits the steps of `y`'s graph from `y` down to the first, hands
    every visited step's gradient to its operator's symbolic rule, and sums what arrives
    at each input address by appending Add steps. It answers, for each requested `x`, the
    accumulated node, or a new zero-filled Constant of `x`'s shape and hardware when
    nothing reached `x`. All gradients are ordinary steps of the same graph, so a result
    can itself be differentiated.

    Each result is proved to hold the derivative of `y` with respect to `x` given by
    forward-mode differentiation (Derivatives.Deriv), and to evaluate to it whenever `y`
    evaluates. */
module Autograd {
  import opened Results
  import opened Tensors
  import opened Operators
  import opened Graphs
  import opened Values
  import opened Nodes
  import opened GradientRules
  import opened Derivatives
  import opened Backprop

  /** Node `m` is a step of graph `g`'s steps `s` with shape `sh` and hardware `hw` whose
      elements are `v`, and which is defined when `def` holds. */
  ghost predicate Carries(s: seq<Step>, g: Graph, m: Node, v: seq<real>, sh: Shape, hw: Hardware, def: bool)
    requires WellFormed(s)
  {
    && m.graph == g && m.address < |s|
    && s[m.address].shape == sh && s[m.address].hw == hw
    && Vals(s, m.address) == v
    && (def ==> Defined(s, m.address))
  }

  /** The accumulator `acc` of a sweep over `y`'s original steps `s0`, read in the current
      steps `s`: it holds a node for exactly the addresses that have an adjoint in `adj`,
      and that node carries the adjoint. Every such address has `y`'s shape and hardware,
      and is defined when `y` is. */
  ghost predicate AccOk(s0: seq<Step>, s: seq<Step>, g: Graph, y: nat, acc: map<nat, Node>, adj: Adjoints)
    requires WellFormed(s0) && WellFormed(s) && y < |s0|
  {
    && acc.Keys == adj.Keys
    && forall a :: a in acc ==>
         && a < |s0| && s0[a].shape == s0[y].shape && s0[a].hw == s0[y].hw
         && (Defined(s0, y) ==> Defined(s0, a))
         && Carries(s, g, acc[a], adj[a], s0[y].shape, s0[y].hw, Defined(s0, y))
  }

  /** Appending steps keeps what a node carries. */
  lemma {:induction false} CarriesPrefix(s: seq<Step>, t: seq<Step>, g: Graph, m: Node, v: seq<real>, sh: Shape, hw: Hardware, def: bool)
    requires WellFormed(s) && WellFormed(t) && Prefix(s, t)
    requires Carries(s, g, m, v, sh, hw, def)
    ensures Carries(t, g, m, v, sh, hw, def)
  {
    ValsPrefix(s, t, m.address);
  }

  /** Appending steps keeps the accumulator valid. */
  lemma {:induction false} AccOkPrefix(s0: seq<Step>, s: seq<Step>, t: seq<Step>, g: Graph, y: nat, acc: map<nat, Node>, adj: Adjoints)
    requires WellFormed(s0) && WellFormed(s) && WellFormed(t) && Prefix(s, t) && y < |s0|
    requires AccOk(s0, s, g, y, acc, adj)
    ensures AccOk(s0, t, g, y, acc, adj)
  {
    forall a | a in acc
      ensures Carries(t, g, acc[a], adj[a], s0[y].shape, s0[y].hw, Defined(s0, y))
    {
      CarriesPrefix(s, t, g, acc[a], adj[a], s0[y].shape, s0[y].hw, Defined(s0, y));
    }
  }

  /** A node that carries its elements evaluates to them wherever it is defined. */
  lemma {:induction false} CarriesEval(s: seq<Step>, g: Graph, m: Node, v: seq<real>, sh: Shape, hw: Hardware)
    requires WellFormed(s) && Carries(s, g, m, v, sh, hw, true)
    ensures Eval(s, m.address) == Ok(Array(sh, hw, v))
  {
    EvalVals(s, m.address);
  }

  /** A Constant step holds its array's elements and is always defined. */
  lemma {:induction false} ConstantStep(s: seq<Step>, i: nat)
    requires WellFormed(s) && i < |s| && s[i].op.Constant?
    ensures Vals(s, i) == s[i].op.value.vals && Defined(s, i)
  {
    ValsStep(s, i);
  }

  /** The reverse-mode gradients of `y` with respect to each of `xs`, in order. Fails
      with InvalidGraph, changing nothing, when some `x` is on another graph. */
  method Grad(y: Node, xs: seq<Node>) returns (r: Result<seq<Node>>)
    requires y.graph.Valid() && Live(y)
    requires forall q :: 0 <= q < |xs| && xs[q].graph == y.graph ==> Live(xs[q])
    modifies y.graph
    ensures y.graph.Valid() && Prefix(old(y.graph.steps), y.graph.steps)
    ensures r.Ok? <==> forall q :: 0 <= q < |xs| ==> xs[q].graph == y.graph
    ensures r.Err? ==> r.error == InvalidGraph && y.graph.steps == old(y.graph.steps) && y.graph.cache == old(y.graph.cache)
    ensures r.Ok? ==> |r.value| == |xs| && forall q :: 0 <= q < |xs| ==> xs[q].address < |old(y.graph.steps)|
    ensures r.Ok? ==> forall q :: 0 <= q < |xs| ==>
              var x := xs[q].address;
              && Carries(y.graph.steps, y.graph, r.value[q], Deriv(old(y.graph.steps), y.address, x),
                         old(y.graph.steps)[x].shape, old(y.graph.steps)[x].hw, Defined(old(y.graph.steps), y.address))
              && (Defined(old(y.graph.steps), y.address) ==>
                    Eval(y.graph.steps, r.value[q].address) ==
                      Ok(Array(old(y.graph.steps)[x].shape, old(y.graph.steps)[x].hw, Deriv(old(y.graph.steps), y.address, x))))
  {
    var checked := CheckGraph(y, xs);
    if checked.Err? {
      return Err(checked.error);
    }
    var g := y.graph;
    ghost var s0 := g.steps;
    var acc, adj := Seed(y);
    ghost var s1 := g.steps;
    acc, adj := Sweep(g, s0, y.address, acc, adj);
    ghost var s2 := g.steps;
    PrefixTrans(s0, s1, s2);
    SweptTangents(s0, y.address);
    var gx := Collect(g, s0, y.address, acc, adj, xs);
    PrefixTrans(s0, s2, g.steps);
    forall q | 0 <= q < |xs| && Defined(s0, y.address)
      ensures Eval(g.steps, gx[q].address) ==
                Ok(Array(s0[xs[q].address].shape, s0[xs[q].address].hw, Deriv(s0, y.address, xs[q].address)))
    {
      var x := xs[q].address;
      CarriesEval(g.steps, g, gx[q], Deriv(s0, y.address, x), s0[x].shape, s0[x].hw);
    }
    r := Ok(gx);
  }

  /** The seed: a new Constant of ones with `y`'s shape and hardware, as `y`'s gradient. */
  method Seed(y: Node) returns (acc: map<nat, Node>, ghost adj: Adjoints)
    requires y.graph.Valid() && Live(y)
    modifies y.graph
    ensures y.graph.Valid() && Prefix(old(y.graph.steps), y.graph.steps)
    ensures adj == Swept(old(y.graph.steps), y.address, y.address + 1)
    ensures AccOk(old(y.graph.steps), y.graph.steps, y.graph, y.address, acc, adj)
    ensures y.graph.steps == old(y.graph.steps)
              + [Step(Constant(Tensors.Fill(old(HardwareOf(y)), old(ShapeOf(y)), 1.0)), [], old(ShapeOf(y)), old(HardwareOf(y)))]
    ensures y.graph.cache == old(y.graph.cache) + [None]
    ensures acc == map[y.address := Node(y.graph, |old(y.graph.steps)|)]
  {
    ghost var s0 := y.graph.steps;
    var one := Nodes.Fill(HardwareOf(y), y.graph, ShapeOf(y), 1.0);
    ConstantStep(y.graph.steps, one.address);
    acc := map[y.address := one];
    adj := Swept(s0, y.address, y.address + 1);
  }

  /** The descending sweep over the addresses from `y` down to 0. */
  method Sweep(g: Graph, ghost s0: seq<Step>, y: nat, acc0: map<nat, Node>, ghost adj0: Adjoints)
    returns (acc: map<nat, Node>, ghost adj: Adjoints)
    requires g.Valid() && WellFormed(s0) && Prefix(s0, g.steps) && y < |s0|
    requires AccOk(s0, g.steps, g, y, acc0, adj0) && adj0 == Swept(s0, y, y + 1)
    modifies g
    ensures g.Valid() && Prefix(old(g.steps), g.steps)
    ensures AccOk(s0, g.steps, g, y, acc, adj) && adj == Swept(s0, y, 0)
  {
    acc, adj := acc0, adj0;
    var k: nat := y + 1;
    while k > 0
      invariant g.Valid() && Prefix(s0, g.steps) && Prefix(old(g.steps), g.steps) && k <= y + 1
      invariant AccOk(s0, g.steps, g, y, acc, adj) && adj == Swept(s0, y, k)
    {
      ghost var before := g.steps;
      acc, adj := SweepStep(g, s0, y, acc, adj, k);
      PrefixTrans(s0, before, g.steps);
      PrefixTrans(old(g.steps), before, g.steps);
      k := k - 1;
    }
  }

  /** One step of the sweep: address k - 1 is visited when it has received gradient, and
      skipped otherwise. */
  method SweepStep(g: Graph, ghost s0: seq<Step>, y: nat, acc0: map<nat, Node>, ghost adj0: Adjoints, k: nat)
    returns (acc: map<nat, Node>, ghost adj: Adjoints)
    requires g.Valid() && WellFormed(s0) && Prefix(s0, g.steps) && y < |s0| && 0 < k <= y + 1
    requires AccOk(s0, g.steps, g, y, acc0, adj0) && adj0 == Swept(s0, y, k)
    modifies g
    ensures g.Valid() && Prefix(old(g.steps), g.steps)
    ensures AccOk(s0, g.steps, g, y, acc, adj) && adj == Swept(s0, y, k - 1)
  {
    if k - 1 in acc0 {
      acc, adj := Visit(g, s0, y, acc0, adj0, k - 1);
    } else {
      acc, adj := acc0, adj0;
    }
  }

  /** Visits address `j`: asks its operator's rule for the gradients of its inputs and
      adds each to what its input address has accumulated. */
  method Visit(g: Graph, ghost s0: seq<Step>, y: nat, acc0: map<nat, Node>, ghost adj0: Adjoints, j: nat)
    returns (acc: map<nat, Node>, ghost adj: Adjoints)
    requires g.Valid() && WellFormed(s0) && Prefix(s0, g.steps) && y < |s0|
    requires AccOk(s0, g.steps, g, y, acc0, adj0) && j in acc0
    modifies g
    ensures g.Valid() && Prefix(old(g.steps), g.steps)
    ensures adj == ContributeAll(adj0, s0[j].inputs, Shares(s0, adj0, j))
    ensures AccOk(s0, g.steps, g, y, acc, adj)
  {
    ghost var cs := Shares(s0, adj0, j);
    var gx := Rule(g, s0, y, acc0, adj0, j);
    ghost var s1 := g.steps;
    PrefixTrans(s0, old(g.steps), s1);
    VisitInputs(s0, y, j);
    acc, adj := AccumulateAll(g, s0, y, acc0, adj0, g.steps[j].inputs, gx, cs);
    PrefixTrans(old(g.steps), s1, g.steps);
  }

  /** Nodes `gx[p..]` still to be added carry their shares `cs[p..]`. */
  ghost predicate Pending(s: seq<Step>, g: Graph, gx: seq<Node>, cs: seq<seq<real>>, p: nat, sh: Shape, hw: Hardware, def: bool)
    requires WellFormed(s) && |cs| == |gx|
  {
    forall q :: p <= q < |gx| ==> Carries(s, g, gx[q], cs[q], sh, hw, def)
  }

  /** Appending steps keeps the pending nodes' shares. */
  lemma {:induction false} PendingPrefix(s: seq<Step>, t: seq<Step>, g: Graph, gx: seq<Node>, cs: seq<seq<real>>, p: nat,
                                         sh: Shape, hw: Hardware, def: bool)
    requires WellFormed(s) && WellFormed(t) && Prefix(s, t) && |cs| == |gx|
    requires Pending(s, g, gx, cs, p, sh, hw, def)
    ensures Pending(t, g, gx, cs, p, sh, hw, def)
  {
    forall q | p <= q < |gx| ensures Carries(t, g, gx[q], cs[q], sh, hw, def) {
      CarriesPrefix(s, t, g, gx[q], cs[q], sh, hw, def);
    }
  }

  /** Adds each `gx[p]`, carrying `cs[p]`, to address `ins[p]`, in order. */
  method AccumulateAll(g: Graph, ghost s0: seq<Step>, y: nat, acc0: map<nat, Node>, ghost adj0: Adjoints,
                       ins: seq<nat>, gx: seq<Node>, ghost cs: seq<seq<real>>)
    returns (acc: map<nat, Node>, ghost adj: Adjoints)
    requires g.Valid() && WellFormed(s0) && Prefix(s0, g.steps) && y < |s0|
    requires AccOk(s0, g.steps, g, y, acc0, adj0)
    requires |gx| == |ins| && |cs| == |ins|
    requires forall q :: 0 <= q < |ins| ==>
               var a := ins[q];
               a < |s0| && s0[a].shape == s0[y].shape && s0[a].hw == s0[y].hw && (Defined(s0, y) ==> Defined(s0, a))
    requires Pending(g.steps, g, gx, cs, 0, s0[y].shape, s0[y].hw, Defined(s0, y))
    modifies g
    ensures g.Valid() && Prefix(old(g.steps), g.steps)
    ensures adj == ContributeAll(adj0, ins, cs)
    ensures AccOk(s0, g.steps, g, y, acc, adj)
  {
    acc, adj := acc0, adj0;
    var p := 0;
    while p < |ins|
      invariant g.Valid() && Prefix(s0, g.steps) && Prefix(old(g.steps), g.steps) && p <= |ins|
      invariant adj == ContributeAll(adj0, ins[..p], cs[..p])
      invariant AccOk(s0, g.steps, g, y, acc, adj)
      invariant Pending(g.steps, g, gx, cs, p, s0[y].shape, s0[y].hw, Defined(s0, y))
    {
      ghost var before := g.steps;
      acc, adj := Accumulate(g, s0, y, acc, adj, ins[p], gx[p], cs[p]);
      PrefixTrans(s0, before, g.steps);
      PrefixTrans(old(g.steps), before, g.steps);
      PendingPrefix(before, g.steps, g, gx, cs, p + 1, s0[y].shape, s0[y].hw, Defined(s0, y));
      ContributeAllSnoc(adj0, ins, cs, p);
      p := p + 1;
    }
    ContributeAllWhole(adj0, ins, cs);
  }

  /** The inputs of a visited address share `y`'s shape and hardware, and are defined
      when `y` is. */
  lemma {:induction false} VisitInputs(s0: seq<Step>, y: nat, j: nat)
    requires WellFormed(s0) && y < |s0| && j < |s0|
    requires s0[j].shape == s0[y].shape && s0[j].hw == s0[y].hw && (Defined(s0, y) ==> Defined(s0, j))
    ensures forall q :: 0 <= q < |s0[j].inputs| ==>
              var a := s0[j].inputs[q];
              a < |s0| && s0[a].shape == s0[y].shape && s0[a].hw == s0[y].hw && (Defined(s0, y) ==> Defined(s0, a))
  {
    ValsStep(s0, j);
  }

  /** Runs the rule of the operator at `j` on the gradient accumulated for `j`: one node
      per input of `j`, carrying its share. */
  method Rule(g: Graph, ghost s0: seq<Step>, y: nat, acc: map<nat, Node>, ghost adj: Adjoints, j: nat)
    returns (gx: seq<Node>)
    requires g.Valid() && WellFormed(s0) && Prefix(s0, g.steps) && y < |s0|
    requires AccOk(s0, g.steps, g, y, acc, adj) && j in acc
    modifies g
    ensures g.Valid() && Prefix(old(g.steps), g.steps)
    ensures AccOk(s0, g.steps, g, y, acc, adj)
    ensures g.steps[j] == s0[j] && |gx| == |s0[j].inputs|
    ensures forall q :: 0 <= q < |gx| ==>
              Carries(g.steps, g, gx[q], Shares(s0, adj, j)[q], s0[y].shape, s0[y].hw, Defined(s0, y))
  {
    ghost var s1 := g.steps;
    assert g.steps[j] == s0[j];
    var ins := g.steps[j].inputs;
    var x := seq(|ins|, p requires 0 <= p < |ins| => Node(g, ins[p]));
    InputsOf(s1, j);
    gx := Gradient(x, Node(g, j), acc[j]);
    AccOkPrefix(s0, s1, g.steps, g, y, acc, adj);
    RuleCarries(s0, s1, g.steps, g, y, acc[j], adj, j, gx);
  }

  /** What a rule returns, read as shares of the visited address's adjoint. */
  lemma {:induction false} RuleCarries(s0: seq<Step>, s1: seq<Step>, s2: seq<Step>, g: Graph, y: nat, gy: Node,
                                        adj: Adjoints, j: nat, gx: seq<Node>)
    requires WellFormed(s0) && WellFormed(s1) && WellFormed(s2) && Prefix(s0, s1) && Prefix(s1, s2)
    requires y < |s0| && j < |s0| && j in adj && gy.address < |s1|
    requires s0[j].shape == s0[y].shape && s0[j].hw == s0[y].hw && (Defined(s0, y) ==> Defined(s0, j))
    requires Carries(s1, g, gy, adj[j], s0[y].shape, s0[y].hw, Defined(s0, y))
    requires RuleResult(Node(g, j), gy, s1, s2, gx)
    ensures |gx| == |s0[j].inputs|
    ensures forall q :: 0 <= q < |gx| ==>
              Carries(s2, g, gx[q], Shares(s0, adj, j)[q], s0[y].shape, s0[y].hw, Defined(s0, y))
  {
    assert StepOk(s0, j);
    ArgValsPrefix(s0, s1, j);
    ValsPrefix(s0, s1, j);
  }

  /** Adds contribution `m`, carrying `c`, to address `a`: a new Add step when `a` has a
      gradient already, otherwise `m` becomes `a`'s gradient. */
  method Accumulate(g: Graph, ghost s0: seq<Step>, y: nat, acc0: map<nat, Node>, ghost adj0: Adjoints,
                    a: nat, m: Node, ghost c: seq<real>)
    returns (acc: map<nat, Node>, ghost adj: Adjoints)
    requires g.Valid() && WellFormed(s0) && Prefix(s0, g.steps) && y < |s0|
    requires AccOk(s0, g.steps, g, y, acc0, adj0)
    requires a < |s0| && s0[a].shape == s0[y].shape && s0[a].hw == s0[y].hw && (Defined(s0, y) ==> Defined(s0, a))
    requires Carries(g.steps, g, m, c, s0[y].shape, s0[y].hw, Defined(s0, y))
    modifies g
    ensures g.Valid() && Prefix(old(g.steps), g.steps)
    ensures adj == Contribute(adj0, a, c)
    ensures AccOk(s0, g.steps, g, y, acc, adj)
    ensures a !in acc0 ==> acc == acc0[a := m] && g.steps == old(g.steps) && g.cache == old(g.cache)
    ensures a in acc0 ==>
              && g.steps == old(g.steps) + [Step(Operators.Add, [acc0[a].address, m.address], s0[y].shape, s0[y].hw)]
              && g.cache == old(g.cache) + [None]
              && acc == acc0[a := Node(g, |old(g.steps)|)]
  {
    adj := Contribute(adj0, a, c);
    if a in acc0 {
      ghost var before, cache := g.steps, g.cache;
      var t := Nodes.Add(acc0[a], m);
      AddCarries(s0, before, g.steps, g, y, acc0, adj0, a, m, c, cache, g.cache, t);
      acc := acc0[a := t.value];
    } else {
      AccOkSet(s0, g.steps, g, y, acc0, adj0, a, m, c);
      acc := acc0[a := m];
    }
  }

  /** The Add step that sums `a`'s gradient with a node carrying `c` carries the sum of
      `a`'s adjoint and `c`. */
  lemma {:induction false} AddCarries(s0: seq<Step>, s: seq<Step>, t: seq<Step>, g: Graph, y: nat,
                                       acc: map<nat, Node>, adj: Adjoints, a: nat, m: Node, c: seq<real>,
                                       c0: seq<Option<Array>>, c1: seq<Option<Array>>, r: Result<Node>)
    requires WellFormed(s0) && WellFormed(s) && WellFormed(t) && y < |s0|
    requires AccOk(s0, s, g, y, acc, adj) && a in acc
    requires Carries(s, g, m, c, s0[y].shape, s0[y].hw, Defined(s0, y))
    requires Combined(Operators.Add, acc[a], m, s, c0, t, c1, r)
    ensures r.Ok? && Prefix(s, t)
    ensures AccOk(s0, t, g, y, acc[a := r.value], Contribute(adj, a, c))
  {
    assert r.Ok?;
    assert Prefix(s, t) by { assert t[..|s|] == s; }
    var i := |s|;
    var sh, hw, def := s0[y].shape, s0[y].hw, Defined(s0, y);
    BinaryStep(t, i, Operators.Add, acc[a].address, m.address);
    ValsPrefix(s, t, acc[a].address);
    ValsPrefix(s, t, m.address);
    AccOkPrefix(s0, s, t, g, y, acc, adj);
    assert Carries(t, g, r.value, AddVals(adj[a], c), sh, hw, def);
    AccOkSet(s0, t, g, y, acc, adj, a, r.value, AddVals(adj[a], c));
  }

  /** Giving address `a`, of `y`'s shape and hardware and defined when `y` is, a node
      carrying `v` as its gradient keeps the accumulator valid. */
  lemma {:induction false} AccOkSet(s0: seq<Step>, s: seq<Step>, g: Graph, y: nat, acc: map<nat, Node>, adj: Adjoints,
                                     a: nat, m: Node, v: seq<real>)
    requires WellFormed(s0) && WellFormed(s) && y < |s0|
    requires AccOk(s0, s, g, y, acc, adj)
    requires a < |s0| && s0[a].shape == s0[y].shape && s0[a].hw == s0[y].hw && (Defined(s0, y) ==> Defined(s0, a))
    requires Carries(s, g, m, v, s0[y].shape, s0[y].hw, Defined(s0, y))
    ensures AccOk(s0, s, g, y, acc[a := m], adj[a := v])
  {
    var acc', adj' := acc[a := m], adj[a := v];
    forall b | b in acc'
      ensures && b < |s0| && s0[b].shape == s0[y].shape && s0[b].hw == s0[y].hw
              && (Defined(s0, y) ==> Defined(s0, b))
              && Carries(s, g, acc'[b], adj'[b], s0[y].shape, s0[y].hw, Defined(s0, y))
    {
      if b != a {
        assert acc'[b] == acc[b] && adj'[b] == adj[b];
      }
    }
  }

  /** The answers `gx` so far hold the derivatives for the first |gx| requested nodes. */
  ghost predicate Answered(s: seq<Step>, g: Graph, s0: seq<Step>, y: nat, xs: seq<Node>, gx: seq<Node>)
    requires WellFormed(s) && WellFormed(s0) && y < |s0| && |gx| <= |xs|
    requires forall q :: 0 <= q < |xs| ==> xs[q].address < |s0|
  {
    forall q :: 0 <= q < |gx| ==>
      Carries(s, g, gx[q], Deriv(s0, y, xs[q].address), s0[xs[q].address].shape, s0[xs[q].address].hw, Defined(s0, y))
  }

  /** Appending steps keeps the answers. */
  lemma {:induction false} AnsweredPrefix(s: seq<Step>, t: seq<Step>, g: Graph, s0: seq<Step>, y: nat, xs: seq<Node>, gx: seq<Node>)
    requires WellFormed(s) && WellFormed(t) && Prefix(s, t) && WellFormed(s0) && y < |s0| && |gx| <= |xs|
    requires forall q :: 0 <= q < |xs| ==> xs[q].address < |s0|
    requires Answered(s, g, s0, y, xs, gx)
    ensures Answered(t, g, s0, y, xs, gx)
  {
    forall q | 0 <= q < |gx|
      ensures Carries(t, g, gx[q], Deriv(s0, y, xs[q].address), s0[xs[q].address].shape, s0[xs[q].address].hw, Defined(s0, y))
    {
      CarriesPrefix(s, t, g, gx[q], Deriv(s0, y, xs[q].address), s0[xs[q].address].shape, s0[xs[q].address].hw, Defined(s0, y));
    }
  }

  /** An address that received gradient answers with its accumulated node, which carries
      the derivative. */
  lemma {:induction false} ReachedCarries(s0: seq<Step>, s: seq<Step>, g: Graph, y: nat, acc: map<nat, Node>, adj: Adjoints, x: nat)
    requires WellFormed(s0) && WellFormed(s) && y < |s0| && x < |s0|
    requires AccOk(s0, s, g, y, acc, adj) && x in acc
    requires Tan(s0, y, x) == Get(adj, x, NumElements(s0[y].shape))
    ensures Carries(s, g, acc[x], Deriv(s0, y, x), s0[x].shape, s0[x].hw, Defined(s0, y))
  {
  }

  /** An address that received nothing answers with a new Constant of zeros of its shape and
      hardware, which carries the derivative: zero, since nothing reached it. */
  lemma {:induction false} UnreachedCarries(s0: seq<Step>, s: seq<Step>, t: seq<Step>, g: Graph, y: nat, adj: Adjoints, x: nat)
    requires WellFormed(s0) && WellFormed(s) && WellFormed(t) && Prefix(s0, s) && y < |s0| && x < |s0| && x !in adj
    requires Tan(s0, y, x) == Get(adj, x, NumElements(s0[y].shape))
    requires t == s + [Step(Constant(Tensors.Fill(s[x].hw, s[x].shape, 0.0)), [], s[x].shape, s[x].hw)]
    ensures Prefix(s, t)
    ensures Carries(t, g, Node(g, |s|), Deriv(s0, y, x), s0[x].shape, s0[x].hw, Defined(s0, y))
  {
    assert Prefix(s, t) by { assert t[..|s|] == s; }
    assert s[x] == s0[x];
    ConstantStep(t, |s|);
  }

  /** The answer for each requested `x`: its accumulated gradient, or a new Constant of
      zeros with `x`'s shape and hardware when nothing reached `x`. */
  method Collect(g: Graph, ghost s0: seq<Step>, y: nat, acc: map<nat, Node>, ghost adj: Adjoints, xs: seq<Node>)
    returns (gx: seq<Node>)
    requires g.Valid() && WellFormed(s0) && Prefix(s0, g.steps) && y < |s0|
    requires AccOk(s0, g.steps, g, y, acc, adj)
    requires forall q :: 0 <= q < |xs| ==> xs[q].graph == g && xs[q].address < |s0|
    requires forall x :: 0 <= x < |s0| ==> Tan(s0, y, x) == Get(adj, x, NumElements(s0[y].shape))
    modifies g
    ensures g.Valid() && Prefix(old(g.steps), g.steps)
    ensures |gx| == |xs|
    ensures Answered(g.steps, g, s0, y, xs, gx)
  {
    gx := [];
    var q := 0;
    while q < |xs|
      invariant g.Valid() && Prefix(s0, g.steps) && Prefix(old(g.steps), g.steps) && q <= |xs|
      invariant AccOk(s0, g.steps, g, y, acc, adj)
      invariant |gx| == q
      invariant Answered(g.steps, g, s0, y, xs, gx)
    {
      var x := xs[q].address;
      var m: Node;
      if x in acc {
        m := acc[x];
        ReachedCarries(s0, g.steps, g, y, acc, adj, x);
      } else {
        ghost var before := g.steps;
        m := Nodes.Fill(HardwareOf(xs[q]), g, ShapeOf(xs[q]), 0.0);
        UnreachedCarries(s0, before, g.steps, g, y, adj, x);
        AccOkPrefix(s0, before, g.steps, g, y, acc, adj);
        AnsweredPrefix(before, g.steps, g, s0, y, xs, gx);
        PrefixTrans(s0, before, g.steps);
        PrefixTrans(old(g.steps), before, g.steps);
      }
      AnsweredSnoc(g.steps, g, s0, y, xs, gx, m);
      gx := gx + [m];
      q := q + 1;
    }
  }

  /** One more answer, for the next requested node. */
  lemma {:induction false} AnsweredSnoc(s: seq<Step>, g: Graph, s0: seq<Step>, y: nat, xs: seq<Node>, gx: seq<Node>, m: Node)
    requires WellFormed(s) && WellFormed(s0) && y < |s0| && |gx| < |xs|
    requires forall q :: 0 <= q < |xs| ==> xs[q].address < |s0|
    requires Answered(s, g, s0, y, xs, gx)
    requires Carries(s, g, m, Deriv(s0, y, xs[|gx|].address), s0[xs[|gx|].address].shape, s0[xs[|gx|].address].hw, Defined(s0, y))
    ensures Answered(s, g, s0, y, xs, gx + [m])
  {
    var gx' := gx + [m];
    forall q | 0 <= q < |gx'|
      ensures Carries(s, g, gx'[q], Deriv(s0, y, xs[q].address), s0[xs[q].address].shape, s0[xs[q].address].hw, Defined(s0, y))
    {
      if q < |gx| {
        assert gx'[q] == gx[q];
      }
    }
  }
}
