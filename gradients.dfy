/** The symbolic gradient rules. Given the input nodes `x` of a step, its output node `y`
    and the node `gy` holding the gradient arriving at `y`, a rule returns one node per
    input, built with the ordinary node sugar, so it appends steps to the same graph and
    can itself be differentiated. */
module GradientRules {
  import opened Results
  import opened Tensors
  import opened Operators
  import opened Graphs
  import opened Values
  import opened Nodes
  import opened Vectors

  /** What every rule is given, stated on the steps `s` of `y`'s graph: `y` names an
      existing well-formed step, `x` are that step's input nodes in input order, and the
      incoming gradient `gy` is on the same graph with `y`'s shape and hardware. */
  ghost predicate RuleInputs(s: seq<Step>, x: seq<Node>, y: Node, gy: Node)
  {
    && WellFormed(s) && y.address < |s| && gy.address < |s| && gy.graph == y.graph
    && StepOk(s, y.address)
    && |x| == |s[y.address].inputs|
    && (forall p :: 0 <= p < |x| ==> x[p] == Node(y.graph, s[y.address].inputs[p]))
    && s[gy.address].shape == s[y.address].shape
    && s[gy.address].hw == s[y.address].hw
  }

  ghost predicate RuleArgs(x: seq<Node>, y: Node, gy: Node)
    reads y.graph
  {
    y.graph.Valid() && RuleInputs(y.graph.steps, x, y, gy)
  }

  /** What every rule promises, between the steps `s0` it was given and the steps `s1` it
      leaves: one node per input of `y`'s operator, each on `y`'s graph with `y`'s shape and
      hardware, whose elements are those of `gy` times the operator's local partials with
      respect to that input (lemma Operators.ScaledPartialAt states this element by element); and
      wherever `y` and `gy` evaluate, so does each returned node. */
  ghost predicate RuleResult(y: Node, gy: Node, s0: seq<Step>, s1: seq<Step>, gx: seq<Node>)
    requires WellFormed(s0) && WellFormed(s1) && y.address < |s0| && gy.address < |s0|
  {
    assert StepOk(s0, y.address);
    var op := s0[y.address].op;
    && |gx| == InputSize(op)
    && (forall p :: 0 <= p < |gx| ==>
          && gx[p].graph == y.graph && gx[p].address < |s1|
          && s1[gx[p].address].shape == s0[y.address].shape
          && s1[gx[p].address].hw == s0[y.address].hw
          && Vals(s1, gx[p].address) == MulVals(Vals(s0, gy.address), PartialVals(op, ArgVals(s0, y.address), p)))
    && (Defined(s0, y.address) && Defined(s0, gy.address) ==>
          forall p :: 0 <= p < |gx| ==> Defined(s1, gx[p].address))
  }

  /** RuleResult for a one-input operator, from the facts about the one result. */
  lemma {:induction false} ResultOfOne(y: Node, gy: Node, s0: seq<Step>, s1: seq<Step>, r: Node)
    requires WellFormed(s0) && WellFormed(s1) && y.address < |s0| && gy.address < |s0|
    requires StepOk(s0, y.address) && |s0[y.address].inputs| == 1
    requires r.graph == y.graph && r.address < |s1|
    requires s1[r.address].shape == s0[y.address].shape && s1[r.address].hw == s0[y.address].hw
    requires Vals(s1, r.address) == MulVals(Vals(s0, gy.address), PartialVals(s0[y.address].op, ArgVals(s0, y.address), 0))
    requires Defined(s0, y.address) && Defined(s0, gy.address) ==> Defined(s1, r.address)
    ensures RuleResult(y, gy, s0, s1, [r])
  {
  }

  /** RuleResult for a two-input operator, from the facts about the two results. */
  lemma {:induction false} ResultOfTwo(y: Node, gy: Node, s0: seq<Step>, s1: seq<Step>, r0: Node, r1: Node)
    requires WellFormed(s0) && WellFormed(s1) && y.address < |s0| && gy.address < |s0|
    requires StepOk(s0, y.address) && |s0[y.address].inputs| == 2
    requires r0.graph == y.graph && r0.address < |s1| && r1.graph == y.graph && r1.address < |s1|
    requires s1[r0.address].shape == s0[y.address].shape && s1[r0.address].hw == s0[y.address].hw
    requires s1[r1.address].shape == s0[y.address].shape && s1[r1.address].hw == s0[y.address].hw
    requires Vals(s1, r0.address) == MulVals(Vals(s0, gy.address), PartialVals(s0[y.address].op, ArgVals(s0, y.address), 0))
    requires Vals(s1, r1.address) == MulVals(Vals(s0, gy.address), PartialVals(s0[y.address].op, ArgVals(s0, y.address), 1))
    requires Defined(s0, y.address) && Defined(s0, gy.address) ==> Defined(s1, r0.address) && Defined(s1, r1.address)
    ensures RuleResult(y, gy, s0, s1, [r0, r1])
  {
  }

  /** Add: both results are `gy` itself; its local partials are all ones. */
  lemma {:induction false} AddRule(s: seq<Step>, x: seq<Node>, y: Node, gy: Node)
    requires RuleInputs(s, x, y, gy) && s[y.address].op.Add?
    ensures RuleResult(y, gy, s, s, [gy, gy])
  {
    InputsOf(s, y.address);
    MulOne(Vals(s, gy.address));
    ResultOfTwo(y, gy, s, s, gy, gy);
  }

  lemma {:induction false} SubRule(s0: seq<Step>, s1: seq<Step>, x: seq<Node>, y: Node, gy: Node)
    requires RuleInputs(s0, x, y, gy) && s0[y.address].op.Sub? && WellFormed(s1)
    requires s1 == s0 + [Step(Operators.Neg, [gy.address], s0[y.address].shape, s0[y.address].hw)]
    ensures RuleResult(y, gy, s0, s1, [gy, Node(y.graph, |s0|)])
  {
    InputsOf(s0, y.address);
    ValsPrefix(s0, s1, gy.address);
    UnaryStep(s1, |s0|, gy.address);
    MulOne(Vals(s0, gy.address));
    MulMinusOne(Vals(s0, gy.address));
    ResultOfTwo(y, gy, s0, s1, gy, Node(y.graph, |s0|));
  }

  lemma {:induction false} MulRule(s0: seq<Step>, s1: seq<Step>, x: seq<Node>, y: Node, gy: Node)
    requires RuleInputs(s0, x, y, gy) && s0[y.address].op.Mul? && WellFormed(s1)
    requires s1 == s0 + [Step(Operators.Mul, [gy.address, x[1].address], s0[y.address].shape, s0[y.address].hw),
                         Step(Operators.Mul, [gy.address, x[0].address], s0[y.address].shape, s0[y.address].hw)]
    ensures RuleResult(y, gy, s0, s1, [Node(y.graph, |s0|), Node(y.graph, |s0| + 1)])
  {
    var n := |s0|;
    var a, b, g := x[0].address, x[1].address, gy.address;
    assert Prefix(s0, s1) by { assert s1[..n] == s0; }
    BinaryStep(s0, y.address, Operators.Mul, a, b);
    MulStep(s0, s1, n, g, b);
    MulStep(s0, s1, n + 1, g, a);
    ResultOfTwo(y, gy, s0, s1, Node(y.graph, n), Node(y.graph, n + 1));
  }

  /** An appended product step `g * b` holds the elementwise product of `g` and `b`, and
      is defined when both are. */
  lemma {:induction false} MulStep(s0: seq<Step>, s1: seq<Step>, i: nat, g: nat, b: nat)
    requires WellFormed(s0) && WellFormed(s1) && Prefix(s0, s1) && g < |s0| && b < |s0| && |s0| <= i < |s1|
    requires s1[i].op == Operators.Mul && s1[i].inputs == [g, b]
    ensures s1[i].shape == s0[g].shape
    ensures Vals(s1, i) == MulVals(Vals(s0, g), Vals(s0, b))
    ensures Defined(s0, g) && Defined(s0, b) ==> Defined(s1, i)
  {
    BinaryStep(s1, i, Operators.Mul, g, b);
    ValsPrefix(s0, s1, g);
    ValsPrefix(s0, s1, b);
  }


  lemma {:induction false} DivRule(s0: seq<Step>, s1: seq<Step>, x: seq<Node>, y: Node, gy: Node)
    requires RuleInputs(s0, x, y, gy) && s0[y.address].op.Div? && WellFormed(s1)
    requires var n := |s0|; var sh := s0[y.address].shape; var hw := s0[y.address].hw;
      s1 == s0 + [Step(Operators.Div, [gy.address, x[1].address], sh, hw),
                  Step(Operators.Neg, [y.address], sh, hw),
                  Step(Operators.Mul, [n + 1, n], sh, hw)]
    ensures RuleResult(y, gy, s0, s1, [Node(y.graph, |s0|), Node(y.graph, |s0| + 2)])
  {
    var n := |s0|;
    BinaryStep(s0, y.address, Operators.Div, x[0].address, x[1].address);
    DivRuleLeft(s0, s1, x, y, gy);
    DivRuleRight(s0, s1, x, y, gy);
    ResultOfTwo(y, gy, s0, s1, Node(y.graph, n), Node(y.graph, n + 2));
  }

  /** Div, first input: `gy / b` has `gy` times the partial 1 / b. */
  lemma {:induction false} DivRuleLeft(s0: seq<Step>, s1: seq<Step>, x: seq<Node>, y: Node, gy: Node)
    requires RuleInputs(s0, x, y, gy) && s0[y.address].op.Div? && WellFormed(s1)
    requires var n := |s0|; var sh := s0[y.address].shape; var hw := s0[y.address].hw;
      s1 == s0 + [Step(Operators.Div, [gy.address, x[1].address], sh, hw),
                  Step(Operators.Neg, [y.address], sh, hw),
                  Step(Operators.Mul, [n + 1, n], sh, hw)]
    ensures s1[|s0|].shape == s0[y.address].shape && s1[|s0|].hw == s0[y.address].hw
    ensures Vals(s1, |s0|) == MulVals(Vals(s0, gy.address), PartialVals(Operators.Div, ArgVals(s0, y.address), 0))
    ensures Defined(s0, y.address) && Defined(s0, gy.address) ==> Defined(s1, |s0|)
  {
    var n := |s0|;
    var a, b, g := x[0].address, x[1].address, gy.address;
    BinaryStep(s0, y.address, Operators.Div, a, b);
    BinaryStep(s1, n, Operators.Div, g, b);
    ValsPrefix(s0, s1, b);
    ValsPrefix(s0, s1, g);
    DivAsMul(Vals(s0, g), Vals(s0, b));
  }

  /** Div, second input: `(-y) * (gy / b)` has `gy` times the partial -(a / (b * b)). */
  lemma {:induction false} DivRuleRight(s0: seq<Step>, s1: seq<Step>, x: seq<Node>, y: Node, gy: Node)
    requires RuleInputs(s0, x, y, gy) && s0[y.address].op.Div? && WellFormed(s1)
    requires var n := |s0|; var sh := s0[y.address].shape; var hw := s0[y.address].hw;
      s1 == s0 + [Step(Operators.Div, [gy.address, x[1].address], sh, hw),
                  Step(Operators.Neg, [y.address], sh, hw),
                  Step(Operators.Mul, [n + 1, n], sh, hw)]
    ensures s1[|s0| + 2].shape == s0[y.address].shape && s1[|s0| + 2].hw == s0[y.address].hw
    ensures Vals(s1, |s0| + 2) == MulVals(Vals(s0, gy.address), PartialVals(Operators.Div, ArgVals(s0, y.address), 1))
    ensures Defined(s0, y.address) && Defined(s0, gy.address) ==> Defined(s1, |s0| + 2)
  {
    var n := |s0|;
    var a, b, g := x[0].address, x[1].address, gy.address;
    var G, A, B := Vals(s0, g), Vals(s0, a), Vals(s0, b);
    BinaryStep(s0, y.address, Operators.Div, a, b);
    BinaryStep(s1, n, Operators.Div, g, b);
    UnaryStep(s1, n + 1, y.address);
    BinaryStep(s1, n + 2, Operators.Mul, n + 1, n);
    ValsPrefix(s0, s1, a);
    ValsPrefix(s0, s1, b);
    ValsPrefix(s0, s1, g);
    ValsPrefix(s0, s1, y.address);
    QuotientRight(G, A, B);
  }


  lemma {:induction false} NegRule(s0: seq<Step>, s1: seq<Step>, x: seq<Node>, y: Node, gy: Node)
    requires RuleInputs(s0, x, y, gy) && s0[y.address].op.Neg? && WellFormed(s1)
    requires s1 == s0 + [Step(Operators.Neg, [gy.address], s0[y.address].shape, s0[y.address].hw)]
    ensures RuleResult(y, gy, s0, s1, [Node(y.graph, |s0|)])
  {
    InputsOf(s0, y.address);
    ValsPrefix(s0, s1, gy.address);
    UnaryStep(s1, |s0|, gy.address);
    MulMinusOne(Vals(s0, gy.address));
    ResultOfOne(y, gy, s0, s1, Node(y.graph, |s0|));
  }


  /** Add: `[gy, gy]`; nothing is appended. */
  method AddGradient(x: seq<Node>, y: Node, gy: Node) returns (gx: seq<Node>)
    requires RuleArgs(x, y, gy) && y.graph.steps[y.address].op.Add?
    ensures gx == [gy, gy]
    ensures RuleResult(y, gy, y.graph.steps, y.graph.steps, gx)
  {
    gx := [gy, gy];
    AddRule(y.graph.steps, x, y, gy);
  }

  /** Sub: `[gy, -gy]`; the first is the incoming node itself, the second one new Neg step. */
  method SubGradient(x: seq<Node>, y: Node, gy: Node) returns (gx: seq<Node>)
    requires RuleArgs(x, y, gy) && y.graph.steps[y.address].op.Sub?
    modifies y.graph
    ensures y.graph.Valid()
    ensures y.graph.steps == old(y.graph.steps) + [Step(Operators.Neg, [gy.address], old(ShapeOf(y)), old(HardwareOf(y)))]
    ensures y.graph.cache == old(y.graph.cache) + [None]
    ensures gx == [gy, Node(y.graph, |old(y.graph.steps)|)]
    ensures RuleResult(y, gy, old(y.graph.steps), y.graph.steps, gx)
  {
    ghost var s0 := y.graph.steps;
    var n := Nodes.Neg(gy);
    gx := [gy, n];
    SubRule(s0, y.graph.steps, x, y, gy);
  }

  /** Mul: `[gy * x[1], gy * x[0]]`, two new Mul steps. */
  method MulGradient(x: seq<Node>, y: Node, gy: Node) returns (gx: seq<Node>)
    requires RuleArgs(x, y, gy) && y.graph.steps[y.address].op.Mul?
    modifies y.graph
    ensures y.graph.Valid()
    ensures y.graph.steps == old(y.graph.steps)
              + [Step(Operators.Mul, [gy.address, x[1].address], old(ShapeOf(y)), old(HardwareOf(y))),
                 Step(Operators.Mul, [gy.address, x[0].address], old(ShapeOf(y)), old(HardwareOf(y)))]
    ensures y.graph.cache == old(y.graph.cache) + [None, None]
    ensures gx == [Node(y.graph, |old(y.graph.steps)|), Node(y.graph, |old(y.graph.steps)| + 1)]
    ensures RuleResult(y, gy, old(y.graph.steps), y.graph.steps, gx)
  {
    ghost var s0 := y.graph.steps;
    InputsAgree(s0, y.address, 0);
    InputsAgree(s0, y.address, 1);
    var a := Nodes.Mul(gy, x[1]);
    var b := Nodes.Mul(gy, x[0]);
    gx := [a.value, b.value];
    MulRule(s0, y.graph.steps, x, y, gy);
  }

  /** Div: `gx0 = gy / x[1]` and `-y * gx0`: a Div, a Neg and a Mul step. */
  method DivGradient(x: seq<Node>, y: Node, gy: Node) returns (gx: seq<Node>)
    requires RuleArgs(x, y, gy) && y.graph.steps[y.address].op.Div?
    modifies y.graph
    ensures y.graph.Valid()
    ensures var n := |old(y.graph.steps)|;
      && y.graph.steps == old(y.graph.steps)
           + [Step(Operators.Div, [gy.address, x[1].address], old(ShapeOf(y)), old(HardwareOf(y))),
              Step(Operators.Neg, [y.address], old(ShapeOf(y)), old(HardwareOf(y))),
              Step(Operators.Mul, [n + 1, n], old(ShapeOf(y)), old(HardwareOf(y)))]
      && gx == [Node(y.graph, n), Node(y.graph, n + 2)]
    ensures y.graph.cache == old(y.graph.cache) + [None, None, None]
    ensures RuleResult(y, gy, old(y.graph.steps), y.graph.steps, gx)
  {
    ghost var s0 := y.graph.steps;
    InputsAgree(s0, y.address, 1);
    var q := Nodes.Div(gy, x[1]);
    var gx0 := q.value;
    var t := Nodes.Neg(y);
    var m := Nodes.Mul(t, gx0);
    gx := [gx0, m.value];
    DivRule(s0, y.graph.steps, x, y, gy);
  }

  /** Neg: `[-gy]`, one new Neg step. */
  method NegGradient(x: seq<Node>, y: Node, gy: Node) returns (gx: seq<Node>)
    requires RuleArgs(x, y, gy) && y.graph.steps[y.address].op.Neg?
    modifies y.graph
    ensures y.graph.Valid()
    ensures y.graph.steps == old(y.graph.steps) + [Step(Operators.Neg, [gy.address], old(ShapeOf(y)), old(HardwareOf(y)))]
    ensures y.graph.cache == old(y.graph.cache) + [None]
    ensures gx == [Node(y.graph, |old(y.graph.steps)|)]
    ensures RuleResult(y, gy, old(y.graph.steps), y.graph.steps, gx)
  {
    ghost var s0 := y.graph.steps;
    var n := Nodes.Neg(gy);
    gx := [n];
    NegRule(s0, y.graph.steps, x, y, gy);
  }

  /** Dispatch on the operator of `y`'s step. A Constant has no inputs, so no gradients. */
  method Gradient(x: seq<Node>, y: Node, gy: Node) returns (gx: seq<Node>)
    requires RuleArgs(x, y, gy)
    modifies y.graph
    ensures y.graph.Valid()
    ensures Prefix(old(y.graph.steps), y.graph.steps)
    ensures RuleResult(y, gy, old(y.graph.steps), y.graph.steps, gx)
  {
    match y.graph.steps[y.address].op {
      case Constant(_) =>
        gx := [];
      case Add => gx := AddGradient(x, y, gy);
      case Sub => gx := SubGradient(x, y, gy);
      case Mul => gx := MulGradient(x, y, gy);
      case Div => gx := DivGradient(x, y, gy);
      case Neg => gx := NegGradient(x, y, gy);
    }
  }
}
