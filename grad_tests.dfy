/** The gradient tests of the node module, as methods. Each builds a graph of scalar
    constants with the node sugar, asks `Grad` for the gradients, evaluates them, and
    promises the arrays the test expects: rank 0, on the test's hardware, holding the
    expected derivative. The derivatives come from `Grad`'s contract; the lemmas beside
    each method compute forward mode's derivative on the test's concrete steps. */
module GradTests {
  import opened Results
  import opened Tensors
  import opened Operators
  import opened Graphs
  import opened Values
  import opened Derivatives
  import opened Nodes
  import opened Autograd
  import opened NodeTests

  /** Evaluates each node in turn, as a test does with `calculate`. */
  method CalculateAll(g: Graph, ns: seq<Node>) returns (r: seq<Result<Array>>)
    requires g.Valid() && forall q :: 0 <= q < |ns| ==> ns[q].graph == g && ns[q].address < |g.steps|
    modifies g`cache
    ensures g.Valid() && |r| == |ns|
    ensures forall q :: 0 <= q < |ns| ==> r[q] == Eval(g.steps, ns[q].address)
  {
    r := [];
    for q := 0 to |ns|
      invariant g.Valid() && |r| == q
      invariant forall p :: 0 <= p < q ==> r[p] == Eval(g.steps, ns[p].address)
    {
      var v := Calculate(ns[q]);
      r := r + [v];
    }
  }

  /** `grad(y, xs)` followed by evaluation of every gradient, for a defined y. */
  method GradAll(y: Node, xs: seq<Node>) returns (r: seq<Result<Array>>)
    requires y.graph.Valid() && Live(y) && Defined(y.graph.steps, y.address)
    requires forall q :: 0 <= q < |xs| ==> xs[q].graph == y.graph && xs[q].address < |y.graph.steps|
    modifies y.graph
    ensures |r| == |xs|
    ensures forall q :: 0 <= q < |xs| ==>
              var x := xs[q].address;
              r[q] == Ok(Array(old(y.graph.steps)[x].shape, old(y.graph.steps)[x].hw, Deriv(old(y.graph.steps), y.address, x)))
  {
    var gx := Grad(y, xs);
    r := CalculateAll(y.graph, gx.value);
  }

  /** `grad(x, [])` is the empty list. */
  method EmptyScenario(hw: Hardware) returns (r: Result<seq<Node>>)
    ensures r.Ok? && r.value == []
  {
    var g := new Graph();
    var x := FromScalar(hw, g, 42.0);
    r := Grad(x, []);
  }

  /** `grad(x, [x])` evaluates to the seed, 1. */
  method SelfScenario(hw: Hardware) returns (r: seq<Result<Array>>)
    ensures r == [Ok(Scalar(hw, 1.0))]
  {
    var g := new Graph();
    var x := FromScalar(hw, g, 42.0);
    ghost var s := g.steps;
    ConstFacts(s, 0, 0, hw, 42.0);
    r := GradAll(x, [x]);
    ScalarArray(hw, 1.0);
  }

  /** d(a * b)/da is b and d(a * b)/db is a. */
  lemma {:induction false} MulDerivs(s: seq<Step>, hw: Hardware, a: real, b: real)
    requires WellFormed(s)
    requires |s| == 3 && s[0] == Const(hw, a) && s[1] == Const(hw, b)
    requires s[2] == Step(Operators.Mul, [0, 1], [], hw)
    ensures Defined(s, 2)
    ensures Deriv(s, 2, 0) == [b] && Deriv(s, 2, 1) == [a]
  {
    ConstFacts(s, 0, 0, hw, a);
    ConstFacts(s, 1, 0, hw, b);
    ConstFacts(s, 0, 1, hw, a);
    ConstFacts(s, 1, 1, hw, b);
    BinaryStep(s, 2, Operators.Mul, 0, 1);
  }

  /** `grad(a * b, [a, b])` at (123, 456) evaluates to [456, 123]. */
  method MulScenario(hw: Hardware) returns (r: seq<Result<Array>>)
    ensures r == [Ok(Scalar(hw, 456.0)), Ok(Scalar(hw, 123.0))]
  {
    var g := new Graph();
    var a := FromScalar(hw, g, 123.0);
    var b := FromScalar(hw, g, 456.0);
    var y := Nodes.Mul(a, b);
    ghost var s := g.steps;
    MulDerivs(s, hw, 123.0, 456.0);
    r := GradAll(y.value, [a, b]);
    ScalarArray(hw, 456.0);
    ScalarArray(hw, 123.0);
  }

  /** `grad(y, [x])` for an unrelated constant y evaluates to 0. */
  method UnrelatedScenario(hw: Hardware) returns (r: seq<Result<Array>>)
    ensures r == [Ok(Scalar(hw, 0.0))]
  {
    var g := new Graph();
    var x := FromScalar(hw, g, 42.0);
    var y := FromScalar(hw, g, 42.0);
    ghost var s := g.steps;
    ConstFacts(s, 1, 0, hw, 42.0);
    r := GradAll(y, [x]);
    ScalarArray(hw, 0.0);
  }

  /** d(-x)/dx is -1. */
  lemma {:induction false} NegDerivs(s: seq<Step>, hw: Hardware, x: real)
    requires WellFormed(s)
    requires |s| == 2 && s[0] == Const(hw, x) && s[1] == Step(Operators.Neg, [0], [], hw)
    ensures Defined(s, 1)
    ensures Deriv(s, 1, 0) == [-1.0]
  {
    ConstFacts(s, 0, 0, hw, x);
    UnaryStep(s, 1, 0);
  }

  /** `grad(-x, [x])` evaluates to -1. */
  method NegScenario(hw: Hardware) returns (r: seq<Result<Array>>)
    ensures r == [Ok(Scalar(hw, -1.0))]
  {
    var g := new Graph();
    var x := FromScalar(hw, g, 42.0);
    var y := Nodes.Neg(x);
    ghost var s := g.steps;
    NegDerivs(s, hw, 42.0);
    r := GradAll(y, [x]);
    ScalarArray(hw, -1.0);
  }

  /** d(a + b)/da and d(a + b)/db are 1; d(a - b)/da is 1 and d(a - b)/db is -1. */
  lemma {:induction false} SumDerivs(s: seq<Step>, hw: Hardware, op: Op, a: real, b: real)
    requires op == Operators.Add || op == Operators.Sub
    requires WellFormed(s)
    requires |s| == 3 && s[0] == Const(hw, a) && s[1] == Const(hw, b)
    requires s[2] == Step(op, [0, 1], [], hw)
    ensures Defined(s, 2)
    ensures Deriv(s, 2, 0) == [1.0] && Deriv(s, 2, 1) == [if op.Add? then 1.0 else -1.0]
  {
    ConstFacts(s, 0, 0, hw, a);
    ConstFacts(s, 1, 0, hw, b);
    ConstFacts(s, 0, 1, hw, a);
    ConstFacts(s, 1, 1, hw, b);
    BinaryStep(s, 2, op, 0, 1);
  }

  /** `grad(a + b, [a, b])` evaluates to [1, 1]. */
  method AddScenario(hw: Hardware) returns (r: seq<Result<Array>>)
    ensures r == [Ok(Scalar(hw, 1.0)), Ok(Scalar(hw, 1.0))]
  {
    var g := new Graph();
    var a := FromScalar(hw, g, 123.0);
    var b := FromScalar(hw, g, 456.0);
    var y := Nodes.Add(a, b);
    ghost var s := g.steps;
    SumDerivs(s, hw, Operators.Add, 123.0, 456.0);
    r := GradAll(y.value, [a, b]);
    ScalarArray(hw, 1.0);
  }

  /** `grad(a - b, [a, b])` evaluates to [1, -1]. */
  method SubScenario(hw: Hardware) returns (r: seq<Result<Array>>)
    ensures r == [Ok(Scalar(hw, 1.0)), Ok(Scalar(hw, -1.0))]
  {
    var g := new Graph();
    var a := FromScalar(hw, g, 123.0);
    var b := FromScalar(hw, g, 456.0);
    var y := Nodes.Sub(a, b);
    ghost var s := g.steps;
    SumDerivs(s, hw, Operators.Sub, 123.0, 456.0);
    r := GradAll(y.value, [a, b]);
    ScalarArray(hw, 1.0);
    ScalarArray(hw, -1.0);
  }

  /** d(x * x)/dx is 2x: both operand positions contribute. */
  lemma {:induction false} SquareDeriv(s: seq<Step>, hw: Hardware, x: real)
    requires WellFormed(s)
    requires |s| == 2 && s[0] == Const(hw, x) && s[1] == Step(Operators.Mul, [0, 0], [], hw)
    ensures Defined(s, 1)
    ensures Deriv(s, 1, 0) == [2.0 * x]
  {
    ConstFacts(s, 0, 0, hw, x);
    BinaryStep(s, 1, Operators.Mul, 0, 0);
  }

  /** `grad(x * x, [x])` at 123 evaluates to 246. */
  method MulQuadraticScenario(hw: Hardware) returns (r: seq<Result<Array>>)
    ensures r == [Ok(Scalar(hw, 246.0))]
  {
    var g := new Graph();
    var x := FromScalar(hw, g, 123.0);
    var y := Nodes.Mul(x, x);
    ghost var s := g.steps;
    SquareDeriv(s, hw, 123.0);
    r := GradAll(y.value, [x]);
    ScalarArray(hw, 246.0);
  }

  /** d(a / b)/da is 1/b and d(a / b)/db is -a/b^2: 0.5 and -0.75 at (3, 2). */
  lemma {:induction false} DivDerivs(s: seq<Step>, hw: Hardware)
    requires WellFormed(s) && s == [Const(hw, 3.0), Const(hw, 2.0), Step(Operators.Div, [0, 1], [], hw)]
    ensures Defined(s, 2)
    ensures Deriv(s, 2, 0) == [0.5] && Deriv(s, 2, 1) == [-0.75]
  {
    ConstFacts(s, 0, 0, hw, 3.0);
    ConstFacts(s, 1, 0, hw, 2.0);
    ConstFacts(s, 0, 1, hw, 3.0);
    ConstFacts(s, 1, 1, hw, 2.0);
    BinaryStep(s, 2, Operators.Div, 0, 1);
    var d := MulVals([2.0], [2.0]);
    assert d == [4.0];
    assert SubVals(MulVals([1.0], [2.0]), MulVals([3.0], [0.0])) == [2.0];
    assert SubVals(MulVals([0.0], [2.0]), MulVals([3.0], [1.0])) == [-3.0];
    assert Tan(s, 2, 0) == DivVals([2.0], [4.0]) == [0.5];
    assert Tan(s, 2, 1) == DivVals([-3.0], [4.0]) == [-0.75];
  }

  /** `grad(a / b, [a, b])` at (3, 2) evaluates to [0.5, -0.75]. */
  method DivScenario(hw: Hardware) returns (r: seq<Result<Array>>)
    ensures r == [Ok(Scalar(hw, 0.5)), Ok(Scalar(hw, -0.75))]
  {
    var g := new Graph();
    var a := FromScalar(hw, g, 3.0);
    var b := FromScalar(hw, g, 2.0);
    var y := Nodes.Div(a, b);
    ghost var s := g.steps;
    DivDerivs(s, hw);
    r := GradAll(y.value, [a, b]);
    ScalarArray(hw, 0.5);
    ScalarArray(hw, -0.75);
  }

  /** d(a + (-b) * c) is 1 by a, -c by b and -b by c: 1, -3 and -2 at (1, 2, 3). */
  lemma {:induction false} MultipleDerivs(s: seq<Step>, hw: Hardware)
    requires WellFormed(s)
    requires |s| == 6 && s[0] == Const(hw, 1.0) && s[1] == Const(hw, 2.0) && s[2] == Const(hw, 3.0)
    requires s[3] == Step(Operators.Neg, [1], [], hw) && s[4] == Step(Operators.Mul, [3, 2], [], hw)
    requires s[5] == Step(Operators.Add, [0, 4], [], hw)
    ensures Defined(s, 5)
    ensures Deriv(s, 5, 0) == [1.0] && Deriv(s, 5, 1) == [-3.0] && Deriv(s, 5, 2) == [-2.0]
  {
    ConstFacts(s, 0, 0, hw, 1.0);
    ConstFacts(s, 0, 1, hw, 1.0);
    ConstFacts(s, 0, 2, hw, 1.0);
    ConstFacts(s, 1, 0, hw, 2.0);
    ConstFacts(s, 1, 1, hw, 2.0);
    ConstFacts(s, 1, 2, hw, 2.0);
    ConstFacts(s, 2, 0, hw, 3.0);
    ConstFacts(s, 2, 1, hw, 3.0);
    ConstFacts(s, 2, 2, hw, 3.0);
    UnaryStep(s, 3, 1);
    BinaryStep(s, 4, Operators.Mul, 3, 2);
    BinaryStep(s, 5, Operators.Add, 0, 4);
    assert Vals(s, 3) == NegVals([2.0]) == [-2.0];
    assert Tan(s, 3, 0) == NegVals([0.0]) == [0.0];
    assert Tan(s, 3, 1) == NegVals([1.0]) == [-1.0];
    assert Tan(s, 3, 2) == NegVals([0.0]) == [0.0];
    assert Tan(s, 4, 0) == AddVals(MulVals([0.0], [3.0]), MulVals([-2.0], [0.0])) == [0.0];
    assert Tan(s, 4, 1) == AddVals(MulVals([-1.0], [3.0]), MulVals([-2.0], [0.0])) == [-3.0];
    assert Tan(s, 4, 2) == AddVals(MulVals([0.0], [3.0]), MulVals([-2.0], [1.0])) == [-2.0];
    assert Tan(s, 5, 0) == AddVals([1.0], [0.0]) == [1.0];
    assert Tan(s, 5, 1) == AddVals([0.0], [-3.0]) == [-3.0];
    assert Tan(s, 5, 2) == AddVals([0.0], [-2.0]) == [-2.0];
  }

  /** Builds `a + (-b) * c` from three scalar constants, as the test does. */
  method BuildMultiple(hw: Hardware, a: real, b: real, c: real) returns (g: Graph, na: Node, nb: Node, nc: Node, y: Node)
    ensures fresh(g) && g.Valid()
    ensures g.steps == [Const(hw, a), Const(hw, b), Const(hw, c), Step(Operators.Neg, [1], [], hw),
                        Step(Operators.Mul, [3, 2], [], hw), Step(Operators.Add, [0, 4], [], hw)]
    ensures na == Node(g, 0) && nb == Node(g, 1) && nc == Node(g, 2) && y == Node(g, 5)
  {
    g := new Graph();
    na := FromScalar(hw, g, a);
    nb := FromScalar(hw, g, b);
    nc := FromScalar(hw, g, c);
    var minus := Nodes.Neg(nb);
    var p := Nodes.Mul(minus, nc);
    var r := Nodes.Add(na, p.value);
    y := r.value;
  }

  /** `grad(a + (-b) * c, [a, b, c])` at (1, 2, 3) evaluates to [1, -3, -2]. */
  method MultipleComputationScenario(hw: Hardware) returns (r: seq<Result<Array>>)
    ensures r == [Ok(Scalar(hw, 1.0)), Ok(Scalar(hw, -3.0)), Ok(Scalar(hw, -2.0))]
  {
    var g, a, b, c, y := BuildMultiple(hw, 1.0, 2.0, 3.0);
    MultipleDerivs(g.steps, hw);
    r := GradAll(y, [a, b, c]);
    ScalarArray(hw, 1.0);
    ScalarArray(hw, -3.0);
    ScalarArray(hw, -2.0);
  }

  /** `grad(y, &[x])` followed by evaluation of the one gradient. */
  method GradAt(y: Node, x: Node) returns (gx: Node, v: Result<Array>)
    requires y.graph.Valid() && Live(y) && x.graph == y.graph && Live(x)
    modifies y.graph
    ensures y.graph.Valid() && Prefix(old(y.graph.steps), y.graph.steps)
    ensures forall i :: 0 <= i < |old(y.graph.steps)| ==> (Defined(old(y.graph.steps), i) <==> Defined(y.graph.steps, i))
    ensures gx.graph == y.graph && Live(gx)
    ensures y.graph.steps[gx.address].shape == old(y.graph.steps)[x.address].shape
    ensures y.graph.steps[gx.address].hw == old(y.graph.steps)[x.address].hw
    ensures Defined(old(y.graph.steps), y.address) ==>
              && Defined(y.graph.steps, gx.address)
              && v == Ok(Array(old(y.graph.steps)[x.address].shape, old(y.graph.steps)[x.address].hw,
                               Deriv(old(y.graph.steps), y.address, x.address)))
  {
    ghost var s0 := y.graph.steps;
    var r := Grad(y, [x]);
    gx := r.value[0];
    forall i | 0 <= i < |s0| ensures Defined(s0, i) <==> Defined(y.graph.steps, i) {
      ValsPrefix(s0, y.graph.steps, i);
    }
    v := Calculate(gx);
  }

  /** d(x * x * x)/dx is 3x^2, which is 75 at x = 5. */
  lemma {:induction false} CubeDeriv(s: seq<Step>, hw: Hardware)
    requires WellFormed(s)
    requires |s| == 3 && s[0] == Const(hw, 5.0) && s[1] == Step(Operators.Mul, [0, 0], [], hw)
    requires s[2] == Step(Operators.Mul, [1, 0], [], hw)
    ensures Defined(s, 2)
    ensures Deriv(s, 2, 0) == [75.0]
  {
    ConstFacts(s, 0, 0, hw, 5.0);
    BinaryStep(s, 1, Operators.Mul, 0, 0);
    BinaryStep(s, 2, Operators.Mul, 1, 0);
    var t1 := Tan(s, 1, 0);
    assert t1 == AddVals(MulVals([1.0], [5.0]), MulVals([5.0], [1.0])) == [10.0];
    assert Vals(s, 1) == MulVals([5.0], [5.0]) == [25.0];
    assert Tan(s, 2, 0) == AddVals(MulVals([10.0], [5.0]), MulVals([25.0], [1.0])) == [75.0];
  }

  /** Builds `x * x * x` from the scalar constant 5, as the test does. */
  method BuildCube(hw: Hardware) returns (g: Graph, x: Node, y: Node)
    ensures fresh(g) && g.Valid()
    ensures g.steps == [Const(hw, 5.0), Step(Operators.Mul, [0, 0], [], hw), Step(Operators.Mul, [1, 0], [], hw)]
    ensures x == Node(g, 0) && y == Node(g, 2)
  {
    g := new Graph();
    x := FromScalar(hw, g, 5.0);
    var xx := Nodes.Mul(x, x);
    var r := Nodes.Mul(xx.value, x);
    y := r.value;
  }

  /** Repeated `grad` on x * x * x at 5: the first derivative evaluates to 75, and each
      further gradient is again a rank-0 node on the test's hardware that evaluates. */
  method HigherOrderScenario(hw: Hardware) returns (r: seq<Result<Array>>)
    ensures |r| == 4 && r[0] == Ok(Scalar(hw, 75.0))
    ensures forall k :: 0 <= k < 4 ==> r[k].Ok? && r[k].value.shape == [] && r[k].value.hw == hw
  {
    var g, x, y := BuildCube(hw);
    CubeDeriv(g.steps, hw);
    ScalarArray(hw, 75.0);
    var n1, v1 := GradAt(y, x);
    var n2, v2 := GradAt(n1, x);
    var n3, v3 := GradAt(n2, x);
    var n4, v4 := GradAt(n3, x);
    r := [v1, v2, v3, v4];
  }

  /** d(a * a * b) is 2ab by a and a^2 by b: 12 and 4 at (2, 3). */
  lemma {:induction false} TwoVariableDerivs(s: seq<Step>, hw: Hardware)
    requires WellFormed(s)
    requires s == [Const(hw, 2.0), Const(hw, 3.0), Step(Operators.Mul, [0, 0], [], hw), Step(Operators.Mul, [2, 1], [], hw)]
    ensures Defined(s, 3)
    ensures Deriv(s, 3, 0) == [12.0] && Deriv(s, 3, 1) == [4.0]
  {
    ConstFacts(s, 0, 0, hw, 2.0);
    ConstFacts(s, 1, 0, hw, 3.0);
    ConstFacts(s, 0, 1, hw, 2.0);
    ConstFacts(s, 1, 1, hw, 3.0);
    BinaryStep(s, 2, Operators.Mul, 0, 0);
    BinaryStep(s, 3, Operators.Mul, 2, 1);
    assert Tan(s, 2, 0) == AddVals(MulVals([1.0], [2.0]), MulVals([2.0], [1.0])) == [4.0];
    assert Tan(s, 2, 1) == AddVals(MulVals([0.0], [2.0]), MulVals([2.0], [0.0])) == [0.0];
    assert Vals(s, 2) == MulVals([2.0], [2.0]) == [4.0];
    assert Tan(s, 3, 0) == AddVals(MulVals([4.0], [3.0]), MulVals([4.0], [0.0])) == [12.0];
    assert Tan(s, 3, 1) == AddVals(MulVals([0.0], [3.0]), MulVals([4.0], [1.0])) == [4.0];
  }

  /** Builds `a * a * b` from the scalar constants 2 and 3, as the test does. */
  method BuildTwoVariable(hw: Hardware) returns (g: Graph, a: Node, b: Node, y: Node)
    ensures fresh(g) && g.Valid()
    ensures g.steps == [Const(hw, 2.0), Const(hw, 3.0), Step(Operators.Mul, [0, 0], [], hw), Step(Operators.Mul, [2, 1], [], hw)]
    ensures a == Node(g, 0) && b == Node(g, 1) && y == Node(g, 3)
  {
    g := new Graph();
    a := FromScalar(hw, g, 2.0);
    b := FromScalar(hw, g, 3.0);
    var aa := Nodes.Mul(a, a);
    var r := Nodes.Mul(aa.value, b);
    y := r.value;
  }

  /** Gradients of a * a * b at (2, 3) with respect to either variable, and of those
      gradients again: y_a evaluates to 12 and y_b to 4, and every gradient of second
      order is a rank-0 node on the test's hardware that evaluates. */
  method MultipleVariablesScenario(hw: Hardware) returns (r: seq<Result<Array>>)
    ensures |r| == 6 && r[0] == Ok(Scalar(hw, 12.0)) && r[1] == Ok(Scalar(hw, 4.0))
    ensures forall k :: 0 <= k < 6 ==> r[k].Ok? && r[k].value.shape == [] && r[k].value.hw == hw
  {
    var g, a, b, y := BuildTwoVariable(hw);
    ghost var s0 := g.steps;
    TwoVariableDerivs(s0, hw);
    ScalarArray(hw, 12.0);
    ScalarArray(hw, 4.0);
    var ya, va := GradAt(y, a);
    ghost var s1 := g.steps;
    TanPrefix(s0, s1, 3, 1);
    var yb, vb := GradAt(y, b);
    var second := SecondOrder(a, b, ya, yb, hw);
    r := [va, vb] + second;
  }

  /** The second-order gradients of the two-variable test, from its first-order gradients
      `ya` and `yb`: each is a rank-0 node on `hw` that evaluates. */
  method SecondOrder(a: Node, b: Node, ya: Node, yb: Node, hw: Hardware) returns (r: seq<Result<Array>>)
    requires a.graph.Valid() && b.graph == a.graph && ya.graph == a.graph && yb.graph == a.graph
    requires Live(a) && Live(b) && Live(ya) && Live(yb)
    requires a.graph.steps[a.address].shape == [] && a.graph.steps[a.address].hw == hw
    requires a.graph.steps[b.address].shape == [] && a.graph.steps[b.address].hw == hw
    requires Defined(a.graph.steps, ya.address) && Defined(a.graph.steps, yb.address)
    modifies a.graph
    ensures |r| == 4 && forall k :: 0 <= k < 4 ==> r[k].Ok? && r[k].value.shape == [] && r[k].value.hw == hw
  {
    var yaa, vaa := GradAt(ya, a);
    var yab, vab := GradAt(ya, b);
    var yba, vba := GradAt(yb, a);
    var ybb, vbb := GradAt(yb, b);
    r := [vaa, vab, vba, vbb];
  }
}
