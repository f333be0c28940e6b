/** The tests of the node sugar, as methods. Each builds a graph with the sugar and
    promises the node addresses, step kinds and evaluated arrays the test expects. The
    lemmas compute the values of the test's concrete steps. */
module NodeTests {
  import opened Results
  import opened Tensors
  import opened Operators
  import opened Graphs
  import opened Values
  import opened Derivatives
  import opened Nodes

  /** The step `Node::from_scalar` appends. */
  function Const(hw: Hardware, v: real): Step
  {
    Step(Constant(Scalar(hw, v)), [], [], hw)
  }

  /** A scalar constant is defined, holds its value, and has tangent one with respect to
      itself and zero with respect to any other step. */
  lemma {:induction false} ConstFacts(s: seq<Step>, i: nat, x: nat, hw: Hardware, v: real)
    requires WellFormed(s) && i < |s| && s[i] == Const(hw, v)
    ensures Vals(s, i) == [v] && Defined(s, i)
    ensures Tan(s, i, x) == [if i == x then 1.0 else 0.0]
  {
    assert Repeat(1.0, 1) == [1.0] && Repeat(0.0, 1) == [0.0];
  }

  /** The rank-0 array a test reads back with `get_scalar_f32`. */
  lemma {:induction false} ScalarArray(hw: Hardware, v: real)
    ensures Scalar(hw, v) == Array([], hw, [v])
  {
    assert Repeat(v, NumElements([])) == [v];
  }

  /** What the arithmetic tests expect of an operator applied to the scalars 1 and 2. */
  function OneTwo(op: Op): real
  {
    match op
    case Add => 3.0
    case Sub => -1.0
    case Mul => 2.0
    case Div => 0.5
    case _ => 0.0
  }

  /** 1 + 2 is 3, 1 - 2 is -1, 1 * 2 is 2 and 1 / 2 is 0.5. */
  lemma {:induction false} ArithmeticValue(s: seq<Step>, hw: Hardware, op: Op)
    requires IsBinary(op)
    requires WellFormed(s) && s == [Const(hw, 1.0), Const(hw, 2.0), Step(op, [0, 1], [], hw)]
    ensures Eval(s, 2) == Ok(Scalar(hw, OneTwo(op)))
  {
    ConstFacts(s, 0, 0, hw, 1.0);
    ConstFacts(s, 1, 0, hw, 2.0);
    BinaryStep(s, 2, op, 0, 1);
    EvalVals(s, 2);
    ScalarArray(hw, OneTwo(op));
    match op {
      case Add => assert AddVals([1.0], [2.0]) == [3.0];
      case Sub => assert SubVals([1.0], [2.0]) == [-1.0];
      case Mul => assert MulVals([1.0], [2.0]) == [2.0];
      case Div => assert DivVals([1.0], [2.0]) == [0.5];
    }
  }

  /** Two scalar constants and their sum take the addresses 0, 1 and 2 of a fresh graph,
      as two Constant steps and an Add step; all three are rank 0 on the test's hardware,
      and the sum evaluates to 3. */
  method StepsScenario(hw: Hardware) returns (lhs: Node, rhs: Node, ret: Node, names: seq<string>, v: Result<Array>)
    ensures lhs == Node(ret.graph, 0) && rhs == Node(ret.graph, 1) && ret.address == 2
    ensures ret.graph.Valid() && ret.graph.NumSteps() == 3
    ensures ShapeOf(lhs) == [] && ShapeOf(rhs) == [] && ShapeOf(ret) == []
    ensures HardwareOf(lhs) == hw && HardwareOf(rhs) == hw && HardwareOf(ret) == hw
    ensures names == ["Constant", "Constant", "Add"]
    ensures v == Ok(Scalar(hw, 3.0))
  {
    var g := new Graph();
    lhs := FromScalar(hw, g, 1.0);
    rhs := FromScalar(hw, g, 2.0);
    var r := Nodes.Add(lhs, rhs);
    ret := r.value;
    var s0, s1, s2 := g.GetStep(0), g.GetStep(1), g.GetStep(2);
    names := [Name(s0.value.op), Name(s1.value.op), Name(s2.value.op)];
    ArithmeticValue(g.steps, hw, Operators.Add);
    v := Calculate(ret);
  }

  /** Applying `op` with the sugar to the scalars 1 and 2 gives a rank-0 node on the
      test's hardware that evaluates to 3, -1, 2 or 0.5. */
  method ArithmeticScenario(hw: Hardware, op: Op) returns (ret: Node, v: Result<Array>)
    requires IsBinary(op)
    ensures ret.graph.Valid() && Live(ret) && ShapeOf(ret) == [] && HardwareOf(ret) == hw
    ensures v == Ok(Scalar(hw, OneTwo(op)))
  {
    var g := new Graph();
    var lhs := FromScalar(hw, g, 1.0);
    var rhs := FromScalar(hw, g, 2.0);
    var r: Result<Node>;
    match op {
      case Add => r := Nodes.Add(lhs, rhs);
      case Sub => r := Nodes.Sub(lhs, rhs);
      case Mul => r := Nodes.Mul(lhs, rhs);
      case Div => r := Nodes.Div(lhs, rhs);
    }
    ret := r.value;
    ArithmeticValue(g.steps, hw, op);
    v := Calculate(ret);
  }

  /** The negation of the scalar 42 is a rank-0 node on the test's hardware that
      evaluates to -42. */
  method NegScenario(hw: Hardware) returns (dest: Node, v: Result<Array>)
    ensures dest.graph.Valid() && Live(dest) && ShapeOf(dest) == [] && HardwareOf(dest) == hw
    ensures v == Ok(Scalar(hw, -42.0))
  {
    var g := new Graph();
    var src := FromScalar(hw, g, 42.0);
    dest := Nodes.Neg(src);
    ghost var s := g.steps;
    ConstFacts(s, 0, 0, hw, 42.0);
    UnaryStep(s, 1, 0);
    EvalVals(s, 1);
    ScalarArray(hw, -42.0);
    assert NegVals([42.0]) == [-42.0];
    v := Calculate(dest);
  }

  /** A fill constant of the given shape with value 123, on a fresh graph. */
  method FillOne(hw: Hardware, shape: Shape) returns (ret: Node, v: Result<Array>)
    ensures ret.graph.Valid() && Live(ret) && ShapeOf(ret) == shape && HardwareOf(ret) == hw
    ensures v == Ok(Tensors.Fill(hw, shape, 123.0))
  {
    var g := new Graph();
    ret := Nodes.Fill(hw, g, shape, 123.0);
    EvalVals(g.steps, 0);
    v := Calculate(ret);
  }

  /** Fill constants of value 123: of shape [] the scalar 123, of shape [0] no elements,
      of shape [3] three elements 123. */
  method FillScenario(hw: Hardware) returns (r: seq<Result<Array>>)
    ensures r == [Ok(Array([], hw, [123.0])), Ok(Array([0], hw, [])), Ok(Array([3], hw, [123.0, 123.0, 123.0]))]
  {
    var n0, v0 := FillOne(hw, []);
    var n1, v1 := FillOne(hw, [0]);
    var n2, v2 := FillOne(hw, [3]);
    assert Repeat(123.0, NumElements([])) == [123.0];
    assert Repeat(123.0, NumElements([0])) == [];
    assert NumElements([3]) == 3;
    assert Repeat(123.0, 3) == [123.0, 123.0, 123.0];
    r := [v0, v1, v2];
  }

  /** a + (-b) * c is -5 at (1, 2, 3). */
  lemma {:induction false} MultipleValue(s: seq<Step>, hw: Hardware)
    requires WellFormed(s)
    requires |s| == 6 && s[0] == Const(hw, 1.0) && s[1] == Const(hw, 2.0) && s[2] == Const(hw, 3.0)
    requires s[3] == Step(Operators.Neg, [1], [], hw) && s[4] == Step(Operators.Mul, [3, 2], [], hw)
    requires s[5] == Step(Operators.Add, [0, 4], [], hw)
    ensures Defined(s, 5) && Eval(s, 5) == Ok(Scalar(hw, -5.0))
  {
    ConstFacts(s, 0, 0, hw, 1.0);
    ConstFacts(s, 1, 0, hw, 2.0);
    ConstFacts(s, 2, 0, hw, 3.0);
    UnaryStep(s, 3, 1);
    BinaryStep(s, 4, Operators.Mul, 3, 2);
    BinaryStep(s, 5, Operators.Add, 0, 4);
    assert Vals(s, 3) == NegVals([2.0]) == [-2.0];
    assert Vals(s, 4) == MulVals([-2.0], [3.0]) == [-6.0];
    assert Vals(s, 5) == AddVals([1.0], [-6.0]) == [-5.0];
    EvalVals(s, 5);
    ScalarArray(hw, -5.0);
  }

  /** a + b * c is 7 at (1, 2, 3). */
  lemma {:induction false} MultipleValueNoNeg(s: seq<Step>, hw: Hardware)
    requires WellFormed(s)
    requires |s| == 5 && s[0] == Const(hw, 1.0) && s[1] == Const(hw, 2.0) && s[2] == Const(hw, 3.0)
    requires s[3] == Step(Operators.Mul, [1, 2], [], hw) && s[4] == Step(Operators.Add, [0, 3], [], hw)
    ensures Defined(s, 4) && Eval(s, 4) == Ok(Scalar(hw, 7.0))
  {
    ConstFacts(s, 0, 0, hw, 1.0);
    ConstFacts(s, 1, 0, hw, 2.0);
    ConstFacts(s, 2, 0, hw, 3.0);
    BinaryStep(s, 3, Operators.Mul, 1, 2);
    BinaryStep(s, 4, Operators.Add, 0, 3);
    assert Vals(s, 3) == MulVals([2.0], [3.0]) == [6.0];
    assert Vals(s, 4) == AddVals([1.0], [6.0]) == [7.0];
    EvalVals(s, 4);
    ScalarArray(hw, 7.0);
  }

  /** `a + -b * c` at (1, 2, 3): every node is rank 0 on the test's hardware, and the
      result evaluates to -5. */
  method MultipleComputationScenario(hw: Hardware) returns (y: Node, v: Result<Array>)
    ensures y.graph.Valid() && Live(y) && ShapeOf(y) == [] && HardwareOf(y) == hw
    ensures v == Ok(Scalar(hw, -5.0))
  {
    var g := new Graph();
    var a := FromScalar(hw, g, 1.0);
    var b := FromScalar(hw, g, 2.0);
    var c := FromScalar(hw, g, 3.0);
    var nb := Nodes.Neg(b);
    var p := Nodes.Mul(nb, c);
    var r := Nodes.Add(a, p.value);
    y := r.value;
    MultipleValue(g.steps, hw);
    v := Calculate(y);
  }

  /** `a + b * c` at (1, 2, 3) evaluates to 7. */
  method MultipleComputationNoNegScenario(hw: Hardware) returns (y: Node, v: Result<Array>)
    ensures y.graph.Valid() && Live(y) && ShapeOf(y) == [] && HardwareOf(y) == hw
    ensures v == Ok(Scalar(hw, 7.0))
  {
    var g := new Graph();
    var a := FromScalar(hw, g, 1.0);
    var b := FromScalar(hw, g, 2.0);
    var c := FromScalar(hw, g, 3.0);
    var p := Nodes.Mul(b, c);
    var r := Nodes.Add(a, p.value);
    y := r.value;
    MultipleValueNoNeg(g.steps, hw);
    v := Calculate(y);
  }
}
