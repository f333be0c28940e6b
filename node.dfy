/** Node handles and the arithmetic sugar on them. A node is a graph reference and a step
    address; `+ - * /` and unary `-` each append exactly one step to the operands' graph. */
module Nodes {
  import opened Results
  import opened Tensors
  import opened Operators
  import opened Graphs

  /** A copyable handle: its graph, compared by identity, and the address of a step. */
  datatype Node = Node(graph: Graph, address: nat)

  /** The node names an existing step of its graph (nodes are only made by adding steps,
      and steps are never removed). */
  ghost predicate Live(n: Node)
    reads n.graph
  {
    n.address < |n.graph.steps|
  }

  /** The node's shape, resolved when its step was added; its value, once computed, has
      this shape. */
  function ShapeOf(n: Node): (r: Shape)
    reads n.graph
    requires Live(n)
    ensures n.graph.Valid() && Eval(n.graph.steps, n.address).Ok? ==> Eval(n.graph.steps, n.address).value.shape == r
  {
    n.graph.steps[n.address].shape
  }

  /** The node's hardware, resolved when its step was added; its value, once computed,
      lives there. */
  function HardwareOf(n: Node): (r: Hardware)
    reads n.graph
    requires Live(n)
    ensures n.graph.Valid() && Eval(n.graph.steps, n.address).Ok? ==> Eval(n.graph.steps, n.address).value.hw == r
  {
    n.graph.steps[n.address].hw
  }

  /** Node equality: the same graph, by identity, and the same address. It coincides with
      equality of the handle values. */
  function Equal(a: Node, b: Node): (r: bool)
    ensures r <==> a == b
  {
    a.graph == b.graph && a.address == b.address
  }

  /** Succeeds with the node's graph exactly when every other node is on that identical
      graph (vacuously so for no others); otherwise fails with InvalidGraph. */
  function CheckGraph(n: Node, others: seq<Node>): (r: Result<Graph>)
    ensures r.Ok? <==> forall k :: 0 <= k < |others| ==> others[k].graph == n.graph
    ensures r.Ok? ==> r.value == n.graph
    ensures r.Err? ==> r.error == InvalidGraph
  {
    if others == [] then Ok(n.graph)
    else if others[0].graph != n.graph then Err(InvalidGraph)
    else CheckGraph(n, others[1..])
  }

  /** Appends a Constant step holding `value` and returns its node. */
  method FromArray(g: Graph, value: Array) returns (n: Node)
    requires g.Valid() && ValidArray(value)
    modifies g
    ensures g.Valid() && n == Node(g, |old(g.steps)|)
    ensures g.steps == old(g.steps) + [Step(Constant(value), [], value.shape, value.hw)]
    ensures g.cache == old(g.cache) + [None]
  {
    var r := g.AddStep(Constant(value), []);
    n := Node(g, r.value);
  }

  /** A new Constant step holding the scalar `value` on `hw`. */
  method FromScalar(hw: Hardware, g: Graph, value: real) returns (n: Node)
    requires g.Valid()
    modifies g
    ensures g.Valid() && n == Node(g, |old(g.steps)|)
    ensures g.steps == old(g.steps) + [Step(Constant(Scalar(hw, value)), [], [], hw)]
    ensures g.cache == old(g.cache) + [None]
  {
    n := FromArray(g, Scalar(hw, value));
  }

  /** A new Constant step holding an array of `shape` filled with `value`. */
  method Fill(hw: Hardware, g: Graph, shape: Shape, value: real) returns (n: Node)
    requires g.Valid()
    modifies g
    ensures g.Valid() && n == Node(g, |old(g.steps)|)
    ensures g.steps == old(g.steps) + [Step(Constant(Tensors.Fill(hw, shape, value)), [], shape, hw)]
    ensures g.cache == old(g.cache) + [None]
  {
    n := FromArray(g, Tensors.Fill(hw, shape, value));
  }

  /** What combining `lhs` and `rhs` with the binary operator `op` does to a graph whose
      steps and memo slots go from (s0, c0) to (s1, c1): on operands of one graph with the
      same hardware and shape, one step `op [lhs, rhs]` is appended and its node returned;
      otherwise nothing changes and the error names the first failed check. */
  ghost predicate Combined(op: Op, lhs: Node, rhs: Node, s0: seq<Step>, c0: seq<Option<Array>>,
                           s1: seq<Step>, c1: seq<Option<Array>>, r: Result<Node>)
    requires lhs.address < |s0| && (rhs.graph == lhs.graph ==> rhs.address < |s0|)
  {
    var sameGraph := rhs.graph == lhs.graph;
    var sameHw := sameGraph && s0[lhs.address].hw == s0[rhs.address].hw;
    var sameShape := sameGraph && s0[lhs.address].shape == s0[rhs.address].shape;
    && (r.Ok? <==> sameHw && sameShape)
    && (r.Ok? ==> && r.value == Node(lhs.graph, |s0|)
                  && s1 == s0 + [Step(op, [lhs.address, rhs.address], s0[lhs.address].shape, s0[lhs.address].hw)]
                  && c1 == c0 + [None])
    && (r.Err? ==> && s1 == s0 && c1 == c0
                   && r.error == (if !sameGraph then InvalidGraph
                                  else if !sameHw then HardwareMismatch
                                  else ShapeMismatch))
  }

  /** The common body of the four binary operators: check the graphs, then append. */
  method Binary(op: Op, lhs: Node, rhs: Node) returns (r: Result<Node>)
    requires IsBinary(op)
    requires lhs.graph.Valid() && Live(lhs) && (rhs.graph == lhs.graph ==> Live(rhs))
    modifies lhs.graph
    ensures lhs.graph.Valid()
    ensures Combined(op, lhs, rhs, old(lhs.graph.steps), old(lhs.graph.cache), lhs.graph.steps, lhs.graph.cache, r)
  {
    var g := CheckGraph(lhs, [rhs]);
    if g.Err? {
      return Err(g.error);
    }
    var a := lhs.graph.AddStep(op, [lhs.address, rhs.address]);
    if a.Err? {
      return Err(a.error);
    }
    r := Ok(Node(lhs.graph, a.value));
  }

  /** `lhs + rhs` */
  method Add(lhs: Node, rhs: Node) returns (r: Result<Node>)
    requires lhs.graph.Valid() && Live(lhs) && (rhs.graph == lhs.graph ==> Live(rhs))
    modifies lhs.graph
    ensures lhs.graph.Valid()
    ensures Combined(Operators.Add, lhs, rhs, old(lhs.graph.steps), old(lhs.graph.cache), lhs.graph.steps, lhs.graph.cache, r)
  {
    r := Binary(Operators.Add, lhs, rhs);
  }

  /** `lhs - rhs` */
  method Sub(lhs: Node, rhs: Node) returns (r: Result<Node>)
    requires lhs.graph.Valid() && Live(lhs) && (rhs.graph == lhs.graph ==> Live(rhs))
    modifies lhs.graph
    ensures lhs.graph.Valid()
    ensures Combined(Operators.Sub, lhs, rhs, old(lhs.graph.steps), old(lhs.graph.cache), lhs.graph.steps, lhs.graph.cache, r)
  {
    r := Binary(Operators.Sub, lhs, rhs);
  }

  /** `lhs * rhs` */
  method Mul(lhs: Node, rhs: Node) returns (r: Result<Node>)
    requires lhs.graph.Valid() && Live(lhs) && (rhs.graph == lhs.graph ==> Live(rhs))
    modifies lhs.graph
    ensures lhs.graph.Valid()
    ensures Combined(Operators.Mul, lhs, rhs, old(lhs.graph.steps), old(lhs.graph.cache), lhs.graph.steps, lhs.graph.cache, r)
  {
    r := Binary(Operators.Mul, lhs, rhs);
  }

  /** `lhs / rhs` */
  method Div(lhs: Node, rhs: Node) returns (r: Result<Node>)
    requires lhs.graph.Valid() && Live(lhs) && (rhs.graph == lhs.graph ==> Live(rhs))
    modifies lhs.graph
    ensures lhs.graph.Valid()
    ensures Combined(Operators.Div, lhs, rhs, old(lhs.graph.steps), old(lhs.graph.cache), lhs.graph.steps, lhs.graph.cache, r)
  {
    r := Binary(Operators.Div, lhs, rhs);
  }

  /** `-x`: appends one Neg step, which cannot fail. */
  method Neg(x: Node) returns (n: Node)
    requires x.graph.Valid() && Live(x)
    modifies x.graph
    ensures x.graph.Valid() && n == Node(x.graph, |old(x.graph.steps)|)
    ensures x.graph.steps == old(x.graph.steps) + [Step(Operators.Neg, [x.address], old(ShapeOf(x)), old(HardwareOf(x)))]
    ensures x.graph.cache == old(x.graph.cache) + [None]
  {
    var a := x.graph.AddStep(Operators.Neg, [x.address]);
    n := Node(x.graph, a.value);
  }

  /** Evaluates the node through its graph's memo. */
  method Calculate(n: Node) returns (r: Result<Array>)
    requires n.graph.Valid() && Live(n)
    modifies n.graph`cache
    ensures n.graph.Valid()
    ensures r == Eval(n.graph.steps, n.address)
  {
    r := n.graph.Calculate(n.address);
  }
}
