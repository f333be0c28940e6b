/** The operator contract: every operator variant has a name, an arity, a shape rule,
    a hardware rule and an evaluation rule. The symbolic gradient rules build graph nodes
    and live with the node sugar (module GradientRules). */
module Operators {
  import opened Results
  import opened Tensors

  /** The closed set of operators. `Constant` captures the array it produces. */
  datatype Op = Constant(value: Array) | Add | Sub | Mul | Div | Neg

  predicate IsBinary(op: Op)
  {
    op.Add? || op.Sub? || op.Mul? || op.Div?
  }

  /** The operator's name; each kind has its own. */
  function Name(op: Op): (r: string)
    ensures r == "Constant" <==> op.Constant?
    ensures r == "Add" <==> op.Add?
    ensures r == "Sub" <==> op.Sub?
    ensures r == "Mul" <==> op.Mul?
    ensures r == "Div" <==> op.Div?
    ensures r == "Neg" <==> op.Neg?
  {
    match op
    case Constant(_) => "Constant"
    case Add => "Add"
    case Sub => "Sub"
    case Mul => "Mul"
    case Div => "Div"
    case Neg => "Neg"
  }

  /** Number of inputs the operator takes. */
  function InputSize(op: Op): (n: nat)
    ensures n <= 2
    ensures n == 0 <==> op.Constant?
    ensures n == 1 <==> op.Neg?
    ensures n == 2 <==> IsBinary(op)
  {
    match op
    case Constant(_) => 0
    case Neg => 1
    case _ => 2
  }

  /** Number of outputs: every operator produces exactly one value, so a step's own
      address names its output. */
  function OutputSize(op: Op): (n: nat)
    ensures n == 1
  {
    1
  }

  /** Different operator kinds have different names, so a step's name identifies its kind. */
  lemma {:induction false} NameIdentifiesKind(a: Op, b: Op)
    ensures Name(a) == Name(b) <==> (a.Constant? && b.Constant?) || (!a.Constant? && a == b)
  {
  }

  /** Shape inference: Constant gives its captured value's shape and ignores its inputs,
      Neg is the identity on its one input, the binary operators use the elementwise rule. */
  function PerformShape(op: Op, inputs: seq<Shape>): (r: Result<Shape>)
    requires |inputs| == InputSize(op)
    ensures op.Constant? ==> r == Ok(op.value.shape)
    ensures op.Neg? ==> r == Ok(inputs[0])
    ensures IsBinary(op) ==> (r.Ok? <==> inputs[0] == inputs[1])
    ensures IsBinary(op) && r.Ok? ==> r.value == inputs[0] && r.value == inputs[1]
    ensures r.Err? ==> r.error == ShapeMismatch
  {
    match op
    case Constant(v) => Ok(v.shape)
    case Neg => Ok(inputs[0])
    case _ => Elementwise(inputs[0], inputs[1])
  }

  /** Hardware inference: all inputs must name the identical hardware, which is then the
      result; Constant gives the hardware of its captured value. */
  function PerformHardware(op: Op, inputs: seq<Hardware>): (r: Result<Hardware>)
    requires |inputs| == InputSize(op)
    ensures op.Constant? ==> r == Ok(op.value.hw)
    ensures !op.Constant? ==> (r.Ok? <==> forall p :: 0 <= p < |inputs| ==> inputs[p] == inputs[0])
    ensures !op.Constant? && r.Ok? ==> r.value == inputs[0]
    ensures r.Err? ==> r.error == HardwareMismatch
  {
    match op
    case Constant(v) => Ok(v.hw)
    case Neg => Ok(inputs[0])
    case _ => if inputs[0] == inputs[1] then Ok(inputs[0]) else Err(HardwareMismatch)
  }

  function Shapes(xs: seq<Array>): (r: seq<Shape>)
    ensures |r| == |xs| && forall p :: 0 <= p < |xs| ==> r[p] == xs[p].shape
  {
    seq(|xs|, p requires 0 <= p < |xs| => xs[p].shape)
  }

  function Hardwares(xs: seq<Array>): (r: seq<Hardware>)
    ensures |r| == |xs| && forall p :: 0 <= p < |xs| ==> r[p] == xs[p].hw
  {
    seq(|xs|, p requires 0 <= p < |xs| => xs[p].hw)
  }

  function ValsOf(xs: seq<Array>): (r: seq<seq<real>>)
    ensures |r| == |xs| && forall p :: 0 <= p < |xs| ==> r[p] == xs[p].vals
  {
    seq(|xs|, p requires 0 <= p < |xs| => xs[p].vals)
  }

  /** The evaluation rule on element values: what the operator computes from the
      element sequences of its inputs. */
  function ApplyVals(op: Op, xs: seq<seq<real>>): seq<real>
    requires |xs| == InputSize(op)
  {
    match op
    case Constant(v) => v.vals
    case Add => AddVals(xs[0], xs[1])
    case Sub => SubVals(xs[0], xs[1])
    case Mul => MulVals(xs[0], xs[1])
    case Div => DivVals(xs[0], xs[1])
    case Neg => NegVals(xs[0])
  }

  /** Evaluation. A result always has the shape and hardware that inference predicts;
      once inference succeeds, evaluation fails only on a zero divisor. */
  function Perform(op: Op, inputs: seq<Array>): (r: Result<Array>)
    requires |inputs| == InputSize(op)
    requires forall p :: 0 <= p < |inputs| ==> ValidArray(inputs[p])
    requires op.Constant? ==> ValidArray(op.value)
    ensures r.Ok? ==> ValidArray(r.value)
    ensures r.Ok? ==> PerformShape(op, Shapes(inputs)) == Ok(r.value.shape)
    ensures r.Ok? ==> PerformHardware(op, Hardwares(inputs)) == Ok(r.value.hw)
    ensures PerformShape(op, Shapes(inputs)).Ok? && PerformHardware(op, Hardwares(inputs)).Ok? ==>
              (r.Ok? <==> !(op.Div? && HasZero(inputs[1])))
    ensures PerformShape(op, Shapes(inputs)).Ok? && PerformHardware(op, Hardwares(inputs)).Ok? && r.Err? ==>
              r.error == DivisionByZero
    ensures op.Constant? ==> r == Ok(op.value)
    ensures r.Ok? ==> r.value.vals == ApplyVals(op, ValsOf(inputs))
  {
    match op
    case Constant(v) => Ok(v)
    case Add => AddArray(inputs[0], inputs[1])
    case Sub => SubArray(inputs[0], inputs[1])
    case Mul => MulArray(inputs[0], inputs[1])
    case Div => DivArray(inputs[0], inputs[1])
    case Neg => Ok(NegArray(inputs[0]))
  }

  /** The derivative of the operator's scalar rule with respect to its p-th argument,
      at the argument values `xs`. This is what each gradient rule multiplies the
      incoming gradient by. A zero divisor, where the quotient is undefined, gives 0. */
  function LocalPartial(op: Op, xs: seq<real>, p: nat): real
    requires |xs| == InputSize(op) && p < InputSize(op)
  {
    match op
    case Add => 1.0
    case Sub => if p == 0 then 1.0 else -1.0
    case Mul => if p == 0 then xs[1] else xs[0]
    case Div =>
      if xs[1] == 0.0 then 0.0
      else if p == 0 then 1.0 / xs[1]
      else - xs[0] / (xs[1] * xs[1])
    case Neg => -1.0
  }

  /** The local partials of the p-th argument as an element sequence: element k is
      LocalPartial at the k-th elements of the arguments (lemma PartialAt). */
  function PartialVals(op: Op, xs: seq<seq<real>>, p: nat): seq<real>
    requires |xs| == InputSize(op) && p < InputSize(op)
  {
    match op
    case Add => Repeat(1.0, |xs[0]|)
    case Sub => if p == 0 then Repeat(1.0, |xs[0]|) else Repeat(-1.0, |xs[0]|)
    case Mul => if p == 0 then xs[1] else xs[0]
    case Div =>
      if p == 0 then DivVals(Repeat(1.0, |xs[1]|), xs[1])
      else NegVals(DivVals(xs[0], MulVals(xs[1], xs[1])))
    case Neg => Repeat(-1.0, |xs[0]|)
  }

  /** The k-th elements of the argument sequences. */
  function Column(xs: seq<seq<real>>, k: nat): (r: seq<real>)
    requires forall q :: 0 <= q < |xs| ==> k < |xs[q]|
    ensures |r| == |xs| && forall q :: 0 <= q < |xs| ==> r[q] == xs[q][k]
  {
    seq(|xs|, q requires 0 <= q < |xs| => xs[q][k])
  }

  /** The vector of local partials is LocalPartial applied position by position, and it
      has one element per argument element. */
  lemma {:induction false} PartialAt(op: Op, xs: seq<seq<real>>, p: nat, n: nat, k: nat)
    requires |xs| == InputSize(op) && p < InputSize(op)
    requires forall q :: 0 <= q < |xs| ==> |xs[q]| == n
    requires k < n
    ensures |PartialVals(op, xs, p)| == n
    ensures PartialVals(op, xs, p)[k] == LocalPartial(op, Column(xs, k), p)
  {
    if op.Div? && p == 1 {
      var a, b := xs[0][k], xs[1][k];
      assert b * b == 0.0 <==> b == 0.0;
      if b != 0.0 {
        assert - (a / (b * b)) == - a / (b * b);
      }
    }
  }

  /** The local partials of an argument have as many elements as the arguments. */
  lemma {:induction false} PartialLength(op: Op, xs: seq<seq<real>>, p: nat, n: nat)
    requires |xs| == InputSize(op) && p < InputSize(op)
    requires forall q :: 0 <= q < |xs| ==> |xs[q]| == n
    ensures |PartialVals(op, xs, p)| == n
  {
  }

  /** Element k of the incoming gradient `g` scaled by the local partials. */
  lemma {:induction false} ScaledPartialAt(op: Op, xs: seq<seq<real>>, p: nat, n: nat, k: nat, g: seq<real>, v: seq<real>)
    requires |xs| == InputSize(op) && p < InputSize(op)
    requires forall q :: 0 <= q < |xs| ==> |xs[q]| == n
    requires k < n && |g| == n && v == MulVals(g, PartialVals(op, xs, p))
    ensures k < |v| && v[k] == g[k] * LocalPartial(op, Column(xs, k), p)
  {
    PartialAt(op, xs, p, n, k);
  }
}
