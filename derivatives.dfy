/** The derivative the gradient engine is meant to compute, defined independently of it:
    forward-mode differentiation with dual numbers. The tangent of a step with respect to
    a step `x` is all ones at `x` itself and otherwise follows the sum, difference,
    product, quotient and negation rules of calculus on the inputs' tangents and values.
    All operators are elementwise, so derivatives are taken element by element. */
module Derivatives {
  import opened Tensors
  import opened Operators
  import opened Graphs
  import opened Values
  import opened Vectors

  /** The elements of d(step i)/d(step x), element by element. A zero divisor element,
      where the quotient is undefined, gives 0 (as Vals does). */
  ghost function Tan(steps: seq<Step>, i: nat, x: nat): (r: seq<real>)
    requires WellFormed(steps) && i < |steps|
    ensures |r| == NumElements(steps[i].shape)
    decreases i
  {
    assert StepOk(steps, i);
    var s := steps[i];
    var n := NumElements(s.shape);
    if i == x then Repeat(1.0, n)
    else if |s.inputs| == 0 then Repeat(0.0, n)
    else if |s.inputs| == 1 then
      InputsAgree(steps, i, 0);
      NegVals(Tan(steps, s.inputs[0], x))
    else
      InputsAgree(steps, i, 0);
      InputsAgree(steps, i, 1);
      var ta, tb := Tan(steps, s.inputs[0], x), Tan(steps, s.inputs[1], x);
      var va, vb := Vals(steps, s.inputs[0]), Vals(steps, s.inputs[1]);
      match s.op
      case Add => AddVals(ta, tb)
      case Sub => SubVals(ta, tb)
      case Mul => AddVals(MulVals(ta, vb), MulVals(va, tb))
      case Div => DivVals(SubVals(MulVals(ta, vb), MulVals(va, tb)), MulVals(vb, vb))
  }

  /** The derivative of `y` with respect to `x` that the gradient engine returns: the
      tangent when the two have one shape, and otherwise zeros of `x`'s shape (a step of
      another shape cannot be connected to `y`, since every edge keeps the shape). */
  ghost function Deriv(steps: seq<Step>, y: nat, x: nat): (r: seq<real>)
    requires WellFormed(steps) && y < |steps| && x < |steps|
    ensures |r| == NumElements(steps[x].shape)
  {
    if steps[x].shape == steps[y].shape then Tan(steps, y, x)
    else Repeat(0.0, NumElements(steps[x].shape))
  }

  /** A weighted sum of tangents: the sum over p of `ws[p]` times the tangent of step
      `ins[p]`, accumulated from the first term to the last. */
  ghost function Combine(steps: seq<Step>, ins: seq<nat>, ws: seq<seq<real>>, x: nat, n: nat): (r: seq<real>)
    requires WellFormed(steps) && |ws| == |ins|
    requires forall p :: 0 <= p < |ins| ==> ins[p] < |steps| && NumElements(steps[ins[p]].shape) == n && |ws[p]| == n
    ensures |r| == n
    decreases |ins|
  {
    if ins == [] then Repeat(0.0, n)
    else
      var m := |ins| - 1;
      AddVals(Combine(steps, ins[..m], ws[..m], x, n), MulVals(ws[m], Tan(steps, ins[m], x)))
  }

  /** The local partials of step i, one element sequence per input. */
  ghost function Partials(steps: seq<Step>, i: nat): (r: seq<seq<real>>)
    requires WellFormed(steps) && i < |steps|
    ensures StepOk(steps, i) && |r| == |steps[i].inputs|
    ensures forall p :: 0 <= p < |r| ==> r[p] == PartialVals(steps[i].op, ArgVals(steps, i), p)
  {
    assert StepOk(steps, i);
    var ins := steps[i].inputs;
    seq(|ins|, p requires 0 <= p < |ins| => PartialVals(steps[i].op, ArgVals(steps, i), p))
  }

  /** Every input of step i, and every local partial of it, has step i's number of elements. */
  lemma {:induction false} PartialsShaped(steps: seq<Step>, i: nat)
    requires WellFormed(steps) && i < |steps|
    ensures forall p :: 0 <= p < |steps[i].inputs| ==>
              steps[i].inputs[p] < |steps| && NumElements(steps[steps[i].inputs[p]].shape) == NumElements(steps[i].shape)
              && |Partials(steps, i)[p]| == NumElements(steps[i].shape)
  {
    InputsOf(steps, i);
    var n := NumElements(steps[i].shape);
    var xs := ArgVals(steps, i);
    forall p | 0 <= p < |steps[i].inputs|
      ensures |Partials(steps, i)[p]| == n
    {
      PartialLength(steps[i].op, xs, p, n);
    }
  }

  /** The chain rule that the reverse sweep relies on. Away from `x`, the tangent of a
      step is the sum of its inputs' tangents weighted by the step's local partials. */
  lemma {:induction false} Chain(steps: seq<Step>, i: nat, x: nat)
    requires WellFormed(steps) && i < |steps| && i != x
    ensures forall p :: 0 <= p < |steps[i].inputs| ==>
              steps[i].inputs[p] < |steps| && NumElements(steps[steps[i].inputs[p]].shape) == NumElements(steps[i].shape)
              && |Partials(steps, i)[p]| == NumElements(steps[i].shape)
    ensures Tan(steps, i, x) == Combine(steps, steps[i].inputs, Partials(steps, i), x, NumElements(steps[i].shape))
  {
    PartialsShaped(steps, i);
    var s := steps[i];
    var n := NumElements(s.shape);
    var ins := s.inputs;
    var ws := Partials(steps, i);
    if |ins| == 0 {
      assert Combine(steps, ins, ws, x, n) == Repeat(0.0, n);
    } else if |ins| == 1 {
      var a := ins[0];
      UnaryStep(steps, i, a);
      var ta := Tan(steps, a, x);
      assert ins[..0] == [] && ws[..0] == [];
      assert Combine(steps, ins, ws, x, n) == AddVals(Repeat(0.0, n), MulVals(ws[0], ta));
      AddZero(MulVals(ws[0], ta));
      assert ws[0] == Repeat(-1.0, n);
      MulMinusOne(ta);
    } else {
      var a, b := ins[0], ins[1];
      BinaryStep(steps, i, s.op, a, b);
      var ta, tb := Tan(steps, a, x), Tan(steps, b, x);
      var va, vb := Vals(steps, a), Vals(steps, b);
      assert ins[..1] == [a] && ws[..1] == [ws[0]];
      assert ins[..1][..0] == [] && ws[..1][..0] == [];
      assert Combine(steps, ins[..1], ws[..1], x, n) == AddVals(Repeat(0.0, n), MulVals(ws[0], ta));
      AddZero(MulVals(ws[0], ta));
      assert Combine(steps, ins, ws, x, n) == AddVals(MulVals(ws[0], ta), MulVals(ws[1], tb));
      match s.op {
        case Add =>
          MulOne(ta);
          MulOne(tb);
        case Sub =>
          SubAsSum(ta, tb);
        case Mul =>
          MulComm(ta, vb);
        case Div =>
          QuotientChain(ta, tb, va, vb);
      }
    }
  }

  /** A step does not depend on any later step: its tangent with respect to one is zero. */
  lemma {:induction false} TanBelow(steps: seq<Step>, i: nat, x: nat)
    requires WellFormed(steps) && i < |steps| && i < x
    ensures Tan(steps, i, x) == Repeat(0.0, NumElements(steps[i].shape))
    decreases i
  {
    Chain(steps, i, x);
    InputsOf(steps, i);
    var ins := steps[i].inputs;
    forall p | 0 <= p < |ins|
      ensures Tan(steps, ins[p], x) == Repeat(0.0, NumElements(steps[i].shape))
    {
      TanBelow(steps, ins[p], x);
    }
    CombineZeros(steps, ins, Partials(steps, i), x, NumElements(steps[i].shape));
  }

  /** A weighted sum of zero tangents is zero. */
  lemma {:induction false} CombineZeros(steps: seq<Step>, ins: seq<nat>, ws: seq<seq<real>>, x: nat, n: nat)
    requires WellFormed(steps) && |ws| == |ins|
    requires forall p :: 0 <= p < |ins| ==> ins[p] < |steps| && NumElements(steps[ins[p]].shape) == n && |ws[p]| == n
    requires forall p :: 0 <= p < |ins| ==> Tan(steps, ins[p], x) == Repeat(0.0, n)
    ensures Combine(steps, ins, ws, x, n) == Repeat(0.0, n)
    decreases |ins|
  {
    if ins != [] {
      var m := |ins| - 1;
      CombineZeros(steps, ins[..m], ws[..m], x, n);
      MulZero(ws[m]);
      AddZero(Repeat(0.0, n));
    }
  }

  /** Scaling a weighted sum scales every weight. */
  lemma {:induction false} CombineScaled(steps: seq<Step>, ins: seq<nat>, ws: seq<seq<real>>, g: seq<real>, cs: seq<seq<real>>, x: nat, n: nat)
    requires WellFormed(steps) && |ws| == |ins| && |cs| == |ins| && |g| == n
    requires forall p :: 0 <= p < |ins| ==> ins[p] < |steps| && NumElements(steps[ins[p]].shape) == n
    requires forall p :: 0 <= p < |ins| ==> |ws[p]| == n && |cs[p]| == n && cs[p] == MulVals(g, ws[p])
    ensures MulVals(g, Combine(steps, ins, ws, x, n)) == Combine(steps, ins, cs, x, n)
    decreases |ins|
  {
    if ins == [] {
      MulZero(g);
    } else {
      var m := |ins| - 1;
      var t := Tan(steps, ins[m], x);
      var rest := Combine(steps, ins[..m], ws[..m], x, n);
      CombineScaled(steps, ins[..m], ws[..m], g, cs[..m], x, n);
      MulAdd(g, rest, MulVals(ws[m], t));
      MulAssoc(g, ws[m], t);
    }
  }

  /** Appending steps changes no earlier step's derivative. */
  lemma {:induction false} TanPrefix(s: seq<Step>, t: seq<Step>, i: nat, x: nat)
    requires WellFormed(s) && WellFormed(t) && Prefix(s, t) && i < |s|
    ensures Tan(s, i, x) == Tan(t, i, x)
    decreases i
  {
    assert StepOk(s, i);
    assert s[i] == t[i];
    var ins := s[i].inputs;
    if |ins| >= 1 {
      TanPrefix(s, t, ins[0], x);
      ValsPrefix(s, t, ins[0]);
    }
    if |ins| == 2 {
      TanPrefix(s, t, ins[1], x);
      ValsPrefix(s, t, ins[1]);
    }
  }
}
