/** The values of a graph's steps, stated on their elements. `Vals` applies each step's
    evaluation rule to its inputs' elements (a zero divisor element gives 0), and
    `Defined` says when evaluation succeeds; lemma EvalVals shows that together they are
    exactly what evaluating the step yields. All reasoning about gradients is done on
    these two. */
module Values {
  import opened Results
  import opened Tensors
  import opened Operators
  import opened Graphs

  /** The elements of step i. */
  ghost function Vals(steps: seq<Step>, i: nat): (r: seq<real>)
    requires WellFormed(steps) && i < |steps|
    ensures |r| == NumElements(steps[i].shape)
    decreases i
  {
    assert StepOk(steps, i);
    var s := steps[i];
    if |s.inputs| == 0 then
      ApplyVals(s.op, [])
    else if |s.inputs| == 1 then
      InputsAgree(steps, i, 0);
      ApplyVals(s.op, [Vals(steps, s.inputs[0])])
    else
      InputsAgree(steps, i, 0);
      InputsAgree(steps, i, 1);
      ApplyVals(s.op, [Vals(steps, s.inputs[0]), Vals(steps, s.inputs[1])])
  }

  /** Step i evaluates: all of its inputs do, and no divisor it uses has a zero element. */
  ghost predicate Defined(steps: seq<Step>, i: nat)
    requires WellFormed(steps) && i < |steps|
    decreases i
  {
    assert StepOk(steps, i);
    var s := steps[i];
    if |s.inputs| == 0 then true
    else if |s.inputs| == 1 then Defined(steps, s.inputs[0])
    else
      && Defined(steps, s.inputs[0]) && Defined(steps, s.inputs[1])
      && !(s.op.Div? && 0.0 in Vals(steps, s.inputs[1]))
  }

  /** The elements of step i's inputs, in input order. */
  ghost function ArgVals(steps: seq<Step>, i: nat): (r: seq<seq<real>>)
    requires WellFormed(steps) && i < |steps|
    ensures |r| == |steps[i].inputs|
    ensures forall p :: 0 <= p < |r| ==> steps[i].inputs[p] < i && r[p] == Vals(steps, steps[i].inputs[p])
  {
    assert StepOk(steps, i);
    var ins := steps[i].inputs;
    seq(|ins|, p requires 0 <= p < |ins| => Vals(steps, ins[p]))
  }

  /** One step of the recursion: the inputs come first and have the step's shape, the
      elements are the operator's rule on the inputs' elements, and the step is defined
      exactly when its inputs are and no divisor element is zero. */
  lemma {:induction false} ValsStep(steps: seq<Step>, i: nat)
    requires WellFormed(steps) && i < |steps|
    ensures StepOk(steps, i)
    ensures forall p :: 0 <= p < |steps[i].inputs| ==>
              steps[i].inputs[p] < i && steps[steps[i].inputs[p]].shape == steps[i].shape
              && steps[steps[i].inputs[p]].hw == steps[i].hw
    ensures Vals(steps, i) == ApplyVals(steps[i].op, ArgVals(steps, i))
    ensures Defined(steps, i) <==>
              && (|steps[i].inputs| >= 1 ==> Defined(steps, steps[i].inputs[0]))
              && (|steps[i].inputs| == 2 ==> Defined(steps, steps[i].inputs[1]))
              && !(steps[i].op.Div? && 0.0 in Vals(steps, steps[i].inputs[1]))
  {
    InputsOf(steps, i);
    ValsRule(steps, i);
    DefinedRule(steps, i);
  }

  lemma {:induction false} InputsOf(steps: seq<Step>, i: nat)
    requires WellFormed(steps) && i < |steps|
    ensures StepOk(steps, i)
    ensures forall p :: 0 <= p < |steps[i].inputs| ==>
              steps[i].inputs[p] < i && steps[steps[i].inputs[p]].shape == steps[i].shape
              && steps[steps[i].inputs[p]].hw == steps[i].hw
  {
    assert StepOk(steps, i);
    forall p | 0 <= p < |steps[i].inputs|
      ensures steps[i].inputs[p] < i && steps[steps[i].inputs[p]].shape == steps[i].shape
              && steps[steps[i].inputs[p]].hw == steps[i].hw
    {
      InputsAgree(steps, i, p);
    }
  }

  lemma {:induction false} ValsRule(steps: seq<Step>, i: nat)
    requires WellFormed(steps) && i < |steps|
    ensures StepOk(steps, i)
    ensures Vals(steps, i) == ApplyVals(steps[i].op, ArgVals(steps, i))
  {
    assert StepOk(steps, i);
    var s := steps[i];
    if |s.inputs| == 1 {
      assert ArgVals(steps, i) == [Vals(steps, s.inputs[0])];
    } else if |s.inputs| == 2 {
      assert ArgVals(steps, i) == [Vals(steps, s.inputs[0]), Vals(steps, s.inputs[1])];
    } else {
      assert ArgVals(steps, i) == [];
    }
  }

  lemma {:induction false} DefinedRule(steps: seq<Step>, i: nat)
    requires WellFormed(steps) && i < |steps|
    ensures StepOk(steps, i)
    ensures Defined(steps, i) <==>
              && (|steps[i].inputs| >= 1 ==> Defined(steps, steps[i].inputs[0]))
              && (|steps[i].inputs| == 2 ==> Defined(steps, steps[i].inputs[1]))
              && !(steps[i].op.Div? && 0.0 in Vals(steps, steps[i].inputs[1]))
  {
    assert StepOk(steps, i);
  }

  /** Appending steps changes neither the elements nor the definedness of a step. */
  lemma {:induction false} ValsPrefix(s: seq<Step>, t: seq<Step>, i: nat)
    requires WellFormed(s) && WellFormed(t) && Prefix(s, t) && i < |s|
    ensures s[i] == t[i] && Vals(s, i) == Vals(t, i) && Defined(s, i) == Defined(t, i)
    decreases i
  {
    assert StepOk(s, i) && StepOk(t, i);
    assert s[i] == t[i];
    var ins := s[i].inputs;
    if |ins| >= 1 {
      ValsPrefix(s, t, ins[0]);
    }
    if |ins| == 2 {
      ValsPrefix(s, t, ins[1]);
    }
  }

  /** Appending steps does not change the elements of a step's inputs. */
  lemma {:induction false} ArgValsPrefix(s: seq<Step>, t: seq<Step>, i: nat)
    requires WellFormed(s) && WellFormed(t) && Prefix(s, t) && i < |s|
    ensures s[i] == t[i] && ArgVals(s, i) == ArgVals(t, i)
  {
    assert StepOk(s, i);
    assert s[i] == t[i];
    var ins := s[i].inputs;
    forall p | 0 <= p < |ins| ensures Vals(s, ins[p]) == Vals(t, ins[p]) {
      ValsPrefix(s, t, ins[p]);
    }
  }

  /** ValsStep for a negation step `Neg [a]`. */
  lemma {:induction false} UnaryStep(s: seq<Step>, i: nat, a: nat)
    requires WellFormed(s) && i < |s| && s[i].op.Neg? && s[i].inputs == [a]
    ensures a < i && s[a].shape == s[i].shape
    ensures Vals(s, i) == NegVals(Vals(s, a))
    ensures Defined(s, i) <==> Defined(s, a)
  {
    ValsStep(s, i);
  }

  /** ValsStep for a two-input step `op [a, b]`. */
  lemma {:induction false} BinaryStep(s: seq<Step>, i: nat, op: Op, a: nat, b: nat)
    requires WellFormed(s) && i < |s| && s[i].op == op && s[i].inputs == [a, b] && IsBinary(op)
    ensures a < i && b < i && s[a].shape == s[i].shape && s[b].shape == s[i].shape
    ensures ArgVals(s, i) == [Vals(s, a), Vals(s, b)]
    ensures Vals(s, i) == ApplyVals(op, [Vals(s, a), Vals(s, b)])
    ensures Defined(s, i) <==> Defined(s, a) && Defined(s, b) && !(op.Div? && 0.0 in Vals(s, b))
  {
    ValsStep(s, i);
    assert ArgVals(s, i) == [Vals(s, a), Vals(s, b)];
  }

  /** Evaluation of step i agrees with Vals and Defined: it succeeds exactly when the step
      is defined, then yields an array of the step's shape and hardware holding its
      elements, and otherwise fails on a zero divisor. */
  ghost predicate EvalAgrees(steps: seq<Step>, i: nat)
    requires WellFormed(steps) && i < |steps|
  {
    && (Eval(steps, i).Ok? <==> Defined(steps, i))
    && (Eval(steps, i).Ok? ==> Eval(steps, i).value == Array(steps[i].shape, steps[i].hw, Vals(steps, i)))
    && (Eval(steps, i).Err? ==> Eval(steps, i).error == DivisionByZero)
  }

  /** Evaluation succeeds exactly on the defined steps, and then yields an array of the
      step's shape and hardware holding its elements; its only failure is a zero
      divisor element. */
  lemma {:induction false} EvalVals(steps: seq<Step>, i: nat)
    requires WellFormed(steps) && i < |steps|
    ensures Eval(steps, i).Ok? <==> Defined(steps, i)
    ensures Eval(steps, i).Ok? ==> Eval(steps, i).value == Array(steps[i].shape, steps[i].hw, Vals(steps, i))
    ensures Eval(steps, i).Err? ==> Eval(steps, i).error == DivisionByZero
    decreases i
  {
    assert StepOk(steps, i);
    var s := steps[i];
    if |s.inputs| == 1 {
      EvalVals(steps, s.inputs[0]);
      InputsAgree(steps, i, 0);
      EvalUnary(steps, i);
    } else if |s.inputs| == 2 {
      EvalVals(steps, s.inputs[0]);
      EvalVals(steps, s.inputs[1]);
      InputsAgree(steps, i, 0);
      InputsAgree(steps, i, 1);
      EvalBinary(steps, i);
    }
  }

  lemma {:induction false} EvalUnary(steps: seq<Step>, i: nat)
    requires WellFormed(steps) && i < |steps| && |steps[i].inputs| == 1
    requires var a := steps[i].inputs[0];
      && a < i && steps[a].shape == steps[i].shape && steps[a].hw == steps[i].hw && EvalAgrees(steps, a)
    ensures EvalAgrees(steps, i)
  {
    assert StepOk(steps, i);
    var a := steps[i].inputs[0];
    if Eval(steps, a).Ok? {
      var x := Eval(steps, a).value;
      assert Shapes([x]) == InputShapes(steps, steps[i].inputs);
      assert Hardwares([x]) == InputHardwares(steps, steps[i].inputs);
      assert ValsOf([x]) == [Vals(steps, a)];
    }
  }

  lemma {:induction false} EvalBinary(steps: seq<Step>, i: nat)
    requires WellFormed(steps) && i < |steps| && |steps[i].inputs| == 2
    requires var a, b := steps[i].inputs[0], steps[i].inputs[1];
      && a < i && steps[a].shape == steps[i].shape && steps[a].hw == steps[i].hw && EvalAgrees(steps, a)
      && b < i && steps[b].shape == steps[i].shape && steps[b].hw == steps[i].hw && EvalAgrees(steps, b)
    ensures EvalAgrees(steps, i)
  {
    assert StepOk(steps, i);
    var a, b := steps[i].inputs[0], steps[i].inputs[1];
    if Eval(steps, a).Ok? && Eval(steps, b).Ok? {
      var x, y := Eval(steps, a).value, Eval(steps, b).value;
      assert Shapes([x, y]) == InputShapes(steps, steps[i].inputs);
      assert Hardwares([x, y]) == InputHardwares(steps, steps[i].inputs);
      assert ValsOf([x, y]) == [Vals(steps, a), Vals(steps, b)];
    }
  }
}
