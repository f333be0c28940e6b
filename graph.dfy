/** The append-only computation graph. A step is an operator with the addresses of its
    inputs; an address is a step index, and every input of step i names a step before i,
    so descending index order is a reverse-topological order. Each step has one output,
    whose address is the step's own index. */
module Graphs {
  import opened Results
  import opened Tensors
  import opened Operators

  /** One step: the operator, its input addresses, and the shape and hardware resolved
      from the inputs when the step was added. */
  datatype Step = Step(op: Op, inputs: seq<nat>, shape: Shape, hw: Hardware)

  /** `s` is an initial segment of `t`: appending never alters earlier steps. */
  predicate Prefix<T(==)>(s: seq<T>, t: seq<T>)
  {
    |s| <= |t| && s == t[..|s|]
  }

  lemma {:induction false} PrefixTrans<T>(a: seq<T>, b: seq<T>, c: seq<T>)
    requires Prefix(a, b) && Prefix(b, c)
    ensures Prefix(a, c)
  {
    assert c[..|b|][..|a|] == c[..|a|];
  }

  function InputShapes(steps: seq<Step>, ins: seq<nat>): (r: seq<Shape>)
    requires forall p :: 0 <= p < |ins| ==> ins[p] < |steps|
    ensures |r| == |ins| && forall p :: 0 <= p < |ins| ==> r[p] == steps[ins[p]].shape
  {
    seq(|ins|, p requires 0 <= p < |ins| => steps[ins[p]].shape)
  }

  function InputHardwares(steps: seq<Step>, ins: seq<nat>): (r: seq<Hardware>)
    requires forall p :: 0 <= p < |ins| ==> ins[p] < |steps|
    ensures |r| == |ins| && forall p :: 0 <= p < |ins| ==> r[p] == steps[ins[p]].hw
  {
    seq(|ins|, p requires 0 <= p < |ins| => steps[ins[p]].hw)
  }

  /** Step i has the operator's arity, only earlier inputs, and the shape and hardware
      that the operator infers from its inputs'. */
  ghost predicate StepOk(steps: seq<Step>, i: nat)
    requires i < |steps|
  {
    var s := steps[i];
    && |s.inputs| == InputSize(s.op)
    && (forall p :: 0 <= p < |s.inputs| ==> s.inputs[p] < i)
    && (s.op.Constant? ==> ValidArray(s.op.value))
    && PerformHardware(s.op, InputHardwares(steps, s.inputs)) == Ok(s.hw)
    && PerformShape(s.op, InputShapes(steps, s.inputs)) == Ok(s.shape)
  }

  ghost predicate WellFormed(steps: seq<Step>)
  {
    forall i :: 0 <= i < |steps| ==> StepOk(steps, i)
  }

  /** Resolution of a new step against the existing ones: hardware first, then shape. */
  function Resolve(steps: seq<Step>, op: Op, inputs: seq<nat>): (r: Result<Step>)
    requires |inputs| == InputSize(op)
    requires forall p :: 0 <= p < |inputs| ==> inputs[p] < |steps|
    requires op.Constant? ==> ValidArray(op.value)
    ensures r.Ok? <==> PerformHardware(op, InputHardwares(steps, inputs)).Ok?
                       && PerformShape(op, InputShapes(steps, inputs)).Ok?
    ensures r.Err? ==> r.error == (if PerformHardware(op, InputHardwares(steps, inputs)).Err?
                                   then HardwareMismatch else ShapeMismatch)
    ensures r.Ok? ==> r.value.op == op && r.value.inputs == inputs
    ensures r.Ok? ==> StepOk(steps + [r.value], |steps|)
  {
    var hw :- PerformHardware(op, InputHardwares(steps, inputs));
    var shape :- PerformShape(op, InputShapes(steps, inputs));
    var step := Step(op, inputs, shape, hw);
    assert InputShapes(steps + [step], inputs) == InputShapes(steps, inputs);
    assert InputHardwares(steps + [step], inputs) == InputHardwares(steps, inputs);
    Ok(step)
  }

  /** Whether step i is well formed depends only on the steps up to i. */
  lemma {:induction false} StepOkPrefix(s: seq<Step>, t: seq<Step>, i: nat)
    requires Prefix(s, t) && i < |s|
    ensures StepOk(s, i) <==> StepOk(t, i)
  {
    assert s[i] == t[i];
    var ins := s[i].inputs;
    if forall p :: 0 <= p < |ins| ==> ins[p] < i {
      assert InputShapes(s, ins) == InputShapes(t, ins);
      assert InputHardwares(s, ins) == InputHardwares(t, ins);
    }
  }

  lemma {:induction false} WellFormedPrefix(s: seq<Step>, t: seq<Step>)
    requires Prefix(s, t) && WellFormed(t)
    ensures WellFormed(s)
  {
    forall i | 0 <= i < |s| ensures StepOk(s, i) {
      StepOkPrefix(s, t, i);
    }
  }

  /** Appending a step that is well formed at the end keeps the graph well formed. */
  lemma {:induction false} WellFormedAppend(s: seq<Step>, step: Step)
    requires WellFormed(s) && StepOk(s + [step], |s|)
    ensures WellFormed(s + [step])
  {
    forall i | 0 <= i < |s| + 1 ensures StepOk(s + [step], i) {
      if i < |s| {
        StepOkPrefix(s, s + [step], i);
      }
    }
  }

  /** The inputs of an operator step have the step's own shape and hardware: shapes and
      hardware are uniform along every edge of a well-formed graph. */
  lemma {:induction false} InputsAgree(steps: seq<Step>, i: nat, p: nat)
    requires WellFormed(steps) && i < |steps| && p < |steps[i].inputs|
    ensures steps[i].inputs[p] < i
    ensures steps[steps[i].inputs[p]].shape == steps[i].shape
    ensures steps[steps[i].inputs[p]].hw == steps[i].hw
  {
    assert StepOk(steps, i);
    var ins := steps[i].inputs;
    assert InputShapes(steps, ins)[p] == steps[ins[p]].shape;
    assert InputHardwares(steps, ins)[p] == steps[ins[p]].hw;
  }

  /** The value of step i, computed from its inputs' values (the cache plays no part). */
  ghost function Eval(steps: seq<Step>, i: nat): (r: Result<Array>)
    requires WellFormed(steps) && i < |steps|
    ensures r.Ok? ==> ValidArray(r.value) && r.value.shape == steps[i].shape && r.value.hw == steps[i].hw
    decreases i
  {
    assert StepOk(steps, i);
    var s := steps[i];
    if |s.inputs| == 0 then
      Perform(s.op, [])
    else if |s.inputs| == 1 then
      var a :- Eval(steps, s.inputs[0]);
      assert Shapes([a]) == InputShapes(steps, s.inputs);
      assert Hardwares([a]) == InputHardwares(steps, s.inputs);
      Perform(s.op, [a])
    else
      var a :- Eval(steps, s.inputs[0]);
      var b :- Eval(steps, s.inputs[1]);
      assert Shapes([a, b]) == InputShapes(steps, s.inputs);
      assert Hardwares([a, b]) == InputHardwares(steps, s.inputs);
      Perform(s.op, [a, b])
  }

  /** Appending steps never changes the value of an existing step. */
  lemma {:induction false} EvalPrefix(s: seq<Step>, t: seq<Step>, i: nat)
    requires WellFormed(s) && WellFormed(t) && Prefix(s, t) && i < |s|
    ensures Eval(s, i) == Eval(t, i)
    decreases i
  {
    assert StepOk(s, i);
    assert s[i] == t[i];
    var ins := s[i].inputs;
    forall p | 0 <= p < |ins| ensures Eval(s, ins[p]) == Eval(t, ins[p]) {
      EvalPrefix(s, t, ins[p]);
    }
  }

  /** When the inputs before the k-th evaluate and the k-th fails, step i fails with the
      k-th input's error: inputs are evaluated in order and the first error is returned. */
  lemma {:induction false} EvalInputErr(steps: seq<Step>, i: nat, k: nat)
    requires WellFormed(steps) && i < |steps| && k < |steps[i].inputs|
    requires forall p :: 0 <= p < k ==> steps[i].inputs[p] < i && Eval(steps, steps[i].inputs[p]).Ok?
    requires steps[i].inputs[k] < i && Eval(steps, steps[i].inputs[k]).Err?
    ensures Eval(steps, i) == Eval(steps, steps[i].inputs[k])
  {
    assert StepOk(steps, i);
    var ins := steps[i].inputs;
    var e := Eval(steps, ins[k]).error;
    if k == 0 {
      assert Eval(steps, i) == Err(e);
    } else {
      assert k == 1 && |ins| == 2 && Eval(steps, ins[0]).Ok?;
      assert Eval(steps, i) == Err(e);
    }
  }

  /** Once every input of step i has evaluated to `args`, step i evaluates to the
      operator applied to them. */
  lemma {:induction false} EvalFromArgs(steps: seq<Step>, i: nat, args: seq<Array>)
    requires WellFormed(steps) && i < |steps|
    requires |args| == |steps[i].inputs|
    requires forall p :: 0 <= p < |args| ==> steps[i].inputs[p] < i && Eval(steps, steps[i].inputs[p]) == Ok(args[p])
    ensures StepOk(steps, i)
    ensures forall p :: 0 <= p < |args| ==> ValidArray(args[p])
    ensures |args| == InputSize(steps[i].op)
    ensures steps[i].op.Constant? ==> ValidArray(steps[i].op.value)
    ensures Eval(steps, i) == Perform(steps[i].op, args)
  {
    assert StepOk(steps, i);
    if |args| == 1 {
      assert args == [args[0]];
    } else if |args| == 2 {
      assert args == [args[0], args[1]];
    }
  }

  /** The first |args| inputs of step i evaluate to `args`. */
  ghost predicate InputsEvaluated(steps: seq<Step>, i: nat, args: seq<Array>)
    requires WellFormed(steps) && i < |steps|
  {
    && |args| <= |steps[i].inputs|
    && forall p :: 0 <= p < |args| ==> steps[i].inputs[p] < i && Eval(steps, steps[i].inputs[p]) == Ok(args[p])
  }

  /** One more input evaluated. */
  lemma {:induction false} InputsEvaluatedSnoc(steps: seq<Step>, i: nat, args: seq<Array>, a: Array)
    requires WellFormed(steps) && i < |steps| && InputsEvaluated(steps, i, args) && |args| < |steps[i].inputs|
    requires steps[i].inputs[|args|] < i && Eval(steps, steps[i].inputs[|args|]) == Ok(a)
    ensures InputsEvaluated(steps, i, args + [a])
  {
    var args' := args + [a];
    forall p | 0 <= p < |args'|
      ensures steps[i].inputs[p] < i && Eval(steps, steps[i].inputs[p]) == Ok(args'[p])
    {
      if p < |args| {
        assert args'[p] == args[p];
      }
    }
  }

  /** Every memo slot filled in `c0` holds the same value in `c1`. */
  predicate KeepsFilled(c0: seq<Option<Array>>, c1: seq<Option<Array>>)
  {
    |c0| == |c1| && forall j :: 0 <= j < |c0| && c0[j].Some? ==> c1[j] == c0[j]
  }

  /** A graph: the append-only sequence of steps, and beside it the memo slot of each
      step (`cache[i]` belongs to step i), filled at most once, with the step's value. */
  class Graph {
    var steps: seq<Step>
    var cache: seq<Option<Array>>

    ghost predicate Valid()
      reads this
    {
      && WellFormed(steps)
      && |cache| == |steps|
      && forall i :: 0 <= i < |steps| && cache[i].Some? ==> Eval(steps, i) == Ok(cache[i].value)
    }

    constructor ()
      ensures Valid() && steps == [] && cache == []
    {
      steps := [];
      cache := [];
    }

    /** The number of steps, which is also the number of memo slots of a valid graph. */
    function NumSteps(): (n: nat)
      reads this
      ensures n == |steps|
      ensures Valid() ==> n == |cache|
    {
      |steps|
    }

    function GetStep(i: nat): (r: Option<Step>)
      reads this
      ensures r.Some? <==> i < NumSteps()
      ensures r.Some? ==> r.value == steps[i]
    {
      if i < |steps| then Some(steps[i]) else None
    }

    /** Appends one resolved step, with an empty memo slot, and returns its address;
        on a hardware or shape mismatch nothing is appended. */
    method AddStep(op: Op, inputs: seq<nat>) returns (r: Result<nat>)
      requires Valid()
      requires |inputs| == InputSize(op)
      requires forall p :: 0 <= p < |inputs| ==> inputs[p] < |steps|
      requires op.Constant? ==> ValidArray(op.value)
      modifies this
      ensures Valid()
      ensures r.Ok? <==> Resolve(old(steps), op, inputs).Ok?
      ensures r.Ok? ==> r.value == |old(steps)|
                        && steps == old(steps) + [Resolve(old(steps), op, inputs).value]
                        && cache == old(cache) + [None]
      ensures r.Err? ==> r.error == Resolve(old(steps), op, inputs).error
                         && steps == old(steps) && cache == old(cache)
    {
      var step := Resolve(steps, op, inputs);
      if step.Err? {
        return Err(step.error);
      }
      ghost var before := steps;
      WellFormedAppend(steps, step.value);
      steps := steps + [step.value];
      cache := cache + [None];
      forall i | 0 <= i < |before| ensures Eval(before, i) == Eval(steps, i) {
        EvalPrefix(before, steps, i);
      }
      r := Ok(|steps| - 1);
    }

    /** Memoised forward evaluation: returns the value of step i, computing its inputs
        first, and fills the memo slot of every step it computes. Steps never change;
        a filled slot is never overwritten. */
    method Calculate(i: nat) returns (r: Result<Array>)
      requires Valid() && i < |steps|
      modifies this`cache
      ensures Valid() && KeepsFilled(old(cache), cache)
      ensures r == Eval(steps, i)
      ensures r.Ok? ==> cache[i] == Some(r.value)
      decreases i, 1
    {
      if cache[i].Some? {
        return Ok(cache[i].value);
      }
      var args := CalculateInputs(i);
      if args.Err? {
        return Err(args.error);
      }
      EvalFromArgs(steps, i, args.value);
      r := Perform(steps[i].op, args.value);
      if r.Ok? {
        cache := cache[i := Some(r.value)];
      }
    }

    /** The values of the inputs of step i, in input order; the first input that fails
        decides the error, and the inputs after it are not computed. */
    method CalculateInputs(i: nat) returns (r: Result<seq<Array>>)
      requires Valid() && i < |steps|
      modifies this`cache
      ensures Valid() && KeepsFilled(old(cache), cache)
      ensures r.Ok? ==> |r.value| == |steps[i].inputs|
      ensures r.Ok? ==> forall p :: 0 <= p < |r.value| ==>
                          steps[i].inputs[p] < i && Eval(steps, steps[i].inputs[p]) == Ok(r.value[p])
      ensures r.Err? ==> Eval(steps, i) == Err(r.error)
      decreases i, 0
    {
      assert StepOk(steps, i);
      var ins := steps[i].inputs;
      var args: seq<Array> := [];
      var k := 0;
      while k < |ins|
        invariant 0 <= k <= |ins| && |args| == k
        invariant Valid() && KeepsFilled(old(cache), cache)
        invariant InputsEvaluated(steps, i, args)
      {
        assert ins[k] < i by { InputsAgree(steps, i, k); }
        var a := Calculate(ins[k]);
        if a.Err? {
          EvalInputErr(steps, i, k);
          return Err(a.error);
        }
        InputsEvaluatedSnoc(steps, i, args, a.value);
        args := args + [a.value];
        k := k + 1;
      }
      r := Ok(args);
    }
  }
}
