/** Shapes, hardware handles and materialised arrays, with the elementwise kernels the
    operators call. Element values are mathematical reals; the kernels of a backend are
    modelled by their effect on those reals. */
module Tensors {
  import opened Results

  /** A compute backend. Identity is by reference: two backends are never interchangeable,
      even when they behave alike. */
  class Hardware {
    constructor ()
    {
    }
  }

  /** An ordered sequence of dimension sizes; rank 0 is a scalar. */
  type Shape = seq<nat>

  /** Number of elements: the product of the dimensions (the empty product is 1). */
  function NumElements(s: Shape): nat
  {
    if s == [] then 1 else s[0] * NumElements(s[1..])
  }

  /** The elementwise-compatibility rule: two shapes are compatible exactly when they are
      structurally equal, and the common shape is that shape. */
  function Elementwise(a: Shape, b: Shape): (r: Result<Shape>)
    ensures r.Ok? <==> a == b
    ensures r.Ok? ==> r.value == a && r.value == b
    ensures r.Err? ==> r.error == ShapeMismatch
  {
    if a == b then Ok(a) else Err(ShapeMismatch)
  }

  /** An immutable array value: shape, the hardware it lives on, and its elements. */
  datatype Array = Array(shape: Shape, hw: Hardware, vals: seq<real>)

  /** An array holds exactly as many elements as its shape describes. */
  predicate ValidArray(a: Array)
  {
    |a.vals| == NumElements(a.shape)
  }

  /** `n` copies of `v`. */
  function Repeat(v: real, n: nat): (r: seq<real>)
    ensures |r| == n && forall k :: 0 <= k < n ==> r[k] == v
  {
    seq(n, k => v)
  }

  function Min(a: nat, b: nat): nat
  {
    if a <= b then a else b
  }

  // The elementwise maps of the kernels. A two-argument map runs over the positions the
  // two sequences share; the kernels only apply them to sequences of equal length.

  function NegVals(xs: seq<real>): (r: seq<real>)
    ensures |r| == |xs| && forall k :: 0 <= k < |xs| ==> r[k] == - xs[k]
  {
    seq(|xs|, k requires 0 <= k < |xs| => - xs[k])
  }

  function AddVals(xs: seq<real>, ys: seq<real>): (r: seq<real>)
    ensures |r| == Min(|xs|, |ys|) && forall k :: 0 <= k < |r| ==> r[k] == xs[k] + ys[k]
  {
    seq(Min(|xs|, |ys|), k requires 0 <= k < Min(|xs|, |ys|) => xs[k] + ys[k])
  }

  function SubVals(xs: seq<real>, ys: seq<real>): (r: seq<real>)
    ensures |r| == Min(|xs|, |ys|) && forall k :: 0 <= k < |r| ==> r[k] == xs[k] - ys[k]
  {
    seq(Min(|xs|, |ys|), k requires 0 <= k < Min(|xs|, |ys|) => xs[k] - ys[k])
  }

  function MulVals(xs: seq<real>, ys: seq<real>): (r: seq<real>)
    ensures |r| == Min(|xs|, |ys|) && forall k :: 0 <= k < |r| ==> r[k] == xs[k] * ys[k]
  {
    seq(Min(|xs|, |ys|), k requires 0 <= k < Min(|xs|, |ys|) => xs[k] * ys[k])
  }

  /** Elementwise quotient; a zero divisor element gives 0 (the kernel never divides by
      one: it reports DivisionByZero instead). */
  function DivVals(xs: seq<real>, ys: seq<real>): (r: seq<real>)
    ensures |r| == Min(|xs|, |ys|)
    ensures forall k :: 0 <= k < |r| ==> r[k] == if ys[k] == 0.0 then 0.0 else xs[k] / ys[k]
  {
    seq(Min(|xs|, |ys|), k requires 0 <= k < Min(|xs|, |ys|) => if ys[k] == 0.0 then 0.0 else xs[k] / ys[k])
  }

  /** An array of the given shape on the given hardware with every element equal to `v`. */
  function Fill(hw: Hardware, shape: Shape, v: real): (r: Array)
    ensures ValidArray(r) && r.shape == shape && r.hw == hw
    ensures forall k :: 0 <= k < |r.vals| ==> r.vals[k] == v
  {
    Array(shape, hw, Repeat(v, NumElements(shape)))
  }

  /** The rank-0 array holding `v`. */
  function Scalar(hw: Hardware, v: real): (r: Array)
    ensures ValidArray(r) && r.shape == [] && r.vals == [v]
  {
    Fill(hw, [], v)
  }

  /** What a two-input kernel checks first: both arrays on the same hardware and of
      elementwise-compatible shapes. */
  function CheckPair(a: Array, b: Array): (r: Result<Shape>)
    ensures r.Ok? <==> a.hw == b.hw && a.shape == b.shape
    ensures r.Ok? ==> r.value == a.shape
    ensures r.Err? ==> r.error == (if a.hw != b.hw then HardwareMismatch else ShapeMismatch)
  {
    if a.hw != b.hw then Err(HardwareMismatch) else Elementwise(a.shape, b.shape)
  }

  function NegArray(a: Array): (r: Array)
    requires ValidArray(a)
    ensures ValidArray(r) && r.shape == a.shape && r.hw == a.hw && |r.vals| == |a.vals|
    ensures forall k :: 0 <= k < |a.vals| ==> r.vals[k] == - a.vals[k]
  {
    Array(a.shape, a.hw, NegVals(a.vals))
  }

  function AddArray(a: Array, b: Array): (r: Result<Array>)
    requires ValidArray(a) && ValidArray(b)
    ensures r.Ok? <==> CheckPair(a, b).Ok?
    ensures r.Err? ==> r.error == CheckPair(a, b).error
    ensures r.Ok? ==> ValidArray(r.value) && r.value.shape == a.shape && r.value.hw == a.hw
    ensures r.Ok? ==> forall k :: 0 <= k < |a.vals| ==> r.value.vals[k] == a.vals[k] + b.vals[k]
  {
    var _ :- CheckPair(a, b);
    Ok(Array(a.shape, a.hw, AddVals(a.vals, b.vals)))
  }

  function SubArray(a: Array, b: Array): (r: Result<Array>)
    requires ValidArray(a) && ValidArray(b)
    ensures r.Ok? <==> CheckPair(a, b).Ok?
    ensures r.Err? ==> r.error == CheckPair(a, b).error
    ensures r.Ok? ==> ValidArray(r.value) && r.value.shape == a.shape && r.value.hw == a.hw
    ensures r.Ok? ==> forall k :: 0 <= k < |a.vals| ==> r.value.vals[k] == a.vals[k] - b.vals[k]
  {
    var _ :- CheckPair(a, b);
    Ok(Array(a.shape, a.hw, SubVals(a.vals, b.vals)))
  }

  function MulArray(a: Array, b: Array): (r: Result<Array>)
    requires ValidArray(a) && ValidArray(b)
    ensures r.Ok? <==> CheckPair(a, b).Ok?
    ensures r.Err? ==> r.error == CheckPair(a, b).error
    ensures r.Ok? ==> ValidArray(r.value) && r.value.shape == a.shape && r.value.hw == a.hw
    ensures r.Ok? ==> forall k :: 0 <= k < |a.vals| ==> r.value.vals[k] == a.vals[k] * b.vals[k]
  {
    var _ :- CheckPair(a, b);
    Ok(Array(a.shape, a.hw, MulVals(a.vals, b.vals)))
  }

  /** Some element of `a` is zero. */
  predicate HasZero(a: Array)
  {
    0.0 in a.vals
  }

  /** Elementwise quotient. Where f32 would produce an infinity or NaN for a zero divisor,
      the model reports DivisionByZero. */
  function DivArray(a: Array, b: Array): (r: Result<Array>)
    requires ValidArray(a) && ValidArray(b)
    ensures r.Ok? <==> CheckPair(a, b).Ok? && !HasZero(b)
    ensures r.Err? ==> r.error == (if CheckPair(a, b).Err? then CheckPair(a, b).error else DivisionByZero)
    ensures r.Ok? ==> ValidArray(r.value) && r.value.shape == a.shape && r.value.hw == a.hw
    ensures r.Ok? ==> forall k :: 0 <= k < |a.vals| ==> b.vals[k] != 0.0 && r.value.vals[k] == a.vals[k] / b.vals[k]
  {
    var _ :- CheckPair(a, b);
    if HasZero(b) then Err(DivisionByZero)
    else Ok(Array(a.shape, a.hw, DivVals(a.vals, b.vals)))
  }
}
