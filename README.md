# Symbolic reverse-mode differentiation on an append-only graph (dycg)

A Dafny model of the autodiff core of the dycg library. It covers four pieces.

- **The computation graph.** A `Graph` is an append-only sequence of steps. Each step
  holds an operator, the addresses of its inputs, and the shape and hardware resolved
  for it, and each step has a memo slot for its value. Every input address names an
  earlier step.
- **`Node` handles.** A node pairs a graph, compared by identity, with a step address.
  `from_scalar`, `fill` and the `+ - * /` and unary `-` sugar each append one step.
- **The operator contract.** Each operator has a name, an arity, a shape rule, a
  hardware rule, an evaluation rule and a symbolic gradient rule. The operators are
  `Constant`, `Add`, `Sub`, `Mul`, `Div` and `Neg`.
- **The `grad` engine.** It seeds dy/dy with ones and visits the steps from `y` down to
  the first. At each visited step it asks the operator's rule for the inputs'
  gradients. It sums what arrives at one address by appending `Add` steps. It answers a
  zero-filled constant for an input that nothing reached.

Gradients are ordinary steps, so gradients of gradients are further `grad` calls.

The main theorem is stated in `Autograd.Grad`. For every well-formed graph and every
requested `x`, the node that `grad` returns holds the derivative of `y` with respect to
`x`, and it evaluates to that derivative whenever `y` evaluates. That derivative is
defined independently, with forward-mode dual numbers: `Derivatives.Tan` and
`Derivatives.Deriv`. The reverse sweep is first described on values (`Backprop.Swept`)
and proved equal to forward mode (`Backprop.SweptTangents`). The imperative engine is
then proved to follow that sweep step by step.

## How the model is built

- **Modules.**
  - `Results`: errors and results.
  - `Tensors`: shapes, hardware and arrays with the elementwise kernels.
  - `Vectors`: algebra on element sequences.
  - `Operators`: the operator contract.
  - `Graphs`: steps, evaluation, and the `Graph` class with `AddStep` and memoised
    `Calculate`.
  - `Values`: step values stated element-wise.
  - `Nodes`: handles and the sugar.
  - `GradientRules`: the symbolic rules.
  - `Derivatives`: forward mode.
  - `Backprop`: the reverse sweep on values.
  - `Autograd`: the engine.
  - `NodeTests` and `GradTests`: the repository's unit tests, replayed as verified
    scenarios.
- **Values.** Element values are mathematical reals. A Div step whose divisor has a zero
  element fails with `DivisionByZero`.
- **Hardware.** Hardware is an opaque class compared by reference.
- **Addressing.** An address is a plain step index, and every operator has one output.
  `src/node.rs` (lines 33-41 and 188-190) and `src/operator/sub.rs` (lines 21-35) use a
  `(step, output)` address with multi-output `perform`. The other operator files and
  `src/node/tests.rs:13-15` use a single output. The model follows the single-output
  revision throughout.
- **Unary minus.** `src/node.rs` has no unary-minus sugar, but the tests and the Div
  and Sub gradient rules use one. `Nodes.Neg` adds it in the shape of the binary sugar.
- **Failing sugar.** Combining nodes of two graphs fails with `InvalidGraph` and leaves
  the graph unchanged. A hardware or shape mismatch also leaves it unchanged. The Rust
  `unwrap` would panic instead.
- **Eager errors.** Hardware and shape are resolved when a step is added (`Graph.AddStep`,
  `Graphs.Resolve`). The sugar in `src/node.rs:96-104` unwraps the result of
  `add_step`, so a mismatch surfaces there. `src/node/tests.rs:16-21` also reads a node's
  `shape()` and `hardware()` before anything is calculated.

## Model

| member | source | states |
|---|---|---|
| `Operators.InputSize` | src/operator/div.rs:16-18 | The arity is 0 exactly for Constant, 1 exactly for Neg and 2 exactly for Add, Sub, Mul and Div. |
| `Operators.Name` | src/operator/div.rs:12-14 | The name is "Constant", "Add", "Sub", "Mul", "Div" or "Neg" exactly for that kind of operator. |
| `Operators.OutputSize` | src/operator/sub.rs:21-23 | Every operator has exactly one output. |
| `Operators.NameIdentifiesKind` | src/operator/div.rs:12-14 | Two operators share a name ("Constant", "Add", "Sub", "Mul", "Div", "Neg") exactly when they are of the same kind, so a step's name identifies its operator. |
| `Operators.PerformShape` | src/operator/div.rs:20-22 | Constant gives the captured value's shape and ignores its inputs. Neg is the identity on its one input shape. A binary operator succeeds exactly on two equal shapes and returns that shape; otherwise it fails with ShapeMismatch. |
| `Operators.PerformHardware` | src/operator/constant.rs:26-31 | Constant gives its value's hardware. Every other operator succeeds exactly when all inputs name the identical hardware and returns it; otherwise it fails with HardwareMismatch. |
| `Operators.Perform` | src/operator/sub.rs:24-26 | A result has the inferred shape and hardware. Once inference succeeds, evaluation fails only on a Div whose divisor has a zero element, and then with DivisionByZero. Constant returns its captured value unchanged. The elements are the operator's rule applied to the inputs' elements. |
| `Operators.PartialAt` | src/operator/div.rs:37-38 | The local partial of each argument, element by element: 1 for Add, ±1 for Sub, the other factor for Mul, 1/b and -a/b² for Div, and -1 for Neg. |
| `Operators.ScaledPartialAt` | src/node/grad_tests.rs:115-136 | Element k of the incoming gradient scaled by the local partials is gy[k] times the partial at the k-th argument elements. |
| `Tensors.Elementwise` | src/operator/div.rs:64-73 | Two shapes are compatible exactly when they are equal; every unequal pair fails with ShapeMismatch. |
| `Tensors.CheckPair` | src/operator/div.rs:75-84 | A two-input kernel accepts exactly the arrays on identical hardware with equal shapes. It reports HardwareMismatch before ShapeMismatch. |
| `Tensors.NegArray` | src/operator/neg.rs:24-26 | Negation keeps shape and hardware and negates every element. |
| `Tensors.SubArray` | src/operator/sub.rs:24-26 | Subtraction succeeds exactly when the pair check does, failing with its error, and then holds a[k] - b[k]. |
| `Tensors.DivArray` | src/operator/div.rs:24-26 | Division succeeds exactly on a checked pair with no zero divisor element, and then holds a[k] / b[k]. It fails with the pair error or with DivisionByZero. |
| `Tensors.AddArray` | src/node/tests.rs:52-69 | Addition succeeds exactly on a checked pair and then holds a[k] + b[k]. |
| `Tensors.MulArray` | src/node/tests.rs:90-107 | Multiplication succeeds exactly on a checked pair and then holds a[k] * b[k]. |
| `Tensors.Fill` | src/node/tests.rs:128-159 | A fill array has the requested shape and hardware, the shape's number of elements, and every element equal to the value. |
| `Tensors.Scalar` | src/node.rs:26-43 | A scalar array has the empty shape and the single element given. |
| `Graphs.Resolve` | src/node.rs:96-104 | A new step resolves exactly when hardware and shape inference both succeed. The error is HardwareMismatch if hardware fails and ShapeMismatch otherwise. A resolved step is well formed at the end of the graph. |
| `Graphs.WellFormedAppend` | src/node.rs:96-104 | Appending a step that is well formed at the end keeps every earlier step well formed. |
| `Graphs.StepOkPrefix` | src/node.rs:96-104 | Whether a step is well formed depends only on the steps up to it, so appending never alters it. |
| `Graphs.InputsAgree` | src/node/tests.rs:16-21 | An input of a step lies strictly before it and has the step's shape and hardware. |
| `Graphs.Eval` | src/node.rs:64-66 | A successful evaluation of step i is a valid array with step i's shape and hardware. |
| `Graphs.EvalPrefix` | src/node.rs:96-104 | Appending steps never changes the value of an existing step. |
| `Graphs.EvalInputErr` | src/node.rs:64-66 | Inputs are evaluated in order, and the first failing input's error is the step's error. |
| `Graphs.EvalFromArgs` | src/node.rs:64-66 | Once all inputs have evaluated, the step evaluates to its operator's `perform` on them. |
| `Graphs.Graph.constructor` | src/node/tests.rs:5-8 | A new graph is valid, with no steps and no memo slots. |
| `Graphs.Graph.NumSteps` | src/node/tests.rs:23-25 | The step count, which equals the number of memo slots of a valid graph. |
| `Graphs.Graph.GetStep` | src/node/tests.rs:23-29 | A step is returned exactly for an address below the step count, and it is the step stored there. |
| `Graphs.Graph.AddStep` | src/node.rs:33-41 | On success, exactly one resolved step with an empty memo slot is appended, and its address is the old step count. On a mismatch nothing changes and the resolution error is returned. The graph stays valid. |
| `Graphs.Graph.Calculate` | src/node.rs:64-66 | The result is the step's value. Steps never change, a filled memo slot is never overwritten, and a successful result is stored in the step's slot. |
| `Graphs.Graph.CalculateInputs` | src/node.rs:64-66 | Either all inputs' values, in input order, or the error with which the step evaluates. Filled memo slots are kept. |
| `Values.ValsStep` | src/operator/div.rs:24-26 | A step's elements are its operator's rule on its inputs' elements. A step is defined exactly when its inputs are and no divisor element is zero. |
| `Values.ValsPrefix` | src/node.rs:96-104 | Appending steps changes neither the elements nor the definedness of an earlier step. |
| `Values.EvalVals` | src/node.rs:64-66 | Evaluation succeeds exactly on defined steps and then yields the step's shape, hardware and elements. Its only failure is DivisionByZero. |
| `Nodes.ShapeOf` | src/node/tests.rs:16-18 | A node's shape is the one resolved for its step, and a computed value of the node has that shape. |
| `Nodes.HardwareOf` | src/node/tests.rs:19-21 | A node's hardware is the one resolved for its step, and a computed value of the node lives on it. |
| `Nodes.Equal` | src/node.rs:81-85 | Two nodes are equal exactly when they have the identical graph and the same address. |
| `Nodes.CheckGraph` | src/node.rs:54-62 | Succeeds, returning the node's graph, exactly when every other node is on that identical graph (vacuously for none). Otherwise it fails with InvalidGraph. |
| `Nodes.FromArray` | src/node.rs:33-41 | Appends exactly one Constant step with no inputs, holding the array with its shape and hardware, and returns its node. |
| `Nodes.FromScalar` | src/node.rs:26-43 | Appends exactly one rank-0 Constant step on the given hardware and returns the node at the old step count. |
| `Nodes.Fill` | src/node/tests.rs:128-159 | Appends exactly one Constant step holding a fill array of the requested shape, and returns its node. |
| `Nodes.Binary` | src/node.rs:93-106 | For operands on one graph with the same hardware and shape, appends one step whose inputs are `[lhs, rhs]` in operand order and returns its node on lhs's graph. Otherwise nothing changes and the error names the first failed check: InvalidGraph, then HardwareMismatch, then ShapeMismatch. |
| `Nodes.Add` | src/node.rs:90-107 | As Binary, with an Add step. |
| `Nodes.Sub` | src/node.rs:110-127 | As Binary, with a Sub step. |
| `Nodes.Mul` | src/node.rs:130-147 | As Binary, with a Mul step. |
| `Nodes.Div` | src/node.rs:150-167 | As Binary, with a Div step. |
| `Nodes.Neg` | src/node/tests.rs:36-50 | Appends exactly one Neg step on the operand's address, with its shape and hardware, and returns its node. |
| `Nodes.Calculate` | src/node.rs:64-66 | The node's value is the evaluation of its step on its graph. Only the memo slots change. |
| `GradientRules.AddRule` | src/node/grad_tests.rs:69-90 | `[gy, gy]` carries gy times the partials of Add for both inputs, and appends nothing. |
| `GradientRules.SubRule` | src/operator/sub.rs:28-35 | `[gy, -gy]`, one new Neg step, carries gy times the partials of Sub. |
| `GradientRules.MulRule` | src/node/grad_tests.rs:115-136 | `[gy*b, gy*a]`, two new Mul steps, carries gy times the partials of Mul. |
| `GradientRules.DivRule` | src/operator/div.rs:28-39 | `gx0 = gy / b` and `-y * gx0` carry gy times 1/b and -a/b², and are defined wherever y and gy are. |
| `GradientRules.DivRuleLeft` | src/operator/div.rs:37 | The first Div result `gy / b` carries gy times 1/b. |
| `GradientRules.DivRuleRight` | src/operator/div.rs:38 | The second Div result `-y * gx0` carries gy times -a/b². |
| `GradientRules.NegRule` | src/operator/neg.rs:28-38 | `[-gy]`, one new Neg step, carries gy times -1. |
| `GradientRules.AddGradient` | src/node/grad_tests.rs:69-90 | Returns `[gy, gy]` and leaves the graph unchanged. Each result carries its share. |
| `GradientRules.SubGradient` | src/operator/sub.rs:28-35 | Returns gy itself and one new Neg step of gy, appended with y's shape and hardware. Each result carries its share. |
| `GradientRules.MulGradient` | src/node/grad_tests.rs:115-136 | Appends `gy*x[1]` and then `gy*x[0]` and returns them in input order. Each carries its share. |
| `GradientRules.DivGradient` | src/operator/div.rs:28-39 | Appends the Div, Neg and Mul steps of `gy / x[1]` and `-y * gx0`, and returns the Div and Mul nodes. Each carries its share. |
| `GradientRules.NegGradient` | src/operator/neg.rs:28-38 | Appends one Neg step of gy and returns it. It carries gy times -1. |
| `GradientRules.Gradient` | src/operator/constant.rs:18-20 | Dispatches on the operator. A Constant has no inputs and gets no gradients. Every rule only appends steps, and returns one node per input carrying gy times that input's local partial. |
| `Derivatives.Chain` | src/node/grad_tests.rs:180-207 | Chain rule: the derivative of a step other than x is the sum, over its inputs, of each local partial times that input's derivative. |
| `Derivatives.TanBelow` | src/node/grad_tests.rs:33-49 | A step derives nothing from a later step: the tangent is all zeros. |
| `Derivatives.TanPrefix` | src/node/grad_tests.rs:241-282 | Appending steps, such as the ones a first `grad` call adds, leaves every earlier step's derivatives unchanged. |
| `Backprop.SweepStart` | src/node/grad_tests.rs:16-31 | The seed, y's adjoint of ones and nothing else, satisfies the sweep invariant above y. |
| `Backprop.SweptInv` | src/node/grad_tests.rs:138-156 | At every point of the descending sweep, summing each visited address's shares into its inputs keeps the invariant. For a visited address, its adjoint is y's derivative with respect to it. For an address x below them, y's derivative with respect to x is the sum, over the addresses holding an adjoint, of that adjoint times their derivative with respect to x. |
| `Backprop.SweptTangents` | src/node/grad_tests.rs:180-207 | Reverse mode computes forward mode. After the sweep, the adjoint of each address (zero when nothing reached it) is y's derivative with respect to it. |
| `Autograd.Grad` | src/node/grad_tests.rs:5-282 | Succeeds exactly when every x is on y's graph; otherwise it fails with InvalidGraph and changes nothing. It returns one node per x, in order, each with x's shape and hardware, holding the derivative of y with respect to x. Each node evaluates to that derivative whenever y evaluates. Only steps are appended. |
| `Autograd.Seed` | src/node/grad_tests.rs:16-31 | Appends exactly one Constant step, a fill of ones with y's shape and hardware, with an empty memo slot. That node becomes the accumulator's only entry, at y's address. The adjoints are the start of the reference sweep. |
| `Autograd.Sweep` | src/node/grad_tests.rs:180-207 | Visits the addresses from y down to 0, ending with the accumulator that holds the reference sweep's adjoints. |
| `Autograd.SweepStep` | src/node/grad_tests.rs:180-207 | Address k-1 is visited exactly when it has received gradient. The accumulator then matches the reference sweep one address further down. |
| `Autograd.Visit` | src/node/grad_tests.rs:115-136 | Visiting j hands each input of j its share, j's adjoint times the local partial, in input order. |
| `Autograd.Rule` | src/node/grad_tests.rs:115-136 | The operator's rule, run on j's accumulated gradient, returns one node per input of j, carrying that input's share. |
| `Autograd.AccumulateAll` | src/node/grad_tests.rs:138-156 | Adds each returned node to its input address in order. The accumulator then holds the adjoints with every share summed in. |
| `Autograd.Accumulate` | src/node/grad_tests.rs:138-156 | A first contribution to an address is stored as is, and the graph is unchanged. A further one appends exactly one Add step over the address's node and the contribution, which becomes the address's node; so x + x gets both operand positions. The adjoint gains the contribution. |
| `Autograd.AddCarries` | src/node/grad_tests.rs:144-155 | The Add step that merges two contributions carries their elementwise sum and keeps the accumulator valid. |
| `Autograd.UnreachedCarries` | src/node/grad_tests.rs:33-49 | An address that received nothing answers with a new zero-filled Constant of its own shape and hardware, which holds its (zero) derivative. |
| `Autograd.ReachedCarries` | src/node/grad_tests.rs:16-31 | An address that received gradient answers with its accumulated node, which holds its derivative. |
| `Autograd.Collect` | src/node/grad_tests.rs:78-84 | Answers, for each requested x in order, a node holding y's derivative with respect to x. |
| `NodeTests.ArithmeticValue` | src/node.rs:199-241 | On constants 1 and 2, Add, Sub, Mul and Div evaluate to the scalars 3, -1, 2 and 0.5. |
| `NodeTests.StepsScenario` | src/node/tests.rs:5-34 | After `lhs + rhs` the three nodes sit at addresses 0, 1 and 2 of a 3-step graph. All are rank 0 on the given hardware, the steps are named Constant, Constant and Add, and the sum evaluates to 3. |
| `NodeTests.ArithmeticScenario` | src/node.rs:199-241 | The sugar run on scalar nodes 1 and 2 yields a rank-0 node on the same hardware, evaluating to 3, -1, 2 or 0.5. |
| `NodeTests.NegScenario` | src/node/tests.rs:36-50 | `-x` on the scalar 42 is rank 0 on the same hardware and evaluates to -42. |
| `NodeTests.FillScenario` | src/node/tests.rs:128-159 | Fill with 123 evaluates to the scalar 123 for shape [], to no elements for [0], and to [123, 123, 123] for [3]. |
| `NodeTests.MultipleValue` | src/node/tests.rs:161-181 | `a + -b * c` at (1, 2, 3) is defined and evaluates to -5. |
| `NodeTests.MultipleValueNoNeg` | src/node.rs:243-253 | `a + b * c` at (1, 2, 3) is defined and evaluates to 7. |
| `NodeTests.MultipleComputationScenario` | src/node/tests.rs:161-181 | The sugar builds `a + -b * c` and it evaluates to -5. |
| `NodeTests.MultipleComputationNoNegScenario` | src/node.rs:243-253 | The sugar builds `a + b * c` and it evaluates to 7. |
| `GradTests.GradAll` | src/node/grad_tests.rs:78-84 | One value per requested x, in order, each of x's shape and hardware, holding y's derivative with respect to x. |
| `GradTests.EmptyScenario` | src/node/grad_tests.rs:5-14 | `grad(y, [])` succeeds with the empty list. |
| `GradTests.SelfScenario` | src/node/grad_tests.rs:16-31 | `grad(x, [x])` evaluates to 1. |
| `GradTests.UnrelatedScenario` | src/node/grad_tests.rs:33-49 | The gradient with respect to an x that y does not use evaluates to 0. |
| `GradTests.NegDerivs` | src/node/grad_tests.rs:51-67 | d(-x)/dx is -1. |
| `GradTests.NegScenario` | src/node/grad_tests.rs:51-67 | `grad(-x, [x])` evaluates to -1. |
| `GradTests.SumDerivs` | src/node/grad_tests.rs:69-90 | d(a ± b)/da is 1, and d(a ± b)/db is 1 for Add and -1 for Sub. |
| `GradTests.AddScenario` | src/node/grad_tests.rs:69-90 | `grad(a + b, [a, b])` evaluates to [1, 1]. |
| `GradTests.SubScenario` | src/node/grad_tests.rs:92-113 | `grad(a - b, [a, b])` evaluates to [1, -1]. |
| `GradTests.MulDerivs` | src/node/grad_tests.rs:115-136 | d(ab)/da is b and d(ab)/db is a, for all a and b. |
| `GradTests.MulScenario` | src/node/grad_tests.rs:115-136 | `grad(a * b, [a, b])` at (123, 456) evaluates to [456, 123]. |
| `GradTests.SquareDeriv` | src/node/grad_tests.rs:138-156 | d(x·x)/dx is 2x for all x: both operand positions contribute. |
| `GradTests.MulQuadraticScenario` | src/node/grad_tests.rs:138-156 | `grad(x * x, [x])` at 123 evaluates to 246. |
| `GradTests.DivDerivs` | src/node/grad_tests.rs:158-178 | d(a/b)/da is 0.5 and d(a/b)/db is -0.75 at (3, 2). |
| `GradTests.DivScenario` | src/node/grad_tests.rs:158-178 | `grad(a / b, [a, b])` at (3, 2) evaluates to [0.5, -0.75]. |
| `GradTests.MultipleDerivs` | src/node/grad_tests.rs:180-207 | The derivatives of `a + -b * c` at (1, 2, 3) are 1, -3 and -2. |
| `GradTests.MultipleComputationScenario` | src/node/grad_tests.rs:180-207 | `grad(a + -b * c, [a, b, c])` evaluates to [1, -3, -2]. |
| `GradTests.GradAt` | src/node/grad_tests.rs:209-239 | One `grad` call for one x. It only appends steps and keeps every earlier step's definedness. The answer has x's shape and hardware, and when y is defined it is defined and evaluates to dy/dx. |
| `GradTests.CubeDeriv` | src/node/grad_tests.rs:209-239 | d(x³)/dx at 5 is 75. |
| `GradTests.HigherOrderScenario` | src/node/grad_tests.rs:209-239 | The first `grad` of x³ at 5 evaluates to 75, and the three further `grad` calls succeed with rank-0 values on the same hardware. |
| `GradTests.TwoVariableDerivs` | src/node/grad_tests.rs:241-282 | For y = a·a·b at (2, 3), dy/da is 12 and dy/db is 4. |
| `GradTests.MultipleVariablesScenario` | src/node/grad_tests.rs:241-282 | The first-order gradients evaluate to 12 and 4, and the four second-order `grad` calls succeed with rank-0 values on the same hardware. |
| `GradTests.SecondOrder` | src/node/grad_tests.rs:253-256 | Differentiating two defined first-order gradient nodes by a and by b gives four defined rank-0 values on the same hardware. |

## Left out

- `src/buffer.rs` (raw device memory handles and the lock around foreign allocation
  calls) is not part of this model. It is unsafe memory plumbing with no functional
  behaviour to state.
- `RefCell` and `Mutex` borrow discipline and the panics of `unwrap`: a failed check is
  an error result, a violated precondition or an unchanged graph.
- IEEE f32 arithmetic: values are reals. Where f32 would produce an infinity or NaN for
  a zero divisor, the model fails with `DivisionByZero`.
- `Display` and `Debug` formatting of nodes (`src/node.rs:69-79`): output only.
- `Node::to_scalar` (`src/node.rs:45-52`) calls `calculate` and then the array's own
  `to_scalar`, which is array code. The tests' `get_values_f32` and `get_scalar_f32`
  readbacks are array code too. Scenarios compare the evaluated array instead.
- `array.rs`, `graph.rs` and the CPU kernels are not modelled. Their behaviour is taken
  from how `src/node.rs` and `src/operator/*.rs` use them: elementwise kernels,
  `add_step` resolution and memoised `calculate`.
- The body of `grad` is not modelled from code. The engine is modelled from the
  behaviour `src/node/grad_tests.rs` fixes.
- The multi-output addressing of `src/operator/sub.rs:21-35` and
  `src/node.rs:188-190`: the single-output scheme is used throughout. `OutputSize` is
  always 1.
- Constant's gradient: `src/operator/constant.rs` defines none. A Constant step that
  receives gradient, such as a requested x, is still visited. The engine asks its rule,
  and `Gradient` returns the empty list, since a Constant has no inputs.
- HigherOrderScenario: proves the first derivative (75) and that the three further
  calls succeed with rank-0 values, but not their values 30, 6 and 0. `Grad`'s contract
  states the values of the nodes it returns but not which steps it appends, and the
  derivative of a gradient node depends on those steps.
- MultipleVariablesScenario: proves y_a = 12 and y_b = 4 and that the second-order calls
  succeed, but not the second-order values (y_aa = 6, y_ab = y_ba = 4, y_bb = 0), for the
  same reason.
- SecondOrder: states only that the four second-order results are defined rank-0
  values, for the same reason.
- The third-order calls of the two-variable test (`src/node/grad_tests.rs:258-265`) are
  not replayed, since their values depend on the same unmodelled structure.
