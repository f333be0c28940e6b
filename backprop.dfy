/** The algebra of the reverse sweep, on element values. The sweep keeps one adjoint per
    visited step address: the element values of the gradient of `y` with respect to that
    step, summed over the paths seen so far. Visiting a step hands each of its inputs the
    step's adjoint scaled by the local partial; an address that receives several
    contributions sums them. The sweep invariant `Inv` says that, after the steps from `k`
    upward have been visited, the adjoints account for every derivative of `y`: exactly
    for the addresses at or above `k`, and through the pending sum `Dot` below.
    `Swept` is the whole sweep, and lemma SweptTangents shows that it yields forward
    mode's derivatives. */
module Backprop {
  import opened Tensors
  import opened Operators
  import opened Graphs
  import opened Values
  import opened Vectors
  import opened Derivatives

  type Adjoints = map<nat, seq<real>>

  /** Every adjoint belongs to a step with `n` elements and has `n` elements. */
  ghost predicate Shaped(steps: seq<Step>, adj: Adjoints, n: nat)
  {
    forall j :: j in adj ==> j < |steps| && NumElements(steps[j].shape) == n && |adj[j]| == n
  }

  /** The adjoint of address `a`: zero when nothing has reached it. */
  function Get(adj: Adjoints, a: nat, n: nat): seq<real>
  {
    if a in adj then adj[a] else Repeat(0.0, n)
  }

  /** The tangents of every step with respect to step `x`, by address. */
  ghost function Tans(steps: seq<Step>, x: nat): (r: seq<seq<real>>)
    requires WellFormed(steps)
    ensures |r| == |steps|
    ensures forall j :: 0 <= j < |steps| ==> r[j] == Tan(steps, j, x)
  {
    seq(|steps|, j requires 0 <= j < |steps| => Tan(steps, j, x))
  }

  /** Every adjoint, and the entry of table `ts` at its address, has `n` elements. */
  ghost predicate Fits(adj: Adjoints, ts: seq<seq<real>>, n: nat)
  {
    forall j :: j in adj ==> j < |ts| && |adj[j]| == n && |ts[j]| == n
  }

  /** Address j's share of the pending sum: its adjoint times its entry of `ts`. */
  function Term(adj: Adjoints, ts: seq<seq<real>>, j: nat, n: nat): (r: seq<real>)
    requires j < |ts| && Fits(adj, ts, n)
    ensures |r| == n
  {
    if j in adj then MulVals(adj[j], ts[j]) else Repeat(0.0, n)
  }

  /** The pending sum of the shares of the addresses below `k`. With `ts` the tangents with
      respect to `x`, it is what the addresses not yet visited still owe to the derivative
      with respect to `x`. */
  function Dot(adj: Adjoints, ts: seq<seq<real>>, k: nat, n: nat): (r: seq<real>)
    requires k <= |ts| && Fits(adj, ts, n)
    ensures |r| == n
    decreases k
  {
    if k == 0 then Repeat(0.0, n)
    else AddVals(Dot(adj, ts, k - 1, n), Term(adj, ts, k - 1, n))
  }

  /** Address `a` receives contribution `c`: it is added to what `a` already holds, or
      becomes `a`'s adjoint when `a` holds nothing yet. */
  function Contribute(adj: Adjoints, a: nat, c: seq<real>): (r: Adjoints)
    ensures r.Keys == adj.Keys + {a}
    ensures forall j :: j in adj && j != a ==> r[j] == adj[j]
  {
    if a in adj then adj[a := AddVals(adj[a], c)] else adj[a := c]
  }

  /** Input `ins[p]` receives `cs[p]`, for each p in order. */
  function ContributeAll(adj: Adjoints, ins: seq<nat>, cs: seq<seq<real>>): (r: Adjoints)
    requires |cs| == |ins|
    ensures forall j :: j in r <==> j in adj || j in ins
    ensures forall j :: j in adj && j !in ins ==> r[j] == adj[j]
    decreases |ins|
  {
    if ins == [] then adj
    else
      var m := |ins| - 1;
      assert forall j :: j in ins[..m] ==> j in ins;
      assert forall j :: j in ins ==> j in ins[..m] || j == ins[m];
      Contribute(ContributeAll(adj, ins[..m], cs[..m]), ins[m], cs[m])
  }

  /** ContributeAll one input further. */
  lemma {:induction false} ContributeAllSnoc(adj: Adjoints, ins: seq<nat>, cs: seq<seq<real>>, p: nat)
    requires p < |ins| && |cs| == |ins|
    ensures ContributeAll(adj, ins[..p + 1], cs[..p + 1]) == Contribute(ContributeAll(adj, ins[..p], cs[..p]), ins[p], cs[p])
  {
    assert ins[..p + 1][..p] == ins[..p] && cs[..p + 1][..p] == cs[..p];
  }

  /** ContributeAll over all of the inputs. */
  lemma {:induction false} ContributeAllWhole(adj: Adjoints, ins: seq<nat>, cs: seq<seq<real>>)
    requires |cs| == |ins|
    ensures ContributeAll(adj, ins[..|ins|], cs[..|cs|]) == ContributeAll(adj, ins, cs)
  {
    assert ins[..|ins|] == ins && cs[..|cs|] == cs;
  }

  /** The sweep invariant once the steps from `k` upward have been visited. */
  ghost predicate Inv(steps: seq<Step>, y: nat, adj: Adjoints, k: nat, n: nat)
    requires WellFormed(steps) && y < |steps| && k <= y + 1
  {
    && Shaped(steps, adj, n)
    && (forall j :: j in adj ==> j <= y)
    && (forall x :: 0 <= x < k ==>
          Fits(adj, Tans(steps, x), n) && Tan(steps, y, x) == Dot(adj, Tans(steps, x), k, n))
    && (forall x :: k <= x <= y ==> Tan(steps, y, x) == Get(adj, x, n))
  }

  /** Adjoints of the common shape fit every table of tangents. */
  lemma {:induction false} ShapedFits(steps: seq<Step>, adj: Adjoints, n: nat)
    requires WellFormed(steps) && Shaped(steps, adj, n)
    ensures forall x :: Fits(adj, Tans(steps, x), n)
  {
  }

  /** Adjoints that agree below `k` give the same pending sum. */
  lemma {:induction false} DotSame(a: Adjoints, b: Adjoints, ts: seq<seq<real>>, k: nat, n: nat)
    requires k <= |ts| && Fits(a, ts, n) && Fits(b, ts, n)
    requires forall j :: 0 <= j < k ==> (j in a <==> j in b) && (j in a ==> a[j] == b[j])
    ensures Dot(a, ts, k, n) == Dot(b, ts, k, n)
    decreases k
  {
    if k > 0 {
      DotSame(a, b, ts, k - 1, n);
    }
  }

  /** Without adjoints below `k` the pending sum is zero. */
  lemma {:induction false} DotZeros(adj: Adjoints, ts: seq<seq<real>>, k: nat, n: nat)
    requires k <= |ts| && Fits(adj, ts, n)
    requires forall j :: j in adj ==> j >= k
    ensures Dot(adj, ts, k, n) == Repeat(0.0, n)
    decreases k
  {
    if k > 0 {
      DotZeros(adj, ts, k - 1, n);
      AddZero(Repeat(0.0, n));
    }
  }

  /** The steps below `k` do not depend on a step `x` at or above `k`. */
  lemma {:induction false} DotBelow(steps: seq<Step>, adj: Adjoints, x: nat, k: nat, n: nat)
    requires WellFormed(steps) && k <= |steps| && Shaped(steps, adj, n) && k <= x
    ensures Fits(adj, Tans(steps, x), n) && Dot(adj, Tans(steps, x), k, n) == Repeat(0.0, n)
  {
    var ts := Tans(steps, x);
    forall j | 0 <= j < k && j in adj ensures ts[j] == Repeat(0.0, n) {
      TanBelow(steps, j, x);
    }
    DotZeroOwed(adj, ts, k, n);
  }

  /** With zero entries at the adjoints' addresses below `k` the pending sum is zero. */
  lemma {:induction false} DotZeroOwed(adj: Adjoints, ts: seq<seq<real>>, k: nat, n: nat)
    requires k <= |ts| && Fits(adj, ts, n)
    requires forall j :: 0 <= j < k && j in adj ==> ts[j] == Repeat(0.0, n)
    ensures Dot(adj, ts, k, n) == Repeat(0.0, n)
    decreases k
  {
    if k > 0 {
      var j := k - 1;
      DotZeroOwed(adj, ts, j, n);
      if j in adj {
        assert ts[j] == Repeat(0.0, n);
        MulZero(adj[j]);
      }
      assert Term(adj, ts, j, n) == Repeat(0.0, n);
      assert Dot(adj, ts, k, n) == AddVals(Dot(adj, ts, j, n), Term(adj, ts, j, n));
      AddZero(Repeat(0.0, n));
    }
  }

  /** A contribution keeps every adjoint of the common shape. */
  lemma {:induction false} ContributeShaped(steps: seq<Step>, adj: Adjoints, a: nat, c: seq<real>, n: nat)
    requires Shaped(steps, adj, n) && a < |steps| && NumElements(steps[a].shape) == n && |c| == n
    ensures Shaped(steps, Contribute(adj, a, c), n)
  {
  }

  /** A contribution keeps the adjoints fitting the table. */
  lemma {:induction false} ContributeFits(adj: Adjoints, ts: seq<seq<real>>, a: nat, c: seq<real>, n: nat)
    requires Fits(adj, ts, n) && a < |ts| && |ts[a]| == n && |c| == n
    ensures Fits(Contribute(adj, a, c), ts, n)
  {
  }

  /** A contribution `c` to an address below `k` adds `c` times that address's entry to
      the pending sum. */
  lemma {:induction false} DotUpdate(adj: Adjoints, ts: seq<seq<real>>, a: nat, c: seq<real>, k: nat, n: nat)
    requires k <= |ts| && Fits(adj, ts, n)
    requires a < k && |ts[a]| == n && |c| == n
    ensures Fits(Contribute(adj, a, c), ts, n)
    ensures Dot(Contribute(adj, a, c), ts, k, n) == AddVals(Dot(adj, ts, k, n), MulVals(c, ts[a]))
    decreases k
  {
    ContributeFits(adj, ts, a, c, n);
    if k - 1 == a {
      DotUpdateAt(adj, ts, a, c, n);
    } else {
      DotUpdate(adj, ts, a, c, k - 1, n);
      DotUpdateAbove(adj, ts, a, c, k, n);
    }
  }

  /** DotUpdate where the contribution goes to the last address summed. */
  lemma {:induction false} DotUpdateAt(adj: Adjoints, ts: seq<seq<real>>, a: nat, c: seq<real>, n: nat)
    requires a < |ts| && Fits(adj, ts, n) && |ts[a]| == n && |c| == n
    requires Fits(Contribute(adj, a, c), ts, n)
    ensures Dot(Contribute(adj, a, c), ts, a + 1, n) == AddVals(Dot(adj, ts, a + 1, n), MulVals(c, ts[a]))
  {
    var b := Contribute(adj, a, c);
    var t := ts[a];
    DotSame(adj, b, ts, a, n);
    var d := Dot(adj, ts, a, n);
    if a in adj {
      var u := adj[a];
      assert Term(b, ts, a, n) == MulVals(AddVals(u, c), t);
      MulAdd(t, u, c);
      MulComm(u, t);
      MulComm(c, t);
      MulComm(AddVals(u, c), t);
      AddAssoc(d, MulVals(u, t), MulVals(c, t));
    } else {
      assert Term(b, ts, a, n) == MulVals(c, t);
      AddZero(d);
    }
  }

  /** DotUpdate one address past the one contributed to. */
  lemma {:induction false} DotUpdateAbove(adj: Adjoints, ts: seq<seq<real>>, a: nat, c: seq<real>, k: nat, n: nat)
    requires k <= |ts| && Fits(adj, ts, n)
    requires a + 1 < k && |ts[a]| == n && |c| == n
    requires Fits(Contribute(adj, a, c), ts, n)
    requires Dot(Contribute(adj, a, c), ts, k - 1, n) == AddVals(Dot(adj, ts, k - 1, n), MulVals(c, ts[a]))
    ensures Dot(Contribute(adj, a, c), ts, k, n) == AddVals(Dot(adj, ts, k, n), MulVals(c, ts[a]))
  {
    var b := Contribute(adj, a, c);
    var j := k - 1;
    var d := Dot(adj, ts, j, n);
    var u := Term(adj, ts, j, n);
    var v := MulVals(c, ts[a]);
    assert Term(b, ts, j, n) == u;
    assert Dot(b, ts, k, n) == AddVals(AddVals(d, v), u);
    assert Dot(adj, ts, k, n) == AddVals(d, u);
    AddAssoc(d, v, u);
    AddComm(v, u);
    AddAssoc(d, u, v);
  }

  /** Contributions keep every adjoint of the common shape. */
  lemma {:induction false} ContributeAllShaped(steps: seq<Step>, adj: Adjoints, ins: seq<nat>, cs: seq<seq<real>>, n: nat)
    requires Shaped(steps, adj, n) && |cs| == |ins|
    requires forall p :: 0 <= p < |ins| ==> ins[p] < |steps| && NumElements(steps[ins[p]].shape) == n && |cs[p]| == n
    ensures Shaped(steps, ContributeAll(adj, ins, cs), n)
    decreases |ins|
  {
    if ins != [] {
      var m := |ins| - 1;
      ContributeAllShaped(steps, adj, ins[..m], cs[..m], n);
    }
  }

  /** Contributions to addresses below `k` add their weighted tangents to the pending sum. */
  lemma {:induction false} DotContributeAll(steps: seq<Step>, adj: Adjoints, ins: seq<nat>, cs: seq<seq<real>>, x: nat, k: nat, n: nat)
    requires WellFormed(steps) && k <= |steps| && Shaped(steps, adj, n) && |cs| == |ins|
    requires forall p :: 0 <= p < |ins| ==> ins[p] < k && NumElements(steps[ins[p]].shape) == n && |cs[p]| == n
    ensures Shaped(steps, ContributeAll(adj, ins, cs), n)
    ensures Fits(adj, Tans(steps, x), n) && Fits(ContributeAll(adj, ins, cs), Tans(steps, x), n)
    ensures Dot(ContributeAll(adj, ins, cs), Tans(steps, x), k, n) == AddVals(Dot(adj, Tans(steps, x), k, n), Combine(steps, ins, cs, x, n))
    decreases |ins|
  {
    var ts := Tans(steps, x);
    ContributeAllShaped(steps, adj, ins, cs, n);
    ShapedFits(steps, adj, n);
    ShapedFits(steps, ContributeAll(adj, ins, cs), n);
    var d := Dot(adj, ts, k, n);
    if ins == [] {
      AddZero(d);
    } else {
      var m := |ins| - 1;
      var b := ContributeAll(adj, ins[..m], cs[..m]);
      DotContributeAll(steps, adj, ins[..m], cs[..m], x, k, n);
      DotUpdate(b, ts, ins[m], cs[m], k, n);
      AddAssoc(d, Combine(steps, ins[..m], cs[..m], x, n), MulVals(cs[m], Tan(steps, ins[m], x)));
    }
  }

  /** The sweep starts at `y` with the seed: one at every element. */
  lemma {:induction false} SweepStart(steps: seq<Step>, y: nat, n: nat)
    requires WellFormed(steps) && y < |steps| && n == NumElements(steps[y].shape)
    ensures Inv(steps, y, map[y := Repeat(1.0, n)], y + 1, n)
  {
    var adj := map[y := Repeat(1.0, n)];
    ShapedFits(steps, adj, n);
    forall x | 0 <= x < y + 1
      ensures Tan(steps, y, x) == Dot(adj, Tans(steps, x), y + 1, n)
    {
      var ts := Tans(steps, x);
      DotZeros(adj, ts, y, n);
      assert Dot(adj, ts, y + 1, n) == AddVals(Repeat(0.0, n), MulVals(Repeat(1.0, n), Tan(steps, y, x)));
      MulOne(Tan(steps, y, x));
      AddZero(Tan(steps, y, x));
    }
  }

  /** Passing over an address that holds no adjoint keeps the invariant. */
  lemma {:induction false} SweepSkip(steps: seq<Step>, y: nat, adj: Adjoints, k: nat, n: nat)
    requires WellFormed(steps) && y < |steps| && 1 <= k <= y + 1
    requires Inv(steps, y, adj, k, n) && k - 1 !in adj
    ensures Inv(steps, y, adj, k - 1, n)
  {
    var j := k - 1;
    forall x | 0 <= x < j
      ensures Fits(adj, Tans(steps, x), n) && Tan(steps, y, x) == Dot(adj, Tans(steps, x), j, n)
    {
      DotSkip(adj, Tans(steps, x), j, n);
    }
    forall x | j <= x <= y
      ensures Tan(steps, y, x) == Get(adj, x, n)
    {
      if x == j {
        DotBelow(steps, adj, j, j, n);
        DotSkip(adj, Tans(steps, j), j, n);
      }
    }
  }

  /** An address without an adjoint adds nothing to the pending sum. */
  lemma {:induction false} DotSkip(adj: Adjoints, ts: seq<seq<real>>, j: nat, n: nat)
    requires j < |ts| && Fits(adj, ts, n) && j !in adj
    ensures Dot(adj, ts, j + 1, n) == Dot(adj, ts, j, n)
  {
    assert Dot(adj, ts, j + 1, n) == AddVals(Dot(adj, ts, j, n), Repeat(0.0, n));
    AddZero(Dot(adj, ts, j, n));
  }

  /** Visiting address `k - 1`, which holds an adjoint, and handing each input the adjoint
      times its local partial keeps the invariant: this is the chain rule. */
  lemma {:induction false} SweepVisit(steps: seq<Step>, y: nat, adj: Adjoints, k: nat, n: nat, cs: seq<seq<real>>)
    requires WellFormed(steps) && y < |steps| && 1 <= k <= y + 1
    requires Inv(steps, y, adj, k, n) && k - 1 in adj
    requires |cs| == |steps[k - 1].inputs|
    requires forall p :: 0 <= p < |cs| ==> cs[p] == MulVals(adj[k - 1], Partials(steps, k - 1)[p])
    ensures Inv(steps, y, ContributeAll(adj, steps[k - 1].inputs, cs), k - 1, n)
  {
    var j := k - 1;
    VisitShaped(steps, adj, j, n, cs);
    VisitAllBelow(steps, y, adj, j, n, cs);
    VisitAt(steps, y, adj, k, n);
    VisitAllAbove(steps, y, adj, j, n, cs);
  }

  /** SweepVisit below the visited address: the pending sums are unchanged. */
  lemma {:induction false} VisitAllBelow(steps: seq<Step>, y: nat, adj: Adjoints, j: nat, n: nat, cs: seq<seq<real>>)
    requires WellFormed(steps) && y < |steps| && j < |steps| && Shaped(steps, adj, n) && j in adj
    requires |cs| == |steps[j].inputs|
    requires forall p :: 0 <= p < |cs| ==> cs[p] == MulVals(adj[j], Partials(steps, j)[p])
    requires forall x :: 0 <= x < j + 1 ==>
               Fits(adj, Tans(steps, x), n) && Tan(steps, y, x) == Dot(adj, Tans(steps, x), j + 1, n)
    ensures forall x :: 0 <= x < j ==>
              && Fits(ContributeAll(adj, steps[j].inputs, cs), Tans(steps, x), n)
              && Tan(steps, y, x) == Dot(ContributeAll(adj, steps[j].inputs, cs), Tans(steps, x), j, n)
  {
    forall x | 0 <= x < j
      ensures Fits(ContributeAll(adj, steps[j].inputs, cs), Tans(steps, x), n)
      ensures Tan(steps, y, x) == Dot(ContributeAll(adj, steps[j].inputs, cs), Tans(steps, x), j, n)
    {
      VisitBelow(steps, adj, j, n, cs, x);
    }
  }

  /** SweepVisit from the visited address upward: the visited address's derivative is its
      adjoint, and the adjoints above it are untouched. */
  lemma {:induction false} VisitAllAbove(steps: seq<Step>, y: nat, adj: Adjoints, j: nat, n: nat, cs: seq<seq<real>>)
    requires WellFormed(steps) && y < |steps| && j <= y && j in adj
    requires |cs| == |steps[j].inputs| && forall p :: 0 <= p < |cs| ==> steps[j].inputs[p] < j
    requires forall a :: a in adj ==> a <= y
    requires Tan(steps, y, j) == adj[j]
    requires forall x :: j + 1 <= x <= y ==> Tan(steps, y, x) == Get(adj, x, n)
    ensures forall a :: a in ContributeAll(adj, steps[j].inputs, cs) ==> a <= y
    ensures forall x :: j <= x <= y ==> Tan(steps, y, x) == Get(ContributeAll(adj, steps[j].inputs, cs), x, n)
  {
    var b := ContributeAll(adj, steps[j].inputs, cs);
    ContributeAllAbove(adj, steps[j].inputs, cs, j);
    forall x | j <= x <= y
      ensures Tan(steps, y, x) == Get(b, x, n)
    {
      assert Get(b, x, n) == Get(adj, x, n);
    }
  }

  /** Contributions to addresses below `j` leave the addresses from `j` on as they were. */
  lemma {:induction false} ContributeAllAbove(adj: Adjoints, ins: seq<nat>, cs: seq<seq<real>>, j: nat)
    requires |cs| == |ins| && forall p :: 0 <= p < |ins| ==> ins[p] < j
    ensures forall a :: a in ContributeAll(adj, ins, cs) ==> a in adj || a < j
    ensures forall a :: j <= a ==> (a in ContributeAll(adj, ins, cs) <==> a in adj)
    ensures forall a :: j <= a && a in adj ==> ContributeAll(adj, ins, cs)[a] == adj[a]
  {
    forall a | j <= a ensures a !in ins {
      assert forall p :: 0 <= p < |ins| ==> ins[p] != a;
    }
  }

  /** The visited address's own derivative is its adjoint. */
  lemma {:induction false} VisitAt(steps: seq<Step>, y: nat, adj: Adjoints, k: nat, n: nat)
    requires WellFormed(steps) && y < |steps| && 1 <= k <= y + 1
    requires Inv(steps, y, adj, k, n) && k - 1 in adj
    ensures Tan(steps, y, k - 1) == adj[k - 1]
  {
    var j := k - 1;
    var ts := Tans(steps, j);
    DotBelow(steps, adj, j, j, n);
    assert Tan(steps, y, j) == AddVals(Repeat(0.0, n), MulVals(adj[j], ts[j]));
    assert ts[j] == Repeat(1.0, n);
    MulOne(adj[j]);
    AddZero(adj[j]);
  }

  /** The contributions of a visit have the common shape and go to earlier addresses. */
  lemma {:induction false} VisitShaped(steps: seq<Step>, adj: Adjoints, j: nat, n: nat, cs: seq<seq<real>>)
    requires WellFormed(steps) && j < |steps| && Shaped(steps, adj, n) && j in adj
    requires |cs| == |steps[j].inputs|
    requires forall p :: 0 <= p < |cs| ==> cs[p] == MulVals(adj[j], Partials(steps, j)[p])
    ensures forall p :: 0 <= p < |cs| ==>
              steps[j].inputs[p] < j && NumElements(steps[steps[j].inputs[p]].shape) == n
              && |Partials(steps, j)[p]| == n && |cs[p]| == n
    ensures Shaped(steps, ContributeAll(adj, steps[j].inputs, cs), n)
  {
    PartialsShaped(steps, j);
    InputsOf(steps, j);
    ContributeAllShaped(steps, adj, steps[j].inputs, cs, n);
  }

  /** The pending sum below a visited address is unchanged by its visit. */
  lemma {:induction false} VisitBelow(steps: seq<Step>, adj: Adjoints, j: nat, n: nat, cs: seq<seq<real>>, x: nat)
    requires WellFormed(steps) && j < |steps| && Shaped(steps, adj, n) && j in adj && x < j
    requires |cs| == |steps[j].inputs|
    requires forall p :: 0 <= p < |cs| ==> cs[p] == MulVals(adj[j], Partials(steps, j)[p])
    ensures Fits(adj, Tans(steps, x), n) && Fits(ContributeAll(adj, steps[j].inputs, cs), Tans(steps, x), n)
    ensures Dot(adj, Tans(steps, x), j + 1, n) == Dot(ContributeAll(adj, steps[j].inputs, cs), Tans(steps, x), j, n)
  {
    var ins := steps[j].inputs;
    var ws := Partials(steps, j);
    var ts := Tans(steps, x);
    VisitShaped(steps, adj, j, n, cs);
    Chain(steps, j, x);
    CombineScaled(steps, ins, ws, adj[j], cs, x, n);
    DotContributeAll(steps, adj, ins, cs, x, j, n);
    assert Dot(adj, ts, j + 1, n) == AddVals(Dot(adj, ts, j, n), MulVals(adj[j], Tan(steps, j, x)));
  }

  /** When the sweep is done, every address's adjoint is the derivative of `y` with
      respect to it. */
  lemma {:induction false} SweepEnd(steps: seq<Step>, y: nat, adj: Adjoints, n: nat)
    requires WellFormed(steps) && y < |steps| && n == NumElements(steps[y].shape)
    requires Inv(steps, y, adj, 0, n)
    ensures forall x :: 0 <= x < |steps| ==> Tan(steps, y, x) == Get(adj, x, n)
  {
    forall x | 0 <= x < |steps|
      ensures Tan(steps, y, x) == Get(adj, x, n)
    {
      if y < x {
        TanBelow(steps, y, x);
      }
    }
  }
  /** What a visit of address `j` hands to its inputs: the adjoint of `j` times each local
      partial. */
  ghost function Shares(steps: seq<Step>, adj: Adjoints, j: nat): (r: seq<seq<real>>)
    requires WellFormed(steps) && j < |steps| && j in adj
    ensures |r| == |steps[j].inputs|
    ensures forall p :: 0 <= p < |r| ==> r[p] == MulVals(adj[j], Partials(steps, j)[p])
  {
    var ws := Partials(steps, j);
    seq(|ws|, p requires 0 <= p < |ws| => MulVals(adj[j], ws[p]))
  }

  /** The reverse sweep on values: the adjoints once the addresses from `y` down to `k`
      have been visited. The sweep starts from `y`'s adjoint of ones; visiting an address
      that has an adjoint hands each input its share, and an address without one is
      skipped. */
  ghost function Swept(steps: seq<Step>, y: nat, k: nat): (r: Adjoints)
    requires WellFormed(steps) && y < |steps| && k <= y + 1
    decreases y + 1 - k
  {
    if k == y + 1 then map[y := Repeat(1.0, NumElements(steps[y].shape))]
    else
      var adj := Swept(steps, y, k + 1);
      if k in adj then ContributeAll(adj, steps[k].inputs, Shares(steps, adj, k)) else adj
  }

  /** The sweep keeps its invariant at every address. */
  lemma {:induction false} SweptInv(steps: seq<Step>, y: nat, k: nat)
    requires WellFormed(steps) && y < |steps| && k <= y + 1
    ensures Inv(steps, y, Swept(steps, y, k), k, NumElements(steps[y].shape))
    decreases y + 1 - k
  {
    var n := NumElements(steps[y].shape);
    if k == y + 1 {
      SweepStart(steps, y, n);
    } else {
      SweptInv(steps, y, k + 1);
      var adj := Swept(steps, y, k + 1);
      if k in adj {
        SweepVisit(steps, y, adj, k + 1, n, Shares(steps, adj, k));
      } else {
        SweepSkip(steps, y, adj, k + 1, n);
      }
    }
  }

  /** Reverse mode computes forward mode's derivatives: once every address down to 0 has
      been visited, the adjoint of each address (zero when it received nothing) is the
      tangent of `y` with respect to it. */
  lemma {:induction false} SweptTangents(steps: seq<Step>, y: nat)
    requires WellFormed(steps) && y < |steps|
    ensures forall x :: 0 <= x < |steps| ==>
              Tan(steps, y, x) == Get(Swept(steps, y, 0), x, NumElements(steps[y].shape))
  {
    SweptInv(steps, y, 0);
    SweepEnd(steps, y, Swept(steps, y, 0), NumElements(steps[y].shape));
  }
}
