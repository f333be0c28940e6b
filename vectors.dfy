/** Algebra of the elementwise maps on element sequences of one common length. Every
    identity is proved position by position; the gradient and derivative proofs use them
    to rearrange whole element sequences. */
module Vectors {
  import opened Tensors

  lemma {:induction false} AddComm(u: seq<real>, v: seq<real>)
    requires |u| == |v|
    ensures AddVals(u, v) == AddVals(v, u)
  {
  }

  lemma {:induction false} AddAssoc(u: seq<real>, v: seq<real>, w: seq<real>)
    requires |u| == |v| == |w|
    ensures AddVals(AddVals(u, v), w) == AddVals(u, AddVals(v, w))
  {
  }

  lemma {:induction false} AddZero(v: seq<real>)
    ensures AddVals(Repeat(0.0, |v|), v) == v
    ensures AddVals(v, Repeat(0.0, |v|)) == v
  {
  }

  // Scalar steps. Each takes the very terms that occur in the elementwise goal, so that the
  // products it relates need no rewriting inside them.

  lemma {:induction false} TimesComm(a: real, b: real)
    ensures a * b == b * a
  {
  }

  lemma {:induction false} TimesAssoc(x: real, y: real, a: real, b: real, c: real)
    requires x == a * b && y == b * c
    ensures x * c == a * y
  {
    calc {
      x * c;
      (a * b) * c;
      a * (b * c);
      a * y;
    }
  }

  lemma {:induction false} TimesPlus(a: real, s: real, b: real, c: real)
    requires s == b + c
    ensures a * s == a * b + a * c
    ensures s * a == b * a + c * a
  {
    calc {
      a * s;
      a * (b + c);
      a * b + a * c;
    }
    calc {
      s * a;
      (b + c) * a;
      b * a + c * a;
    }
  }

  lemma {:induction false} TimesConst(m: real, a: real)
    ensures m == 1.0 ==> m * a == a && a * m == a
    ensures m == 0.0 ==> m * a == 0.0 && a * m == 0.0
    ensures m == -1.0 ==> m * a == - a && a * m == - a
  {
  }

  lemma {:induction false} MulComm(u: seq<real>, v: seq<real>)
    requires |u| == |v|
    ensures MulVals(u, v) == MulVals(v, u)
  {
    forall k | 0 <= k < |u|
      ensures MulVals(u, v)[k] == MulVals(v, u)[k]
    {
      TimesComm(u[k], v[k]);
    }
  }

  lemma {:induction false} MulAssoc(u: seq<real>, v: seq<real>, w: seq<real>)
    requires |u| == |v| == |w|
    ensures MulVals(MulVals(u, v), w) == MulVals(u, MulVals(v, w))
  {
    forall k | 0 <= k < |u|
      ensures MulVals(MulVals(u, v), w)[k] == MulVals(u, MulVals(v, w))[k]
    {
      TimesAssoc(MulVals(u, v)[k], MulVals(v, w)[k], u[k], v[k], w[k]);
    }
  }

  /** Distributivity of the elementwise product over the elementwise sum. */
  lemma {:induction false} MulAdd(u: seq<real>, v: seq<real>, w: seq<real>)
    requires |u| == |v| == |w|
    ensures MulVals(u, AddVals(v, w)) == AddVals(MulVals(u, v), MulVals(u, w))
    ensures MulVals(AddVals(v, w), u) == AddVals(MulVals(v, u), MulVals(w, u))
  {
    forall k | 0 <= k < |u|
      ensures MulVals(u, AddVals(v, w))[k] == AddVals(MulVals(u, v), MulVals(u, w))[k]
      ensures MulVals(AddVals(v, w), u)[k] == AddVals(MulVals(v, u), MulVals(w, u))[k]
    {
      TimesPlus(u[k], AddVals(v, w)[k], v[k], w[k]);
    }
  }

  lemma {:induction false} MulOne(v: seq<real>)
    ensures MulVals(Repeat(1.0, |v|), v) == v
    ensures MulVals(v, Repeat(1.0, |v|)) == v
  {
    forall k | 0 <= k < |v|
      ensures MulVals(Repeat(1.0, |v|), v)[k] == v[k] && MulVals(v, Repeat(1.0, |v|))[k] == v[k]
    {
      TimesConst(Repeat(1.0, |v|)[k], v[k]);
    }
  }

  lemma {:induction false} MulZero(v: seq<real>)
    ensures MulVals(Repeat(0.0, |v|), v) == Repeat(0.0, |v|)
    ensures MulVals(v, Repeat(0.0, |v|)) == Repeat(0.0, |v|)
  {
    forall k | 0 <= k < |v|
      ensures MulVals(Repeat(0.0, |v|), v)[k] == 0.0 && MulVals(v, Repeat(0.0, |v|))[k] == 0.0
    {
      TimesConst(Repeat(0.0, |v|)[k], v[k]);
    }
  }

  /** Multiplying by all minus ones negates. */
  lemma {:induction false} MulMinusOne(v: seq<real>)
    ensures MulVals(Repeat(-1.0, |v|), v) == NegVals(v)
    ensures MulVals(v, Repeat(-1.0, |v|)) == NegVals(v)
  {
    forall k | 0 <= k < |v|
      ensures MulVals(Repeat(-1.0, |v|), v)[k] == - v[k] && MulVals(v, Repeat(-1.0, |v|))[k] == - v[k]
    {
      TimesConst(Repeat(-1.0, |v|)[k], v[k]);
    }
  }

  /** A difference is a sum with the subtrahend scaled by minus one. */
  lemma {:induction false} SubAsSum(u: seq<real>, v: seq<real>)
    requires |u| == |v|
    ensures SubVals(u, v) == AddVals(MulVals(Repeat(1.0, |u|), u), MulVals(Repeat(-1.0, |v|), v))
  {
    MulOne(u);
    MulMinusOne(v);
  }

  lemma {:induction false} DivScalar(x: real, y: real, r: real)
    requires r == if y == 0.0 then 0.0 else 1.0 / y
    ensures (if y == 0.0 then 0.0 else x / y) == x * r
  {
    if y != 0.0 {
      calc {
        x / y;
        x * (1.0 / y);
        x * r;
      }
    }
  }

  /** Dividing by `b` is multiplying by its elementwise reciprocal (totally: a zero divisor
      element gives 0 on both sides). */
  lemma {:induction false} DivAsMul(g: seq<real>, b: seq<real>)
    requires |g| == |b|
    ensures DivVals(g, b) == MulVals(g, DivVals(Repeat(1.0, |b|), b))
  {
    forall k | 0 <= k < |g|
      ensures DivVals(g, b)[k] == MulVals(g, DivVals(Repeat(1.0, |b|), b))[k]
    {
      DivScalar(g[k], b[k], DivVals(Repeat(1.0, |b|), b)[k]);
    }
  }

  lemma {:induction false} QuotientRightScalar(x: real, y: real, z: real, q: real, n: real, d: real, s: real, m: real)
    requires q == (if z == 0.0 then 0.0 else y / z) && n == - q
    requires d == (if z == 0.0 then 0.0 else x / z)
    requires s == (if z * z == 0.0 then 0.0 else y / (z * z)) && m == - s
    ensures n * d == x * m
  {
    if z != 0.0 {
      assert z * z != 0.0;
      calc {
        n * d;
        (- (y / z)) * (x / z);
        x * (- (y / (z * z)));
        x * m;
      }
    } else {
      assert n == 0.0 && m == 0.0;
    }
  }

  /** The right-argument gradient of a quotient: `(-(a / b)) * (g / b)` equals
      `g * (-(a / (b * b)))`, position by position (both sides are 0 where b is). */
  lemma {:induction false} QuotientRight(g: seq<real>, a: seq<real>, b: seq<real>)
    requires |g| == |a| == |b|
    ensures MulVals(NegVals(DivVals(a, b)), DivVals(g, b)) == MulVals(g, NegVals(DivVals(a, MulVals(b, b))))
  {
    var lhs := MulVals(NegVals(DivVals(a, b)), DivVals(g, b));
    var rhs := MulVals(g, NegVals(DivVals(a, MulVals(b, b))));
    forall k | 0 <= k < |g|
      ensures lhs[k] == rhs[k]
    {
      QuotientRightAt(g, a, b, k);
    }
  }

  lemma {:induction false} QuotientRightAt(g: seq<real>, a: seq<real>, b: seq<real>, k: nat)
    requires |g| == |a| == |b| && k < |g|
    ensures MulVals(NegVals(DivVals(a, b)), DivVals(g, b))[k] == MulVals(g, NegVals(DivVals(a, MulVals(b, b))))[k]
  {
    QuotientRightScalar(g[k], a[k], b[k], DivVals(a, b)[k], NegVals(DivVals(a, b))[k], DivVals(g, b)[k],
                        DivVals(a, MulVals(b, b))[k], NegVals(DivVals(a, MulVals(b, b)))[k]);
  }

  /** The quotient rule: the forward derivative `(ta * vb - va * tb) / (vb * vb)` is the
      sum of the tangents scaled by the two local partials of a quotient. */
  lemma {:induction false} QuotientChain(ta: seq<real>, tb: seq<real>, va: seq<real>, vb: seq<real>)
    requires |ta| == |tb| == |va| == |vb|
    ensures DivVals(SubVals(MulVals(ta, vb), MulVals(va, tb)), MulVals(vb, vb))
         == AddVals(MulVals(DivVals(Repeat(1.0, |vb|), vb), ta),
                    MulVals(NegVals(DivVals(va, MulVals(vb, vb))), tb))
  {
    var lhs := DivVals(SubVals(MulVals(ta, vb), MulVals(va, tb)), MulVals(vb, vb));
    var rhs := AddVals(MulVals(DivVals(Repeat(1.0, |vb|), vb), ta),
                       MulVals(NegVals(DivVals(va, MulVals(vb, vb))), tb));
    forall k | 0 <= k < |ta|
      ensures lhs[k] == rhs[k]
    {
      QuotientScalar(ta[k], tb[k], va[k], vb[k], MulVals(ta, vb)[k], MulVals(va, tb)[k], MulVals(vb, vb)[k],
                     DivVals(Repeat(1.0, |vb|), vb)[k], DivVals(va, MulVals(vb, vb))[k]);
    }
  }

  lemma {:induction false} QuotientScalar(ta: real, tb: real, va: real, vb: real, p: real, q: real, w: real, r: real, s: real)
    requires p == ta * vb && q == va * tb && w == vb * vb
    requires r == (if vb == 0.0 then 0.0 else 1.0 / vb)
    requires s == (if w == 0.0 then 0.0 else va / w)
    ensures (if w == 0.0 then 0.0 else (p - q) / w) == r * ta + (- s) * tb
  {
    if vb != 0.0 {
      assert w != 0.0;
      calc {
        (p - q) / w;
        (ta * vb - va * tb) / (vb * vb);
        ta * vb / (vb * vb) - va * tb / (vb * vb);
        ta / vb - va * tb / (vb * vb);
        (1.0 / vb) * ta + (- (va / (vb * vb))) * tb;
        r * ta + (- s) * tb;
      }
    } else {
      assert w == 0.0;
    }
  }
}
