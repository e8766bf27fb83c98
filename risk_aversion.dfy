/**
 * The risk-aversion solver of src/risk_aversion.py. Under the closed-form
 * solution of the mean-variance portfolio problem the optimal weights are
 * w = 0.5 * q * inv(Sigma) * R; given observed weights w, returns R and the
 * covariance matrix Sigma, the solver recovers the coefficient q in [0, 100]
 * that brings 0.5 * q * v, with v = inv(Sigma) * R, closest to w.
 */
module RiskAversion {
  import opened Wrappers

  type Vector = seq<real>
  type Matrix = seq<seq<real>>

  /** The bound `minimize_scalar` searches within. */
  const QMin: real := 0.0
  const QMax: real := 100.0

  function Dot(x: Vector, y: Vector): real
    requires |x| == |y|
  {
    if x == [] then 0.0 else x[0] * y[0] + Dot(x[1..], y[1..])
  }

  /** Matrix times vector, one dot product per row. */
  function MatVec(m: Matrix, v: Vector): (r: Vector)
    requires forall i :: 0 <= i < |m| ==> |m[i]| == |v|
    ensures |r| == |m|
  {
    seq(|m|, i requires 0 <= i < |m| => Dot(m[i], v))
  }

  /** `v` is inv(Sigma) * R: Sigma is square, all three have one entry per
      asset, and Sigma * v = R. */
  ghost predicate Solves(sigma: Matrix, v: Vector, r: Vector)
  {
    && |sigma| == |v| == |r|
    && (forall i :: 0 <= i < |sigma| ==> |sigma[i]| == |v|)
    && MatVec(sigma, v) == r
  }

  /** w - 0.5 * q * v */
  function Residual(w: Vector, v: Vector, q: real): (e: Vector)
    requires |w| == |v|
    ensures |e| == |w|
  {
    seq(|w|, i requires 0 <= i < |w| => w[i] - (0.5 * q) * v[i])
  }

  /** The objective F(q) = ||w - 0.5 * q * v||, squared. The square root is
      increasing, so F and its square have the same minimisers. */
  function Objective(w: Vector, v: Vector, q: real): real
    requires |w| == |v|
  {
    var e := Residual(w, v, q);
    Dot(e, e)
  }

  lemma {:induction false} DotSelfNonnegative(x: Vector)
    ensures Dot(x, x) >= 0.0
    ensures Dot(x, x) == 0.0 <==> forall i :: 0 <= i < |x| ==> x[i] == 0.0
  {
    if x != [] {
      var t := x[1..];
      DotSelfNonnegative(t);
      var s, rest := x[0] * x[0], Dot(t, t);
      SquareFacts(x[0], s);
      assert Dot(x, x) == s + rest;
      if Dot(x, x) == 0.0 {
        forall i | 0 <= i < |x| ensures x[i] == 0.0 {
          if i > 0 { assert x[i] == t[i - 1]; }
        }
      }
      if forall i :: 0 <= i < |x| ==> x[i] == 0.0 {
        forall i | 0 <= i < |t| ensures t[i] == 0.0 {
          assert t[i] == x[i + 1];
        }
      }
    }
  }

  /** Sign of a product `prod` = x * y of two non-negative factors. */
  lemma MulSign(x: real, y: real, prod: real)
    requires prod == x * y && x >= 0.0 && y >= 0.0
    ensures prod >= 0.0
    ensures x > 0.0 && y > 0.0 ==> prod > 0.0
  {
  }

  /** A square `s` = a * a is non-negative, and zero only for a = 0. */
  lemma SquareFacts(a: real, s: real)
    requires s == a * a
    ensures s >= 0.0
    ensures a != 0.0 ==> s > 0.0
  {
    if a < 0.0 {
      MulSign(-a, -a, s);
    } else {
      MulSign(a, a, s);
    }
  }

  /** F is never negative. */
  lemma ObjectiveNonnegative(w: Vector, v: Vector, q: real)
    requires |w| == |v|
    ensures Objective(w, v, q) >= 0.0
  {
    DotSelfNonnegative(Residual(w, v, q));
  }

  /** F(q) = 0 exactly when the observed weights are the closed-form weights
      0.5 * q * v. */
  lemma ObjectiveZeroIff(w: Vector, v: Vector, q: real)
    requires |w| == |v|
    ensures Objective(w, v, q) == 0.0 <==> forall i :: 0 <= i < |w| ==> w[i] == 0.5 * q * v[i]
  {
    var e := Residual(w, v, q);
    DotSelfNonnegative(e);
    assert forall i :: 0 <= i < |w| ==> (e[i] == 0.0 <==> w[i] == 0.5 * q * v[i]);
  }

  /** ww - q * wv + q^2 / 4 * vv: the squared residual as a quadratic in q,
      from the three dot products w.w, w.v and v.v. */
  function Quadratic(ww: real, wv: real, vv: real, q: real): real
  {
    ww - q * wv + 0.25 * q * q * vv
  }

  /** One coordinate's contribution: with the residual e = a - q/2 * b and
      the totals over one more coordinate, adding e * e to a quadratic adds
      a * a, a * b and b * b to its coefficients. */
  lemma QuadraticStep(a: real, b: real, q: real, e: real, ww: real, wv: real, vv: real, rest: real,
                      total: real, ww': real, wv': real, vv': real)
    requires e == a - (0.5 * q) * b && rest == Quadratic(ww, wv, vv, q)
    requires total == e * e + rest
    requires ww' == a * a + ww && wv' == a * b + wv && vv' == b * b + vv
    ensures total == Quadratic(ww', wv', vv', q)
  {
    var h, qq := (0.5 * q) * b, 0.25 * q * q;
    assert e * e == a * a - 2.0 * (a * h) + h * h;
    assert a * h == 0.5 * q * (a * b);
    assert h * h == qq * (b * b);
    assert q * (a * b + wv) == q * (a * b) + q * wv;
    assert qq * (b * b + vv) == qq * (b * b) + qq * vv;
    assert Quadratic(ww, wv, vv, q) == ww - q * wv + qq * vv;
    assert Quadratic(ww', wv', vv', q) == ww' - q * wv' + qq * vv';
  }

  lemma ResidualCons(w: Vector, v: Vector, q: real)
    requires |w| == |v| > 0
    ensures Residual(w, v, q)[0] == w[0] - (0.5 * q) * v[0]
    ensures Residual(w, v, q)[1..] == Residual(w[1..], v[1..], q)
  {
    var e, et := Residual(w, v, q), Residual(w[1..], v[1..], q);
    forall i | 0 <= i < |et| ensures e[1..][i] == et[i] {
      assert e[1..][i] == e[i + 1];
    }
  }

  lemma DotCons(x: Vector, y: Vector)
    requires |x| == |y| > 0
    ensures Dot(x, y) == x[0] * y[0] + Dot(x[1..], y[1..])
  {
  }

  lemma ObjectiveCons(w: Vector, v: Vector, q: real)
    requires |w| == |v| > 0
    ensures Residual(w, v, q)[0] == w[0] - (0.5 * q) * v[0]
    ensures Objective(w, v, q) == Residual(w, v, q)[0] * Residual(w, v, q)[0] + Objective(w[1..], v[1..], q)
  {
    ResidualCons(w, v, q);
    DotCons(Residual(w, v, q), Residual(w, v, q));
  }

  lemma {:induction false} ObjectiveIsQuadratic(w: Vector, v: Vector, q: real)
    requires |w| == |v|
    ensures Objective(w, v, q) == Quadratic(Dot(w, w), Dot(w, v), Dot(v, v), q)
  {
    if w != [] {
      var wt, vt := w[1..], v[1..];
      ObjectiveCons(w, v, q);
      ObjectiveIsQuadratic(wt, vt, q);
      DotCons(w, w);
      DotCons(w, v);
      DotCons(v, v);
      QuadraticStep(w[0], v[0], q, Residual(w, v, q)[0], Dot(wt, wt), Dot(wt, vt), Dot(vt, vt),
                    Objective(wt, vt, q), Objective(w, v, q), Dot(w, w), Dot(w, v), Dot(v, v));
    }
  }

  /** Restricts `x` to the interval [lo, hi]. */
  function Clamp(x: real, lo: real, hi: real): (r: real)
    requires lo <= hi
    ensures lo <= r <= hi
    ensures lo <= x <= hi ==> r == x
  {
    if x < lo then lo else if x > hi then hi else x
  }

  datatype SolveError = Degenerate

  /** The unconstrained minimiser of F: 2 (w.v) / (v.v). */
  function Unconstrained(w: Vector, v: Vector): real
    requires |w| == |v| && Dot(v, v) != 0.0
  {
    2.0 * Dot(w, v) / Dot(v, v)
  }

  /** The risk-aversion coefficient: the minimiser of F over [0, 100], that
      is, the unconstrained minimiser moved into the bound. When v = 0, F does
      not depend on q and no coefficient is identified. */
  function RecoverQ(sigma: Matrix, r: Vector, w: Vector, v: Vector): (res: Result<real, SolveError>)
    requires Solves(sigma, v, r) && |w| == |v|
    ensures res.Ok? <==> exists i :: 0 <= i < |v| && v[i] != 0.0
    ensures res.Ok? ==> QMin <= res.value <= QMax
  {
    DotSelfNonnegative(v);
    if Dot(v, v) == 0.0 then Err(Degenerate)
    else Ok(Clamp(Unconstrained(w, v), QMin, QMax))
  }

  /** With the minimiser m = 2 wv / vv, the change of the quadratic between q
      and p factors as vv / 4 * (p - q) * (p + q - 2 m). */
  lemma QuadraticDifference(ww: real, wv: real, vv: real, m: real, q: real, p: real)
    requires vv > 0.0 && m == 2.0 * wv / vv
    ensures Quadratic(ww, wv, vv, p) - Quadratic(ww, wv, vv, q) == 0.25 * vv * ((p - q) * (p + q - 2.0 * m))
  {
    assert wv == 0.5 * vv * m;
    assert p * p - q * q == (p - q) * (p + q);
  }

  /** The clamped minimiser is the strict minimiser of the quadratic over the
      bound. */
  lemma ClampMinimisesQuadratic(ww: real, wv: real, vv: real, p: real)
    requires vv > 0.0 && QMin <= p <= QMax
    ensures var q := Clamp(2.0 * wv / vv, QMin, QMax);
      Quadratic(ww, wv, vv, q) <= Quadratic(ww, wv, vv, p) &&
      (p != q ==> Quadratic(ww, wv, vv, q) < Quadratic(ww, wv, vv, p))
  {
    var m := 2.0 * wv / vv;
    var q := Clamp(m, QMin, QMax);
    QuadraticDifference(ww, wv, vv, m, q, p);
    var diff := (p - q) * (p + q - 2.0 * m);
    if m < QMin {
      // q = 0, and p - 2m > p >= 0
      MulSign(p, p - 2.0 * m, diff);
    } else if m > QMax {
      // q = 100, so both factors are non-positive
      MulSign(q - p, 2.0 * m - p - q, diff);
    } else {
      // q = m, so the difference is a square
      SquareFacts(p - q, diff);
    }
    MulSign(0.25 * vv, diff, 0.25 * vv * diff);
  }

  /** The recovered coefficient minimises F over [0, 100], and it is the only
      point of the bound that does. */
  lemma RecoveredQMinimises(sigma: Matrix, r: Vector, w: Vector, v: Vector, p: real)
    requires Solves(sigma, v, r) && |w| == |v| && RecoverQ(sigma, r, w, v).Ok?
    requires QMin <= p <= QMax
    ensures Objective(w, v, RecoverQ(sigma, r, w, v).value) <= Objective(w, v, p)
    ensures p != RecoverQ(sigma, r, w, v).value ==> Objective(w, v, RecoverQ(sigma, r, w, v).value) < Objective(w, v, p)
  {
    var q := RecoverQ(sigma, r, w, v).value;
    DotSelfNonnegative(v);
    ObjectiveIsQuadratic(w, v, q);
    ObjectiveIsQuadratic(w, v, p);
    ClampMinimisesQuadratic(Dot(w, w), Dot(w, v), Dot(v, v), p);
  }

  /** |x - y| */
  function Distance(x: real, y: real): real
  {
    if x >= y then x - y else y - x
  }

  /** Outside the bound the coefficient is the nearer end of it: of all the
      points of [0, 100], the recovered q is the closest to the unconstrained
      minimiser 2 (w.v) / (v.v). */
  lemma OutOfBoundGivesNearerEnd(sigma: Matrix, r: Vector, w: Vector, v: Vector)
    requires Solves(sigma, v, r) && |w| == |v| && Dot(v, v) != 0.0
    ensures Unconstrained(w, v) < QMin ==> RecoverQ(sigma, r, w, v) == Ok(QMin)
    ensures Unconstrained(w, v) > QMax ==> RecoverQ(sigma, r, w, v) == Ok(QMax)
    ensures QMin <= Unconstrained(w, v) <= QMax ==> RecoverQ(sigma, r, w, v) == Ok(Unconstrained(w, v))
    ensures forall p :: QMin <= p <= QMax ==>
      Distance(RecoverQ(sigma, r, w, v).value, Unconstrained(w, v)) <= Distance(p, Unconstrained(w, v))
  {
  }

  /** When v = 0 the objective does not depend on q: every point of the
      bound minimises it, so the search cannot identify q. */
  lemma DegenerateObjectiveIsFlat(w: Vector, v: Vector, q: real, p: real)
    requires |w| == |v| && forall i :: 0 <= i < |v| ==> v[i] == 0.0
    ensures Objective(w, v, q) == Objective(w, v, p)
  {
    assert Residual(w, v, q) == Residual(w, v, p);
  }

  lemma {:induction false} MatVecZero(m: Matrix, v: Vector)
    requires forall i :: 0 <= i < |m| ==> |m[i]| == |v|
    requires forall i :: 0 <= i < |v| ==> v[i] == 0.0
    ensures forall i :: 0 <= i < |m| ==> MatVec(m, v)[i] == 0.0
  {
    forall i | 0 <= i < |m| ensures Dot(m[i], v) == 0.0 {
      DotWithZero(m[i], v);
    }
  }

  lemma {:induction false} DotWithZero(x: Vector, v: Vector)
    requires |x| == |v| && forall i :: 0 <= i < |v| ==> v[i] == 0.0
    ensures Dot(x, v) == 0.0
  {
    if x != [] {
      assert v[0] == 0.0;
      forall i | 0 <= i < |v[1..]| ensures v[1..][i] == 0.0 {
        assert v[1..][i] == v[i + 1];
      }
      DotWithZero(x[1..], v[1..]);
    }
  }

  /** If some return is non-zero, v = inv(Sigma) * R is not the zero vector,
      so the coefficient is identified. */
  lemma NonzeroReturnsIdentifyQ(sigma: Matrix, r: Vector, w: Vector, v: Vector)
    requires Solves(sigma, v, r) && |w| == |v|
    requires exists i :: 0 <= i < |r| && r[i] != 0.0
    ensures RecoverQ(sigma, r, w, v).Ok?
  {
    if forall i :: 0 <= i < |v| ==> v[i] == 0.0 {
      MatVecZero(sigma, v);
      assert false;
    }
  }

  /** c * v, componentwise. */
  function Scale(c: real, v: Vector): (r: Vector)
    ensures |r| == |v|
  {
    seq(|v|, i requires 0 <= i < |v| => c * v[i])
  }

  /** 0.5 * q * v: the closed-form weights for coefficient q. */
  function ModelWeights(v: Vector, q: real): (w: Vector)
    ensures |w| == |v|
  {
    Scale(0.5 * q, v)
  }

  lemma ScaleCons(c: real, v: Vector)
    requires v != []
    ensures Scale(c, v)[0] == c * v[0]
    ensures Scale(c, v)[1..] == Scale(c, v[1..])
  {
    var s, t := Scale(c, v), Scale(c, v[1..]);
    forall i | 0 <= i < |t| ensures s[1..][i] == t[i] {
      assert s[1..][i] == s[i + 1] && v[1..][i] == v[i + 1];
    }
  }

  lemma ScaleStep(c: real, x: real, cx: real, vv: real, rest: real, total: real, vv': real)
    requires cx == c * x && rest == c * vv
    requires total == cx * x + rest && vv' == x * x + vv
    ensures total == c * vv'
  {
    assert cx * x == c * (x * x);
  }

  lemma {:induction false} DotScaled(v: Vector, c: real)
    ensures Dot(Scale(c, v), v) == c * Dot(v, v)
  {
    if v != [] {
      var s := Scale(c, v);
      ScaleCons(c, v);
      DotCons(s, v);
      DotCons(v, v);
      DotScaled(v[1..], c);
      ScaleStep(c, v[0], s[0], Dot(v[1..], v[1..]), Dot(s[1..], v[1..]), Dot(s, v), Dot(v, v));
    }
  }

  lemma CancelScale(h: real, vv: real, wv: real)
    requires vv != 0.0 && wv == h * vv
    ensures 2.0 * wv / vv == 2.0 * h
  {
  }

  /** Round trip: weights generated by the closed form with a coefficient in
      [0, 100] give that coefficient back. */
  lemma RoundTrip(sigma: Matrix, r: Vector, v: Vector, q0: real)
    requires Solves(sigma, v, r) && QMin <= q0 <= QMax
    requires exists i :: 0 <= i < |r| && r[i] != 0.0
    ensures RecoverQ(sigma, r, ModelWeights(v, q0), v) == Ok(q0)
  {
    var w := ModelWeights(v, q0);
    NonzeroReturnsIdentifyQ(sigma, r, w, v);
    DotSelfNonnegative(v);
    DotScaled(v, 0.5 * q0);
    CancelScale(0.5 * q0, Dot(v, v), Dot(w, v));
    assert Unconstrained(w, v) == q0;
  }
}
