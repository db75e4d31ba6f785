/** Precision, recall and f-score: `prf` and `attr_prf`, over exact rationals. */
module Metrics {
  import opened Annotations
  import opened Attributes

  datatype Scores = Scores(precision: real, recall: real, fscore: real)

  /** `prf(tp, fp, fn)`. A zero denominator for precision or recall gives
      three zeros; otherwise precision and recall are the usual ratios and the
      f-score is their harmonic mean, whose own denominator `p + r` is zero
      exactly when there is no tp but both fp and fn are positive, where the
      source raises ZeroDivisionError. */
  function Prf(tp: nat, fp: nat, fn: nat): (r: Result<Scores, Error>)
    ensures r.Failure? <==> tp == 0 && fp > 0 && fn > 0
    ensures r.Failure? ==> r.error == ZeroDivision
    ensures tp + fp == 0 || tp + fn == 0 ==> r == Success(Scores(0.0, 0.0, 0.0))
    ensures r.Success? && tp + fp > 0 && tp + fn > 0 ==>
              && r.value.precision * (tp + fp) as real == tp as real
              && r.value.recall * (tp + fn) as real == tp as real
    ensures r.Success? ==>
              && 0.0 <= r.value.precision <= 1.0
              && 0.0 <= r.value.recall <= 1.0
  {
    if tp + fp == 0 || tp + fn == 0 then Success(Scores(0.0, 0.0, 0.0))
    else
      var p := tp as real / (tp + fp) as real;
      var rc := tp as real / (tp + fn) as real;
      Ratio(tp as real, (tp + fp) as real);
      Ratio(tp as real, (tp + fn) as real);
      if p + rc == 0.0 then Failure(ZeroDivision)
      else Success(Scores(p, rc, 2.0 * p * rc / (p + rc)))
  }

  /** A ratio of a part to its positive whole lies in [0, 1], is zero only
      for an empty part, and times the whole gives the part back. */
  lemma Ratio(t: real, d: real)
    requires 0.0 <= t <= d && d > 0.0
    ensures (t / d) * d == t && 0.0 <= t / d <= 1.0 && (t / d == 0.0 <==> t == 0.0)
  {
    assert t / d <= d / d;
  }

  /** Whenever `prf` succeeds on non-zero denominators, the f-score is
      2tp / (2tp + fp + fn), so it lies in [0, 1] and between precision and
      recall. */
  lemma PrfFscore(tp: nat, fp: nat, fn: nat)
    requires Prf(tp, fp, fn).Success? && tp + fp > 0 && tp + fn > 0
    ensures var s := Prf(tp, fp, fn).value;
            && s.fscore * (2 * tp + fp + fn) as real == (2 * tp) as real
            && 0.0 <= s.fscore <= 1.0
            && (s.precision <= s.fscore <= s.recall || s.recall <= s.fscore <= s.precision)
  {
    var t, a, b := tp as real, (tp + fp) as real, (tp + fn) as real;
    assert Prf(tp, fp, fn).value == Scores(t / a, t / b, 2.0 * (t / a) * (t / b) / (t / a + t / b));
    HarmonicMean(t, a, b);
    assert (2 * tp + fp + fn) as real == a + b;
  }

  /** The harmonic mean f of t/a and t/b: f (a + b) = 2t, f is in [0, 1]
      when t <= a and t <= b, and f lies between the two quotients. */
  lemma HarmonicMean(t: real, a: real, b: real)
    requires 0.0 < t <= a && t <= b
    ensures var f := 2.0 * (t / a) * (t / b) / (t / a + t / b);
            && f * (a + b) == 2.0 * t
            && 0.0 <= f <= 1.0
            && (t / a <= f <= t / b || t / b <= f <= t / a)
  {
    Harmonic(t, a, b);
    var f := 2.0 * t / (a + b);
    assert f * (a + b) == 2.0 * t;
    DivLe(2.0 * t, a + b, 1.0, 1.0);
    DivLe(0.0, 1.0, 2.0 * t, a + b);
    if a <= b {
      Between(t, a, b);
    } else {
      Between(t, b, a);
      assert b + a == a + b;
    }
  }

  /** 2t/(a + b) lies between t/b and t/a when a <= b. */
  lemma Between(t: real, a: real, b: real)
    requires t > 0.0 && 0.0 < a <= b
    ensures t / b <= 2.0 * t / (a + b) <= t / a
  {
    assert t * a <= t * b;
    assert t * (a + b) == t * a + t * b;
    assert 2.0 * t * b == t * b + t * b;
    assert 2.0 * t * a == t * a + t * a;
    DivLe(t, b, 2.0 * t, a + b);
    DivLe(2.0 * t, a + b, t, a);
  }

  /** Swapping fp and fn swaps precision and recall and keeps the f-score. */
  lemma PrfSwap(tp: nat, fp: nat, fn: nat)
    ensures Prf(tp, fp, fn).Success? <==> Prf(tp, fn, fp).Success?
    ensures Prf(tp, fp, fn).Success? ==>
              var x, y := Prf(tp, fp, fn).value, Prf(tp, fn, fp).value;
              y == Scores(x.recall, x.precision, x.fscore)
  {
    if tp + fp > 0 && tp + fn > 0 && tp > 0 {
      var t, a, b := tp as real, (tp + fp) as real, (tp + fn) as real;
      Harmonic(t, a, b);
      Harmonic(t, b, a);
      assert a + b == b + a;
    }
  }

  /** The harmonic mean of t/a and t/b is 2t/(a + b). */
  lemma Harmonic(t: real, a: real, b: real)
    requires t > 0.0 && a > 0.0 && b > 0.0
    ensures 2.0 * (t / a) * (t / b) / (t / a + t / b) == 2.0 * t / (a + b)
  {
    var p, q := t / a, t / b;
    assert p * a == t;
    assert q * b == t;
    var f := 2.0 * p * q / (p + q);
    assert f * (p + q) == 2.0 * p * q;
    assert (p + q) * (a * b) == t * (a + b) by {
      assert (p + q) * (a * b) == (p * a) * b + (q * b) * a;
    }
    assert 2.0 * p * q * (a * b) == 2.0 * t * t by {
      assert 2.0 * p * q * (a * b) == 2.0 * (p * a) * (q * b);
    }
    assert f * t * (a + b) == 2.0 * t * t by {
      assert f * (p + q) * (a * b) == 2.0 * p * q * (a * b);
      assert f * (p + q) * (a * b) == f * ((p + q) * (a * b));
    }
    var g := 2.0 * t / (a + b);
    assert g * (a + b) == 2.0 * t;
    assert (f - g) * (a + b) == 0.0;
  }

  /** Comparing two quotients with positive denominators by cross-multiplying. */
  lemma DivLe(x: real, y: real, z: real, w: real)
    requires y > 0.0 && w > 0.0 && x * w <= z * y
    ensures x / y <= z / w
  {
    var u, v := x / y, z / w;
    assert u * y == x;
    assert v * w == z;
    assert u * y * w <= v * w * y;
    assert (u - v) * (y * w) <= 0.0;
  }

  /** `attr_prf` on the attribute tallies: one score triple per attribute,
      or the ZeroDivisionError of the first attribute whose `prf` raises. */
  method AttrPrf(agr: map<string, Tally>) returns (r: Result<map<string, Scores>, Error>)
    ensures r.Failure? <==> exists a | a in agr :: Prf(agr[a].tp, agr[a].fp, agr[a].fn).Failure?
    ensures r.Failure? ==> r.error == ZeroDivision
    ensures r.Success? ==> r.value.Keys == agr.Keys
    ensures r.Success? ==> forall a | a in agr :: Prf(agr[a].tp, agr[a].fp, agr[a].fn) == Success(r.value[a])
  {
    var scores: map<string, Scores> := map[];
    var todo := agr.Keys;
    while todo != {}
      invariant todo <= agr.Keys
      invariant scores.Keys == agr.Keys - todo
      invariant forall a | a in scores :: Prf(agr[a].tp, agr[a].fp, agr[a].fn) == Success(scores[a])
      decreases todo
    {
      var attr :| attr in todo;
      var s := Prf(agr[attr].tp, agr[attr].fp, agr[attr].fn);
      if s.Failure? {
        return Failure(s.error);
      }
      scores := scores[attr := s.value];
      todo := todo - {attr};
    }
    r := Success(scores);
  }
}
