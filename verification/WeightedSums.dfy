/** Weighted sums over lists of terms, and the inequalities between them: the spread about the
    mean is the variance numerator (weighted Cauchy-Schwarz), and the squared total weight
    exceeds the sum of squared weights exactly when two weights are positive. */
module WeightedSums {
  import opened RealFacts
  import opened Sums

  /** A weighted quantity: an error, an absolute error or a squared error with its pair's weight. */
  datatype Term = Term(w: real, x: real)

  function Abs(x: real): (r: real)
    ensures r >= 0.0 && (r == x || r == -x)
  {
    if x < 0.0 then -x else x
  }

  function Weight(t: Term): real { t.w }
  function WeightSq(t: Term): real { t.w * t.w }
  function Times(t: Term): real { t.w * t.x }
  function TimesAbs(t: Term): real { t.w * Abs(t.x) }
  function TimesSq(t: Term): real { t.w * t.x * t.x }

  ghost predicate NonNegative(s: seq<Term>) {
    forall i :: 0 <= i < |s| ==> s[i].w >= 0.0
  }

  // ---- Inequalities of weighted sums ---------------------------------------------------

  lemma {:induction false} WeightsNonNegative(s: seq<Term>)
    requires NonNegative(s)
    ensures Sum(s, Weight) >= 0.0
    ensures Sum(s, Weight) > 0.0 <==> exists i :: Positive(s, i)
  {
    if s != [] {
      var n := |s| - 1;
      var front := s[..n];
      WeightsNonNegative(front);
      if i :| Positive(s, i) {
        assert i < n ==> Positive(front, i);
      }
      if i :| Positive(front, i) {
        assert Positive(s, i);
      }
      assert s[n].w > 0.0 ==> Positive(s, n);
    }
  }

  /** A term's weighted squared distance from a centre. */
  function Deviation(c: real): Term -> real {
    (t: Term) => t.w * ((t.x - c) * (t.x - c))
  }

  /** The part of the spread about c that the centre shifts. */
  function Shifted(c: real, w: real, b: real): real { (c * c) * w - 2.0 * c * b }

  /** The weighted spread about any centre, in terms of the three running sums. */
  lemma {:induction false} SpreadIs(s: seq<Term>, c: real)
    ensures Sum(s, Deviation(c)) == Shifted(c, Sum(s, Weight), Sum(s, Times)) + Sum(s, TimesSq)
  {
    if s != [] {
      var n := |s| - 1;
      SpreadIs(s[..n], c);
      ShiftedStep(c, Sum(s[..n], Weight), Sum(s[..n], Times), s[n]);
    }
  }

  lemma ShiftedStep(c: real, w: real, b: real, t: Term)
    ensures Shifted(c, w, b) + Deviation(c)(t) == Shifted(c, w + Weight(t), b + Times(t)) + TimesSq(t)
  {
    var y, z := t.w, t.w * t.x;
    assert t.w * ((t.x - c) * (t.x - c)) == (c * c) * y - 2.0 * c * z + t.w * t.x * t.x;
    assert (c * c) * (w + y) == (c * c) * w + (c * c) * y;
    assert 2.0 * c * (b + z) == 2.0 * c * b + 2.0 * c * z;
  }

  lemma {:induction false} SpreadNonNegative(s: seq<Term>, c: real)
    requires NonNegative(s)
    ensures Sum(s, Deviation(c)) >= 0.0
  {
    if s != [] {
      var n := |s| - 1;
      SpreadNonNegative(s[..n], c);
      SquareSign(s[n].x - c);
      ProductSign(s[n].w, (s[n].x - c) * (s[n].x - c));
    }
  }

  /** The weighted variance numerator is the spread about the weighted mean. */
  lemma NumeratorIsSpread(s: seq<Term>, w: real, b: real, mean: real)
    requires w == Sum(s, Weight) > 0.0 && b == Sum(s, Times) && mean == b / w
    ensures Sum(s, TimesSq) - b * b / w == Sum(s, Deviation(mean))
  {
    AboutMean(w, b, mean);
    SpreadIs(s, mean);
  }

  lemma AboutMean(w: real, b: real, c: real)
    requires w > 0.0 && c == b / w
    ensures Shifted(c, w, b) == -(b * b / w)
  {
    QuotientTimes(b, w);
    assert (c * c) * w == c * (w * c);
    assert c * b == b * b / w;
  }

  /** Cauchy-Schwarz: the weighted variance numerator is never negative. */
  lemma CauchySchwarz(s: seq<Term>, w: real, b: real)
    requires NonNegative(s) && w == Sum(s, Weight) > 0.0 && b == Sum(s, Times)
    ensures Sum(s, TimesSq) - b * b / w >= 0.0
  {
    NumeratorIsSpread(s, w, b, b / w);
    SpreadNonNegative(s, b / w);
  }

  lemma {:induction false} ErrorWithinAbs(s: seq<Term>)
    requires NonNegative(s)
    ensures Abs(Sum(s, Times)) <= Sum(s, TimesAbs)
  {
    if s != [] {
      var n := |s| - 1;
      ErrorWithinAbs(s[..n]);
      TermWithinAbs(s[n]);
    }
  }

  lemma TermWithinAbs(t: Term)
    requires t.w >= 0.0
    ensures -TimesAbs(t) <= Times(t) <= TimesAbs(t)
  {
    if t.x < 0.0 {
      assert t.w * (-t.x) == -(t.w * t.x);
      assert t.w * (-t.x) >= 0.0;
    } else {
      assert t.w * t.x >= 0.0;
    }
  }

  function AbsTerm(t: Term): Term { Term(t.w, Abs(t.x)) }

  function AbsTerms(s: seq<Term>): seq<Term> {
    if s == [] then [] else AbsTerms(s[..|s| - 1]) + [AbsTerm(s[|s| - 1])]
  }

  lemma {:induction false} AbsTermsAt(s: seq<Term>)
    ensures |AbsTerms(s)| == |s|
    ensures forall i :: 0 <= i < |s| ==> AbsTerms(s)[i] == AbsTerm(s[i])
  {
    if s != [] {
      AbsTermsAt(s[..|s| - 1]);
    }
  }

  /** Two lists whose terms agree under two summands have equal sums. */
  lemma {:induction false} SumSame(s: seq<Term>, t: seq<Term>, f: Term -> real, g: Term -> real)
    requires |s| == |t| && forall i :: 0 <= i < |s| ==> f(s[i]) == g(t[i])
    ensures Sum(s, f) == Sum(t, g)
  {
    if s != [] {
      SumSame(s[..|s| - 1], t[..|t| - 1], f, g);
    }
  }

  /** Taking absolute values keeps the weights and the squares. */
  lemma AbsSums(s: seq<Term>)
    ensures Sum(AbsTerms(s), Weight) == Sum(s, Weight)
    ensures Sum(AbsTerms(s), Times) == Sum(s, TimesAbs)
    ensures NonNegative(s) ==> NonNegative(AbsTerms(s))
  {
    AbsTermsAt(s);
    SumSame(AbsTerms(s), s, Weight, Weight);
    SumSame(AbsTerms(s), s, Times, TimesAbs);
  }

  lemma AbsSquares(s: seq<Term>)
    ensures Sum(AbsTerms(s), TimesSq) == Sum(s, TimesSq)
  {
    AbsTermsAt(s);
    forall i | 0 <= i < |s|
      ensures TimesSq(AbsTerms(s)[i]) == TimesSq(s[i])
    {
      AbsTermSq(s[i]);
    }
    SumSame(AbsTerms(s), s, TimesSq, TimesSq);
  }

  lemma AbsTermSq(t: Term)
    ensures TimesSq(AbsTerm(t)) == TimesSq(t)
  {
    assert Abs(t.x) * Abs(t.x) == t.x * t.x;
    assert t.w * (Abs(t.x) * Abs(t.x)) == t.w * (t.x * t.x);
  }

  // ---- Degrees of freedom --------------------------------------------------------------

  ghost predicate Positive(s: seq<Term>, i: int) {
    0 <= i < |s| && s[i].w > 0.0
  }

  ghost predicate TwoPositive(s: seq<Term>) {
    exists i, j :: i < j && Positive(s, i) && Positive(s, j)
  }

  function TwiceProduct(a: real, w: real): (r: real)
    ensures a >= 0.0 && w >= 0.0 ==> r >= 0.0 && (r > 0.0 <==> a > 0.0 && w > 0.0)
  {
    ProductSign(a, w);
    2.0 * (a * w)
  }

  /** The sum of w_i w_j over all pairs i < j, twice. */
  ghost function Cross(s: seq<Term>): real {
    if s == [] then 0.0
    else Cross(s[..|s| - 1]) + TwiceProduct(Sum(s[..|s| - 1], Weight), s[|s| - 1].w)
  }

  function Squared(x: real): real { x * x }

  lemma {:induction false} SquareOfSum(s: seq<Term>)
    ensures Squared(Sum(s, Weight)) == Sum(s, WeightSq) + Cross(s)
  {
    if s != [] {
      var n := |s| - 1;
      SquareOfSum(s[..n]);
      SquareStep(Sum(s[..n], Weight), s[n]);
    }
  }

  lemma SquareStep(a: real, t: Term)
    ensures Squared(a + Weight(t)) == Squared(a) + WeightSq(t) + TwiceProduct(a, t.w)
  {
    assert (a + t.w) * (a + t.w) == a * a + t.w * t.w + 2.0 * (a * t.w);
  }

  lemma {:induction false} CrossNonNegative(s: seq<Term>)
    requires NonNegative(s)
    ensures Cross(s) >= 0.0 && (Cross(s) > 0.0 <==> TwoPositive(s))
  {
    if s != [] {
      var n := |s| - 1;
      CrossNonNegative(s[..n]);
      WeightsNonNegative(s[..n]);
      TwoPositiveSplit(s);
    }
  }

  /** The squared total weight exceeds the sum of squares exactly when two weights are positive. */
  lemma FreedomNonNegative(s: seq<Term>, w: real)
    requires NonNegative(s) && w == Sum(s, Weight)
    ensures Sum(s, WeightSq) <= w * w
    ensures Sum(s, WeightSq) < w * w <==> TwoPositive(s)
  {
    SquareOfSum(s);
    CrossNonNegative(s);
  }

  lemma TwoPositiveSplit(s: seq<Term>)
    requires s != []
    ensures var n := |s| - 1;
            TwoPositive(s) <==>
            TwoPositive(s[..n]) || (s[n].w > 0.0 && exists i :: Positive(s[..n], i))
  {
    var n := |s| - 1;
    var front := s[..n];
    if TwoPositive(s) {
      var i, j :| i < j && Positive(s, i) && Positive(s, j);
      assert Positive(front, i);
      assert j < n ==> Positive(front, j);
    }
    if TwoPositive(front) {
      var i, j :| i < j && Positive(front, i) && Positive(front, j);
      assert Positive(s, i) && Positive(s, j);
    }
    if s[n].w > 0.0 && exists i :: Positive(front, i) {
      var i :| Positive(front, i);
      assert Positive(s, i) && Positive(s, n);
    }
  }
}
