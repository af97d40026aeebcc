/** Polynomials over a field of characteristic 2: as many values as coefficients determine a polynomial,
    and there is one through any such values. */
module Polynomials {
  import opened Base

  /** The field as a Reed-Solomon code sees it: sums, products with one of `points` fixed points, and
      quotients by the difference of two of them. */
  datatype Field<!F(!new)> = Field(points: nat, zero: F, plus: (F, F) -> F, times: (nat, F) -> F, over: (nat, nat,
                    F) -> F)
  {
    /** The product of `a` with the difference of points `i` and `j`. */
    function Gap(i: nat, j: nat, a: F): F {
      plus(times(i, a), times(j, a))
    }

    ghost predicate PlusLaws(a: F, b: F, c: F) {
      && plus(a, b) == plus(b, a)
      && plus(plus(a, b), c) == plus(a, plus(b, c))
      && plus(a, a) == zero
      && plus(a, zero) == a
    }

    ghost predicate TimesLaws(i: nat, j: nat, a: F, b: F) {
      && times(i, plus(a, b)) == plus(times(i, a), times(i, b))
      && times(i, times(j, a)) == times(j, times(i, a))
    }

    ghost predicate OverLaws(i: nat, j: nat, a: F) {
      i < points && j < points && i != j ==>
        && Gap(i, j, over(i, j, a)) == a
        && (Gap(i, j, a) == zero ==> a == zero)
    }

    ghost predicate Lawful() {
      && (forall a, b, c :: PlusLaws(a, b, c))
      && (forall i, j, a, b :: TimesLaws(i, j, a, b))
      && (forall i, j, a :: OverLaws(i, j, a))
    }

    function Eval(p: seq<F>, i: nat): F {
      if p == [] then zero else plus(p[0], times(i, Eval(p[1..], i)))
    }

    /** What is left of `p` after dividing by the difference of the variable and point `r`. */
    function Quotient(p: seq<F>, r: nat): seq<F>
      requires p != []
    {
      if |p| == 1 then [] else [Eval(p[1..], r)] + Quotient(p[1..], r)
    }

    /** `c` plus the product of `q` with the difference of the variable and point `i`. */
    function Extend(q: seq<F>, i: nat, c: F): seq<F> {
      if q == [] then [c] else [plus(c, times(i, q[0]))] + Extend(q[1..], i, q[0])
    }

    /** The slopes from the first value to each of the others. */
    function Slopes(values: seq<F>, i: nat): (r: seq<F>)
      requires values != []
      ensures |r| == |values| - 1
      ensures forall j :: 0 <= j < |r| ==> r[j] == over(i + 1 + j, i, plus(values[j + 1], values[0]))
    {
      seq(|values| - 1, j requires 0 <= j < |values| - 1 => over(i + 1 + j, i, plus(values[j + 1], values[0])))
    }

    /** The polynomial that takes `values` at points `i`, `i + 1`, ... */
    function Through(values: seq<F>, i: nat): seq<F>
      decreases |values|
    {
      if values == [] then []
      else Extend(Through(Slopes(values, i), i + 1), i, values[0])
    }

    function Sum(p: seq<F>, q: seq<F>): seq<F>
      requires |p| == |q|
    {
      if p == [] then [] else [plus(p[0], q[0])] + Sum(p[1..], q[1..])
    }

    // ----- Sums

    lemma Swap(a: F, b: F, c: F, d: F)
      requires Lawful()
      ensures plus(plus(a, b), plus(c, d)) == plus(plus(a, c), plus(b, d))
    {
      assert PlusLaws(a, b, plus(c, d));
      assert PlusLaws(b, c, d);
      assert PlusLaws(c, b, d);
      assert PlusLaws(a, c, plus(b, d));
    }

    lemma Cancel(a: F, b: F)
      requires Lawful()
      ensures plus(plus(a, b), b) == a && plus(a, plus(a, b)) == b
      ensures plus(a, b) == zero ==> a == b
    {
      assert PlusLaws(a, b, b);
      assert PlusLaws(b, b, b);
      assert PlusLaws(a, a, b);
      assert PlusLaws(zero, b, b);
      assert PlusLaws(b, zero, b);
    }

    lemma TimesZero(i: nat)
      requires Lawful()
      ensures times(i, zero) == zero
    {
      assert TimesLaws(i, i, zero, zero);
      assert PlusLaws(zero, zero, zero);
      assert PlusLaws(times(i, zero), zero, zero);
    }

    lemma GapOfSum(i: nat, j: nat, a: F, b: F)
      requires Lawful()
      ensures Gap(i, j, plus(a, b)) == plus(Gap(i, j, a), Gap(i, j, b))
    {
      assert TimesLaws(i, j, a, b);
      assert TimesLaws(j, i, a, b);
      Swap(times(i, a), times(i, b), times(j, a), times(j, b));
    }

    lemma TimesOfGap(x: nat, i: nat, j: nat, a: F)
      requires Lawful()
      ensures times(x, Gap(i, j, a)) == Gap(i, j, times(x, a))
    {
      assert TimesLaws(x, i, times(i, a), times(j, a));
      assert TimesLaws(x, i, a, a);
      assert TimesLaws(x, j, a, a);
    }

    lemma {:induction false} EvalSum(p: seq<F>, q: seq<F>, i: nat)
      requires Lawful() && |p| == |q|
      ensures |Sum(p, q)| == |p|
      ensures Eval(Sum(p, q), i) == plus(Eval(p, i), Eval(q, i))
    {
      if p == [] {
        assert PlusLaws(zero, zero, zero);
      } else {
        EvalSum(p[1..], q[1..], i);
        assert Sum(p, q)[1..] == Sum(p[1..], q[1..]);
        assert TimesLaws(i, i, Eval(p[1..], i), Eval(q[1..], i));
        Swap(p[0], q[0], times(i, Eval(p[1..], i)), times(i, Eval(q[1..], i)));
      }
    }

    // ----- Existence

    lemma {:induction false} EvalExtend(q: seq<F>, i: nat, c: F, x: nat)
      requires Lawful()
      ensures |Extend(q, i, c)| == |q| + 1
      ensures Eval(Extend(q, i, c), x) == plus(c, Gap(x, i, Eval(q, x)))
    {
      TimesZero(x);
      if q == [] {
        assert Extend(q, i, c)[1..] == [];
        TimesZero(i);
        assert PlusLaws(zero, zero, zero);
      } else {
        var tail := q[1..];
        var e := Eval(tail, x);
        EvalExtend(tail, i, q[0], x);
        assert Extend(q, i, c)[1..] == Extend(tail, i, q[0]);
        ExtendStep(c, q[0], e, x, i);
      }
    }

    lemma ExtendStep(c: F, q: F, e: F, x: nat, i: nat)
      requires Lawful()
      ensures plus(plus(c, times(i, q)), times(x, plus(q, Gap(x, i, e)))) == plus(c, Gap(x, i, plus(q, times(x, e))))
    {
      assert TimesLaws(x, x, q, Gap(x, i, e));
      TimesOfGap(x, x, i, e);
      GapOfSum(x, i, q, times(x, e));
      var g := Gap(x, i, times(x, e));
      assert PlusLaws(c, times(i, q), plus(times(x, q), g));
      assert PlusLaws(times(i, q), times(x, q), g);
    }

    lemma GapAtItself(i: nat, c: F, e: F)
      requires Lawful()
      ensures plus(c, Gap(i, i, e)) == c
    {
      assert PlusLaws(times(i, e), e, e);
      assert PlusLaws(c, e, e);
    }

    /** The slope from the value `c` at point `i` to the value `v` at point `x` leads there. */
    lemma SlopeLeads(x: nat, i: nat, c: F, v: F)
      requires Lawful() && x < points && i < points && x != i
      ensures plus(c, Gap(x, i, over(x, i, plus(v, c)))) == v
    {
      assert OverLaws(x, i, plus(v, c));
      assert PlusLaws(v, c, c);
      Cancel(c, v);
    }

    lemma {:induction false} ThroughValues(values: seq<F>, i: nat, j: nat)
      requires Lawful() && i + |values| <= points && j < |values|
      ensures |Through(values, i)| == |values|
      ensures Eval(Through(values, i), i + j) == values[j]
      decreases |values|
    {
      var first := values[0];
      var slopes := Slopes(values, i);
      ThroughSize(slopes, i + 1);
      var q := Through(slopes, i + 1);
      EvalExtend(q, i, first, i + j);
      if j == 0 {
        GapAtItself(i, first, Eval(q, i));
      } else {
        ThroughValues(slopes, i + 1, j - 1);
        assert slopes[j - 1] == over(i + j, i, plus(values[j], first));
        SlopeLeads(i + j, i, first, values[j]);
      }
    }

    lemma {:induction false} ThroughSize(values: seq<F>, i: nat)
      requires Lawful()
      ensures |Through(values, i)| == |values|
      decreases |values|
    {
      if values != [] {
        ThroughSize(Slopes(values, i), i + 1);
        EvalExtend(Through(Slopes(values, i), i + 1), i, values[0], 0);
      }
    }

    // ----- Uniqueness

    lemma {:induction false} Division(p: seq<F>, r: nat, i: nat)
      requires Lawful() && p != []
      ensures |Quotient(p, r)| == |p| - 1
      ensures plus(Eval(p, i), Eval(p, r)) == Gap(i, r, Eval(Quotient(p, r), i))
    {
      TimesZero(i);
      TimesZero(r);
      if |p| == 1 {
        assert PlusLaws(p[0], zero, zero);
        assert PlusLaws(Eval(p, i), zero, zero);
        assert PlusLaws(zero, zero, zero);
      } else {
        var tail := p[1..];
        Division(tail, r, i);
        assert Quotient(p, r)[1..] == Quotient(tail, r);
        DivisionStep(p[0], Eval(tail, i), Eval(tail, r), Eval(Quotient(tail, r), i), i, r);
      }
    }

    lemma DivisionStep(c: F, a: F, b: F, q: F, i: nat, r: nat)
      requires Lawful() && plus(a, b) == Gap(i, r, q)
      ensures plus(plus(c, times(i, a)), plus(c, times(r, b))) == Gap(i, r, plus(b, times(i, q)))
    {
      // a == Gap(i, r, q) + b
      Cancel(a, b);
      var g := Gap(i, r, q);
      assert TimesLaws(i, r, g, b);
      TimesOfGap(i, i, r, q);
      var h := Gap(i, r, times(i, q));
      GapOfSum(i, r, b, times(i, q));
      Swap(c, times(i, a), c, times(r, b));
      assert PlusLaws(c, c, c);
      assert PlusLaws(zero, plus(times(i, a), times(r, b)), zero);
      assert PlusLaws(plus(times(i, a), times(r, b)), zero, zero);
      assert PlusLaws(h, times(i, b), times(r, b));
      assert PlusLaws(h, Gap(i, r, b), zero);
    }

    /** A polynomial with as many zeros as coefficients is zero at every point. */
    lemma {:induction false} ZerosMakeZero(p: seq<F>, zeros: set<int>, x: nat)
      requires Lawful() && |p| <= |zeros|
      requires forall r :: r in zeros ==> 0 <= r < points && Eval(p, r) == zero
      ensures Eval(p, x) == zero
      decreases |p|
    {
      if p != [] {
        Inhabited(zeros);
        var r: nat :| r in zeros;
        var q := Quotient(p, r);
        forall s: nat | s in zeros - {r}
          ensures Eval(q, s) == zero
        {
          Division(p, r, s);
          assert PlusLaws(zero, zero, zero);
          assert OverLaws(s, r, Eval(q, s));
        }
        Division(p, r, x);
        ZerosMakeZero(q, zeros - {r}, x);
        TimesZero(x);
        TimesZero(r);
        assert PlusLaws(zero, zero, zero);
        Cancel(Eval(p, x), zero);
      }
    }

    lemma AgreeEverywhere(p: seq<F>, q: seq<F>, at: set<int>, x: nat)
      requires Lawful() && |p| == |q| <= |at|
      requires forall r :: r in at ==> 0 <= r < points && Eval(p, r) == Eval(q, r)
      ensures Eval(p, x) == Eval(q, x)
    {
      forall r: nat | r in at
        ensures Eval(Sum(p, q), r) == zero
      {
        EvalSum(p, q, r);
        assert PlusLaws(Eval(p, r), zero, zero);
      }
      EvalSum(p, q, x);
      ZerosMakeZero(Sum(p, q), at, x);
      Cancel(Eval(p, x), Eval(q, x));
    }
  }
}
