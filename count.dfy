/** Count-data (events over exposure) tests: `CountTest` and its
    Gamma-Poisson comparators.

    A variant's Gamma posterior has shape `events` and rate `exposure`, with
    no prior pseudo-counts added. As in the binary module, each comparator is
    a method running the source's loops with its hoisted terms, proved equal
    to a naive specification function that recomputes every logarithm and
    log-Gamma value inside the sum. */
module Count {
  import opened Math
  import opened Sums
  import opened Rotations

  /** At most this many variants fit in a count test. */
  const MaxVariants: nat := 3

  datatype CountVariant = CountVariant(events: nat, exposure: nat)

  /** The Gamma posterior of a variant: the raw counts, unchanged. */
  function Shape(v: CountVariant): Params
  {
    Params(v.events, v.exposure)
  }

  // ------------------------------------------------------------ pairwise

  /** `n as f64 * x`: a count converted to floating point, times a logarithm. */
  function Times(n: nat, x: real): real
  {
    (n as real) * x
  }

  /** Term `k` of P(1 beats 2), every logarithm and log-Beta computed afresh. */
  function PairTermAt(m: Backend, p1: Params, p2: Params, k: nat): real
  {
    m.exp(Times(k, m.ln(p1.beta as real))
          + Times(p2.alpha, m.ln(p2.beta as real))
          - Times(k + p2.alpha, m.ln((p1.beta + p2.beta) as real))
          - m.ln((k + p2.alpha) as real)
          - LogBeta(m, (k + 1) as real, p2.alpha as real))
  }

  /** The terms of P(1 beats 2) as the loop indexes them. */
  function PairTerm(m: Backend, p1: Params, p2: Params): nat -> real
  {
    (k: nat) => PairTermAt(m, p1, p2, k)
  }

  /** P(1 beats 2): the `p1.alpha` terms of the finite series. */
  function OneBeatsTwo(m: Backend, p1: Params, p2: Params): real
  {
    SumTo(p1.alpha, PairTerm(m, p1, p2))
  }

  /** `prob_1_beats_2`, with `ln(beta_1)`, `alpha_2 * ln(beta_2)` and
      `ln(beta_1 + beta_2)` hoisted out of the loop. */
  method ProbOneBeatsTwo(m: Backend, p1: Params, p2: Params) returns (total: real)
    ensures total == OneBeatsTwo(m, p1, p2)
  {
    total := 0.0;
    var logB1 := m.ln(p1.beta as real);
    var a2LogB2 := Times(p2.alpha, m.ln(p2.beta as real));
    var logB1B2 := m.ln((p1.beta + p2.beta) as real);
    for k := 0 to p1.alpha
      invariant total == SumTo(k, PairTerm(m, p1, p2))
    {
      HoistedPairTerm(m, p1, p2, k, logB1, a2LogB2, logB1B2);
      total := total + m.exp(Times(k, logB1)
                             + a2LogB2
                             - Times(k + p2.alpha, logB1B2)
                             - m.ln((k + p2.alpha) as real)
                             - LogBeta(m, (k + 1) as real, p2.alpha as real));
    }
  }

  /** Assembling term `k` from the three hoisted values gives the naive term. */
  lemma HoistedPairTerm(m: Backend, p1: Params, p2: Params, k: nat, logB1: real, a2LogB2: real, logB1B2: real)
    requires logB1 == m.ln(p1.beta as real)
    requires a2LogB2 == Times(p2.alpha, m.ln(p2.beta as real))
    requires logB1B2 == m.ln((p1.beta + p2.beta) as real)
    ensures m.exp(Times(k, logB1) + a2LogB2 - Times(k + p2.alpha, logB1B2)
                  - m.ln((k + p2.alpha) as real) - LogBeta(m, (k + 1) as real, p2.alpha as real))
            == PairTerm(m, p1, p2)(k)
  {
  }

  /** P(1 beats 2) adds exactly `p1.alpha` terms, `PairTerm(m, p1, p2)(k)`
      for `k < p1.alpha` in order. */
  lemma OneBeatsTwoAddsAlphaOneTerms(m: Backend, p1: Params, p2: Params)
    ensures |Terms(p1.alpha, PairTerm(m, p1, p2))| == p1.alpha
    ensures OneBeatsTwo(m, p1, p2) == Sum(Terms(p1.alpha, PairTerm(m, p1, p2)))
  {
    SumToAddsExactlyNTerms(p1.alpha, PairTerm(m, p1, p2));
  }

  /** A variant with no events has an empty series: it beats the other with
      probability exactly 0, whatever the special functions return. */
  lemma ZeroEventsNeverWin(m: Backend, p1: Params, p2: Params)
    requires p1.alpha == 0
    ensures OneBeatsTwo(m, p1, p2) == 0.0
  {
  }

  // -------------------------------------------------------------- triple

  /** Term `(k, l)` of P(2 beats 1 and 3 beats 1), every logarithm and
      log-Gamma value computed afresh. */
  function JointTermAt(m: Backend, p1: Params, p2: Params, p3: Params, k: nat, l: nat): real
  {
    m.exp(Times(p1.alpha, m.ln(p1.beta as real))
          + Times(k, m.ln(p2.beta as real))
          - m.logGamma((k + 1) as real)
          + Times(l, m.ln(p3.beta as real))
          - Times(k + l + p1.alpha, m.ln((p1.beta + p2.beta + p3.beta) as real))
          + m.logGamma((k + l + p1.alpha) as real)
          - m.logGamma((l + 1) as real)
          - m.logGamma(p1.alpha as real))
  }

  /** The terms of the joint series as the double loop indexes them. */
  function JointTerm(m: Backend, p1: Params, p2: Params, p3: Params): (nat, nat) -> real
  {
    (k: nat, l: nat) => JointTermAt(m, p1, p2, p3, k, l)
  }

  /** P(2 beats 1 and 3 beats 1): `p2.alpha * p3.alpha` terms. */
  function JointTwoThree(m: Backend, p1: Params, p2: Params, p3: Params): real
  {
    Sum2(p2.alpha, p3.alpha, JointTerm(m, p1, p2, p3))
  }

  /** P(1 beats 2 and 3) = 1 - P(2 beats 1) - P(3 beats 1) + P(2 and 3 beat 1):
      the pairwise series are called with the candidate second. */
  function OneBeatsTwoThree(m: Backend, p1: Params, p2: Params, p3: Params): real
  {
    1.0 - OneBeatsTwo(m, p2, p1) - OneBeatsTwo(m, p3, p1) + JointTwoThree(m, p1, p2, p3)
  }

  /** The joint series has exactly `p2.alpha * p3.alpha` terms, term `(k, l)`
      at position `k * p3.alpha + l`. */
  lemma JointTwoThreeAddsAlphaTwoTimesAlphaThreeTerms(m: Backend, p1: Params, p2: Params, p3: Params,
                                                      k: nat, l: nat)
    requires k < p2.alpha && l < p3.alpha
    ensures |Flat2(p2.alpha, p3.alpha, JointTerm(m, p1, p2, p3))| == p2.alpha * p3.alpha
    ensures JointTwoThree(m, p1, p2, p3) == Sum(Flat2(p2.alpha, p3.alpha, JointTerm(m, p1, p2, p3)))
    ensures k * p3.alpha + l < |Flat2(p2.alpha, p3.alpha, JointTerm(m, p1, p2, p3))|
    ensures Flat2(p2.alpha, p3.alpha, JointTerm(m, p1, p2, p3))[k * p3.alpha + l] == JointTermAt(m, p1, p2, p3, k, l)
  {
    Sum2IsSumOfFlat2(p2.alpha, p3.alpha, JointTerm(m, p1, p2, p3));
    Flat2At(p2.alpha, p3.alpha, JointTerm(m, p1, p2, p3), k, l);
  }

  /** Assembling term `(k, l)` from the hoisted `sum_k`, `ln(beta_3)`,
      `ln(beta_1 + beta_2 + beta_3)` and `loggamma(alpha_1)` gives the naive
      term. */
  lemma HoistedJointTerm(m: Backend, p1: Params, p2: Params, p3: Params, k: nat, l: nat,
                         sumK: real, logB3: real, logB1B2B3: real, loggammaA1: real)
    requires sumK == Times(p1.alpha, m.ln(p1.beta as real)) + Times(k, m.ln(p2.beta as real))
                     - m.logGamma((k + 1) as real)
    requires logB3 == m.ln(p3.beta as real)
    requires logB1B2B3 == m.ln((p1.beta + p2.beta + p3.beta) as real)
    requires loggammaA1 == m.logGamma(p1.alpha as real)
    ensures m.exp(sumK + Times(l, logB3) - Times(k + l + p1.alpha, logB1B2B3)
                  + m.logGamma((k + l + p1.alpha) as real) - m.logGamma((l + 1) as real) - loggammaA1)
            == JointTerm(m, p1, p2, p3)(k, l)
  {
  }

  /** The double loop of `prob_1_beats_23`, with `ln(beta_1 + beta_2 + beta_3)`,
      `alpha_1 * ln(beta_1)`, `ln(beta_2)`, `ln(beta_3)` and `loggamma(alpha_1)`
      hoisted out of both loops and `sum_k` out of the inner one. */
  method JointSumTwoThree(m: Backend, p1: Params, p2: Params, p3: Params) returns (total: real)
    ensures total == JointTwoThree(m, p1, p2, p3)
  {
    total := 0.0;
    var logB1B2B3 := m.ln((p1.beta + p2.beta + p3.beta) as real);
    var a1LogB1 := Times(p1.alpha, m.ln(p1.beta as real));
    var logB2 := m.ln(p2.beta as real);
    var logB3 := m.ln(p3.beta as real);
    var loggammaA1 := m.logGamma(p1.alpha as real);

    for k := 0 to p2.alpha
      invariant total == Sum2(k, p3.alpha, JointTerm(m, p1, p2, p3))
    {
      var sumK := a1LogB1 + Times(k, logB2) - m.logGamma((k + 1) as real);
      total := AddJointRow(m, p1, p2, p3, k, sumK, logB3, logB1B2B3, loggammaA1, total);
    }
  }

  /** The inner loop of `prob_1_beats_23` for outer index `k`: adds the
      `p3.alpha` terms of row `k` to `total`. */
  method AddJointRow(m: Backend, p1: Params, p2: Params, p3: Params, k: nat,
                     sumK: real, logB3: real, logB1B2B3: real, loggammaA1: real, total0: real)
    returns (total: real)
    requires sumK == Times(p1.alpha, m.ln(p1.beta as real)) + Times(k, m.ln(p2.beta as real))
                     - m.logGamma((k + 1) as real)
    requires logB3 == m.ln(p3.beta as real)
    requires logB1B2B3 == m.ln((p1.beta + p2.beta + p3.beta) as real)
    requires loggammaA1 == m.logGamma(p1.alpha as real)
    ensures total == total0 + RowSum(k, p3.alpha, JointTerm(m, p1, p2, p3))
  {
    total := total0;
    for l := 0 to p3.alpha
      invariant total == total0 + RowSum(k, l, JointTerm(m, p1, p2, p3))
    {
      HoistedJointTerm(m, p1, p2, p3, k, l, sumK, logB3, logB1B2B3, loggammaA1);
      total := total + m.exp(sumK + Times(l, logB3) - Times(k + l + p1.alpha, logB1B2B3)
                             + m.logGamma((k + l + p1.alpha) as real) - m.logGamma((l + 1) as real)
                             - loggammaA1);
    }
  }

  /** `prob_1_beats_23`: the double loop, then the two pairwise series with
      the candidate second. */
  method ProbOneBeatsTwoThree(m: Backend, p1: Params, p2: Params, p3: Params) returns (p: real)
    ensures p == OneBeatsTwoThree(m, p1, p2, p3)
  {
    var total := JointSumTwoThree(m, p1, p2, p3);
    var p21 := ProbOneBeatsTwo(m, p2, p1);
    var p31 := ProbOneBeatsTwo(m, p3, p1);
    p := 1.0 - p21 - p31 + total;
  }

  // ------------------------------------------------------------------ test

  /** The winning probability of variant `i` of three: the variants are read
      in the order `i, (i + 1) % 3, (i + 2) % 3`, candidate first. */
  function Winning(m: Backend, vs: seq<CountVariant>, i: nat): real
    requires |vs| == MaxVariants && i < |vs|
  {
    OneBeatsTwoThree(m, Shape(vs[i]), Shape(vs[(i + 1) % 3]), Shape(vs[(i + 2) % 3]))
  }

  /** `Winning` reads the variants in the order `Rotation(3, i)`, whose head
      is the candidate `i`, which never names a variant twice (so none is its
      own rival) and which names all three. */
  lemma WinningReadsRotation(m: Backend, vs: seq<CountVariant>, i: nat)
    requires |vs| == MaxVariants && i < |vs|
    ensures Rotation(3, i)[0] == i
    ensures Winning(m, vs, i) ==
      OneBeatsTwoThree(m, Shape(vs[Rotation(3, i)[0]]), Shape(vs[Rotation(3, i)[1]]), Shape(vs[Rotation(3, i)[2]]))
    ensures forall k, l :: 0 <= k < l < 3 ==> Rotation(3, i)[k] != Rotation(3, i)[l]
    ensures forall v :: 0 <= v < 3 ==> v in Rotation(3, i)
  {
    RotationIsPermutation(3, i);
  }

  /** Appending the next candidate's probability extends a prefix of the
      candidates' probabilities by one. */
  lemma WinningSnoc(m: Backend, vs: seq<CountVariant>, probs: seq<real>, prob: real)
    requires |vs| == MaxVariants && |probs| < |vs|
    requires forall k :: 0 <= k < |probs| ==> probs[k] == Winning(m, vs, k)
    requires prob == Winning(m, vs, |probs|)
    ensures forall k :: 0 <= k < |probs| + 1 ==> (probs + [prob])[k] == Winning(m, vs, k)
  {
  }

  datatype AddResult = Added | TooManyVariants

  /** The ordered list of observed variants of an A/B/n test on counts. */
  class CountTest {
    var variants: seq<CountVariant>

    ghost predicate Valid()
      reads this
    {
      |variants| <= MaxVariants
    }

    /** `CountTest::new`: an empty test. */
    constructor ()
      ensures Valid() && variants == []
    {
      variants := [];
    }

    /** `CountTest::default`, which delegates to `new`: an empty test. */
    constructor Default()
      ensures Valid() && variants == []
    {
      variants := [];
    }

    /** `add`: rejects a fourth variant and then changes nothing; otherwise
        appends, with no check on events or exposure. */
    method Add(events: nat, exposure: nat) returns (result: AddResult)
      requires Valid()
      modifies this
      ensures Valid()
      ensures result == (if |old(variants)| >= MaxVariants then TooManyVariants else Added)
      ensures result == Added ==> variants == old(variants) + [CountVariant(events, exposure)]
      ensures result == TooManyVariants ==> variants == old(variants)
    {
      if |variants| >= MaxVariants {
        return TooManyVariants;
      }
      variants := variants + [CountVariant(events, exposure)];
      result := Added;
    }

    /** `probabilities`: one entry per variant, in insertion order. With two
        variants the first entry is P(first beats second); with three, the
        first two come from their rotations and the last is one minus their
        sum, so the entries sum to exactly one. */
    method Probabilities(m: Backend) returns (probs: seq<real>)
      requires Valid()
      ensures |probs| == |variants|
      ensures |variants| == 0 ==> probs == []
      ensures |variants| == 1 ==> probs == [1.0]
      ensures |variants| == 2 ==>
        probs == [OneBeatsTwo(m, Shape(variants[0]), Shape(variants[1])),
                  1.0 - OneBeatsTwo(m, Shape(variants[0]), Shape(variants[1]))]
      ensures |variants| == 3 ==>
        probs[0] == Winning(m, variants, 0) && probs[1] == Winning(m, variants, 1) &&
        probs[2] == 1.0 - Sum(probs[..2])
      ensures |variants| >= 2 ==> Sum(probs) == 1.0
    {
      var n := |variants|;
      if n == 0 {
        probs := [];
      } else if n == 1 {
        probs := [1.0];
      } else if n == 2 {
        var a := variants[0];
        var b := variants[1];
        var prob := ProbOneBeatsTwo(m, Shape(a), Shape(b));
        probs := [prob, 1.0 - prob];
        SumSnoc([prob], 1.0 - prob);
        SumSnoc([], prob);
      } else {
        probs := [];
        var total := 0.0;
        for i := 0 to 2
          invariant |probs| == i
          invariant forall k :: 0 <= k < i ==> probs[k] == Winning(m, variants, k)
          invariant total == Sum(probs)
        {
          var a := variants[i];
          var b := variants[(i + 1) % 3];
          var c := variants[(i + 2) % 3];
          var prob := ProbOneBeatsTwoThree(m, Shape(a), Shape(b), Shape(c));
          WinningSnoc(m, variants, probs, prob);
          SumSnoc(probs, prob);
          probs := probs + [prob];
          total := total + prob;
        }
        SumSnoc(probs, 1.0 - total);
        probs := probs + [1.0 - total];
      }
    }
  }
}
