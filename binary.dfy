/** Binary-outcome (conversion) tests: `BinaryTest` and its Beta-Binomial
    comparators.

    Each comparator is a method that runs the source's loops, caches and
    hoisted terms, and is proved equal to a naive specification function that
    recomputes every special-function call inside the sum. The specification
    functions assemble lower-order results by inclusion-exclusion with the
    source's argument orders. */
module Binary {
  import opened Math
  import opened Sums
  import opened Rotations

  /** At most this many variants fit in a binary test. */
  const MaxVariants: nat := 4

  datatype BinaryVariant = BinaryVariant(participants: nat, conversions: nat)

  /** A variant `add` accepts. */
  predicate WellFormed(v: BinaryVariant)
  {
    v.conversions <= v.participants
  }

  /** Posterior Beta(1 + conversions, 1 + non-conversions) under the uniform
      Beta(1, 1) prior. Both parameters are at least 1, and together they count
      the participants plus the two prior pseudo-observations. */
  function Posterior(v: BinaryVariant): (p: Params)
    requires WellFormed(v)
    ensures p.alpha >= 1 && p.beta >= 1
    ensures p.alpha + p.beta == v.participants + 2
    ensures p.alpha - 1 == v.conversions
  {
    Params(1 + v.conversions, 1 + v.participants - v.conversions)
  }

  // ------------------------------------------------------------ pairwise

  /** Term `i` of P(B beats A), every log-Beta computed afresh. */
  function PairTermAt(m: Backend, a: Params, b: Params, i: nat): real
  {
    m.exp(m.lnBeta((a.alpha + i) as real, (b.beta + a.beta) as real)
          - m.ln((b.beta + i) as real)
          - m.lnBeta((1 + i) as real, b.beta as real)
          - m.lnBeta(a.alpha as real, a.beta as real))
  }

  /** The terms of P(B beats A) as the loop indexes them. */
  function PairTerm(m: Backend, a: Params, b: Params): nat -> real
  {
    (i: nat) => PairTermAt(m, a, b, i)
  }

  /** P(B beats A): the `b.alpha` terms of the finite series. */
  function BBeatsA(m: Backend, a: Params, b: Params): real
  {
    SumTo(b.alpha, PairTerm(m, a, b))
  }

  /** `prob_b_beats_a`, with `logbeta(alpha_a, beta_a)` and `beta_b + beta_a`
      hoisted out of the loop. */
  method ProbBBeatsA(m: Backend, a: Params, b: Params) returns (total: real)
    ensures total == BBeatsA(m, a, b)
  {
    total := 0.0;
    var logbetaAaBa := m.lnBeta(a.alpha as real, a.beta as real);
    var betaBa := (b.beta + a.beta) as real;
    for i := 0 to b.alpha
      invariant total == SumTo(i, PairTerm(m, a, b))
    {
      HoistedPairTerm(m, a, b, i, logbetaAaBa, betaBa);
      total := total + m.exp(m.lnBeta((a.alpha + i) as real, betaBa)
                             - m.ln((b.beta + i) as real)
                             - m.lnBeta((1 + i) as real, b.beta as real)
                             - logbetaAaBa);
    }
  }

  /** Assembling term `i` from the two hoisted values gives the naive term. */
  lemma HoistedPairTerm(m: Backend, a: Params, b: Params, i: nat, logbetaAaBa: real, betaBa: real)
    requires logbetaAaBa == m.lnBeta(a.alpha as real, a.beta as real)
    requires betaBa == (b.beta + a.beta) as real
    ensures m.exp(m.lnBeta((a.alpha + i) as real, betaBa) - m.ln((b.beta + i) as real)
                  - m.lnBeta((1 + i) as real, b.beta as real) - logbetaAaBa)
            == PairTerm(m, a, b)(i)
  {
  }

  /** P(B beats A) adds exactly `b.alpha` terms, `PairTerm(m, a, b)(i)` for
      `i < b.alpha` in order. */
  lemma BBeatsAAddsAlphaBTerms(m: Backend, a: Params, b: Params)
    ensures |Terms(b.alpha, PairTerm(m, a, b))| == b.alpha
    ensures BBeatsA(m, a, b) == Sum(Terms(b.alpha, PairTerm(m, a, b)))
  {
    SumToAddsExactlyNTerms(b.alpha, PairTerm(m, a, b));
  }

  // ------------------------------------------------------ cached tables

  /** ln(beta + j) + logbeta(1 + j, beta): the per-index factor the triple and
      quad series subtract for each rival's index `j`. */
  function LogFactor(m: Backend, beta: nat, j: nat): real
  {
    m.ln((beta + j) as real) + m.lnBeta((1 + j) as real, beta as real)
  }

  /** `table` is the `log_bb_j_logbeta_j_bb` / `log_bc_k_logbeta_k_bc` cache
      for a rival with shape `alpha = n`, `beta`: entry `j` holds
      `LogFactor(m, beta, j)`, for every `j < n`. */
  predicate IsLogFactorTable(m: Backend, table: seq<real>, beta: nat, n: nat)
  {
    |table| == n && forall j :: 0 <= j < n ==> table[j] == LogFactor(m, beta, j)
  }

  /** `table` is the `logbeta_ac_i_j` / `logbeta_bd_i_j_k` cache: entry `s`
      holds `logbeta(alpha + s, betaSum)`, for every `s < n`. */
  predicate IsLogBetaTable(m: Backend, table: seq<real>, alpha: nat, betaSum: real, n: nat)
  {
    |table| == n && forall s :: 0 <= s < n ==> table[s] == m.lnBeta((alpha + s) as real, betaSum)
  }

  /** Fills the per-index factor cache, one entry per loop iteration. */
  method LogFactorTable(m: Backend, beta: nat, n: nat) returns (table: seq<real>)
    ensures IsLogFactorTable(m, table, beta, n)
  {
    table := [];
    for j := 0 to n
      invariant |table| == j
      invariant forall j' :: 0 <= j' < j ==> table[j'] == LogFactor(m, beta, j')
    {
      table := table + [m.ln((beta + j) as real) + m.lnBeta((1 + j) as real, beta as real)];
    }
  }

  /** Fills the log-Beta cache, one entry per loop iteration. */
  method LogBetaTable(m: Backend, alpha: nat, betaSum: real, n: nat) returns (table: seq<real>)
    ensures IsLogBetaTable(m, table, alpha, betaSum, n)
  {
    table := [];
    for s := 0 to n
      invariant |table| == s
      invariant forall s' :: 0 <= s' < s ==> table[s'] == m.lnBeta((alpha + s') as real, betaSum)
    {
      table := table + [m.lnBeta((alpha + s) as real, betaSum)];
    }
  }

  // --------------------------------------------------------------- triple

  /** Term `(i, j)` of P(A beats C and B beats C), every special function
      computed afresh. */
  function JointTermAt(m: Backend, a: Params, b: Params, c: Params, i: nat, j: nat): real
  {
    m.exp(m.lnBeta((c.alpha + i + j) as real, (a.beta + b.beta + c.beta) as real)
          - LogFactor(m, a.beta, i) - LogFactor(m, b.beta, j)
          - m.lnBeta(c.alpha as real, c.beta as real))
  }

  /** The terms of P(A beats C and B beats C) as the double loop indexes them. */
  function JointTerm(m: Backend, a: Params, b: Params, c: Params): (nat, nat) -> real
  {
    (i: nat, j: nat) => JointTermAt(m, a, b, c, i, j)
  }

  /** P(A beats C and B beats C): `a.alpha * b.alpha` terms. */
  function JointAB(m: Backend, a: Params, b: Params, c: Params): real
  {
    Sum2(a.alpha, b.alpha, JointTerm(m, a, b, c))
  }

  /** P(C beats A and B) = 1 - P(A beats C) - P(B beats C) + P(A and B beat C). */
  function CBeatsAB(m: Backend, a: Params, b: Params, c: Params): real
  {
    1.0 - BBeatsA(m, c, a) - BBeatsA(m, c, b) + JointAB(m, a, b, c)
  }

  /** The joint series has exactly `a.alpha * b.alpha` terms, term `(i, j)`
      at position `i * b.alpha + j` of the row-by-row order. */
  lemma JointABAddsAlphaATimesAlphaBTerms(m: Backend, a: Params, b: Params, c: Params, i: nat, j: nat)
    requires i < a.alpha && j < b.alpha
    ensures |Flat2(a.alpha, b.alpha, JointTerm(m, a, b, c))| == a.alpha * b.alpha
    ensures JointAB(m, a, b, c) == Sum(Flat2(a.alpha, b.alpha, JointTerm(m, a, b, c)))
    ensures i * b.alpha + j < |Flat2(a.alpha, b.alpha, JointTerm(m, a, b, c))|
    ensures Flat2(a.alpha, b.alpha, JointTerm(m, a, b, c))[i * b.alpha + j] == JointTermAt(m, a, b, c, i, j)
  {
    Sum2IsSumOfFlat2(a.alpha, b.alpha, JointTerm(m, a, b, c));
    Flat2At(a.alpha, b.alpha, JointTerm(m, a, b, c), i, j);
  }

  /** The double loop of `prob_c_beats_ab`: the per-`j` factors and the
      log-Beta values indexed by `i + j` are cached in two tables first; the
      per-`i` factor is hoisted out of the inner loop. */
  method JointSumAB(m: Backend, a: Params, b: Params, c: Params) returns (total: real)
    ensures total == JointAB(m, a, b, c)
  {
    total := 0.0;
    var logbetaAcBc := m.lnBeta(c.alpha as real, c.beta as real);
    var logBbJLogbetaJBb := LogFactorTable(m, b.beta, b.alpha);
    var abc := (a.beta + b.beta + c.beta) as real;
    var logbetaAcIJ := LogBetaTable(m, c.alpha, abc, a.alpha + b.alpha);

    for i := 0 to a.alpha
      invariant total == Sum2(i, b.alpha, JointTerm(m, a, b, c))
    {
      var sumI := -m.ln((a.beta + i) as real) - m.lnBeta((1 + i) as real, a.beta as real) - logbetaAcBc;
      total := AddJointRow(m, a, b, c, i, sumI, logbetaAcIJ, logBbJLogbetaJBb, total);
    }
  }

  /** The inner loop of `prob_c_beats_ab` for outer index `i`: adds the
      `b.alpha` terms of row `i` to `total`, reading the two caches. */
  method AddJointRow(m: Backend, a: Params, b: Params, c: Params, i: nat, sumI: real,
                     logbetaAcIJ: seq<real>, logBbJLogbetaJBb: seq<real>, total0: real)
    returns (total: real)
    requires i < a.alpha
    requires sumI == -m.ln((a.beta + i) as real) - m.lnBeta((1 + i) as real, a.beta as real)
                     - m.lnBeta(c.alpha as real, c.beta as real)
    requires IsLogBetaTable(m, logbetaAcIJ, c.alpha, (a.beta + b.beta + c.beta) as real, a.alpha + b.alpha)
    requires IsLogFactorTable(m, logBbJLogbetaJBb, b.beta, b.alpha)
    ensures total == total0 + RowSum(i, b.alpha, JointTerm(m, a, b, c))
  {
    total := total0;
    for j := 0 to b.alpha
      invariant total == total0 + RowSum(i, j, JointTerm(m, a, b, c))
    {
      CachedJointTerm(m, a, b, c, i, j, sumI, logbetaAcIJ, logBbJLogbetaJBb);
      total := total + m.exp(sumI + logbetaAcIJ[i + j] - logBbJLogbetaJBb[j]);
    }
  }

  /** `prob_c_beats_ab`: the double loop, then the two pairwise series. */
  method ProbCBeatsAB(m: Backend, a: Params, b: Params, c: Params) returns (p: real)
    ensures p == CBeatsAB(m, a, b, c)
  {
    var total := JointSumAB(m, a, b, c);
    var pA := ProbBBeatsA(m, c, a);
    var pB := ProbBBeatsA(m, c, b);
    p := 1.0 - pA - pB + total;
  }

  /** Assembling term `(i, j)` from the hoisted per-`i` part and the two cache
      entries gives the naive term. */
  lemma CachedJointTerm(m: Backend, a: Params, b: Params, c: Params, i: nat, j: nat, sumI: real,
                        logbetaAcIJ: seq<real>, logBbJLogbetaJBb: seq<real>)
    requires i < a.alpha && j < b.alpha
    requires sumI == -m.ln((a.beta + i) as real) - m.lnBeta((1 + i) as real, a.beta as real)
                     - m.lnBeta(c.alpha as real, c.beta as real)
    requires IsLogBetaTable(m, logbetaAcIJ, c.alpha, (a.beta + b.beta + c.beta) as real, a.alpha + b.alpha)
    requires IsLogFactorTable(m, logBbJLogbetaJBb, b.beta, b.alpha)
    ensures i + j < |logbetaAcIJ| && j < |logBbJLogbetaJBb|
    ensures m.exp(sumI + logbetaAcIJ[i + j] - logBbJLogbetaJBb[j]) == JointTerm(m, a, b, c)(i, j)
  {
    assert c.alpha + (i + j) == c.alpha + i + j;
  }

  // ----------------------------------------------------------------- quad

  /** Term `(i, j, k)` of P(A, B and C all beat D), every special function
      computed afresh. */
  function TripleTermAt(m: Backend, a: Params, b: Params, c: Params, d: Params, i: nat, j: nat, k: nat): real
  {
    m.exp(m.lnBeta((d.alpha + i + j + k) as real, (a.beta + b.beta + c.beta + d.beta) as real)
          - LogFactor(m, a.beta, i) - LogFactor(m, b.beta, j) - LogFactor(m, c.beta, k)
          - m.lnBeta(d.alpha as real, d.beta as real))
  }

  /** The terms of P(A, B and C all beat D) as the triple loop indexes them. */
  function TripleTerm(m: Backend, a: Params, b: Params, c: Params, d: Params): (nat, nat, nat) -> real
  {
    (i: nat, j: nat, k: nat) => TripleTermAt(m, a, b, c, d, i, j, k)
  }

  /** P(A, B and C all beat D): `a.alpha * b.alpha * c.alpha` terms. */
  function JointABC(m: Backend, a: Params, b: Params, c: Params, d: Params): real
  {
    Sum3(a.alpha, b.alpha, c.alpha, TripleTerm(m, a, b, c, d))
  }

  /** P(D beats A, B and C), assembled as the source does: one minus the three
      pairwise calls with D in the "b" role, plus the three triple calls with
      D as the candidate, minus the triple sum. */
  function DBeatsABC(m: Backend, a: Params, b: Params, c: Params, d: Params): real
  {
    1.0 - BBeatsA(m, a, d) - BBeatsA(m, b, d) - BBeatsA(m, c, d)
        + CBeatsAB(m, a, b, d) + CBeatsAB(m, a, c, d) + CBeatsAB(m, b, c, d)
        - JointABC(m, a, b, c, d)
  }

  /** The triple series has exactly `a.alpha * b.alpha * c.alpha` terms,
      term `(i, j, k)` at position `(i * b.alpha + j) * c.alpha + k`. */
  lemma JointABCAddsProductOfAlphasTerms(m: Backend, a: Params, b: Params, c: Params, d: Params,
                                         i: nat, j: nat, k: nat)
    requires i < a.alpha && j < b.alpha && k < c.alpha
    ensures |Flat3(a.alpha, b.alpha, c.alpha, TripleTerm(m, a, b, c, d))| == a.alpha * b.alpha * c.alpha
    ensures JointABC(m, a, b, c, d) == Sum(Flat3(a.alpha, b.alpha, c.alpha, TripleTerm(m, a, b, c, d)))
    ensures Position3(i, j, k, b.alpha, c.alpha) < |Flat3(a.alpha, b.alpha, c.alpha, TripleTerm(m, a, b, c, d))|
    ensures Flat3(a.alpha, b.alpha, c.alpha, TripleTerm(m, a, b, c, d))[Position3(i, j, k, b.alpha, c.alpha)]
            == TripleTermAt(m, a, b, c, d, i, j, k)
  {
    Flat3Length(a.alpha, b.alpha, c.alpha, TripleTerm(m, a, b, c, d));
    Sum3IsSumOfFlat3(a.alpha, b.alpha, c.alpha, TripleTerm(m, a, b, c, d));
    Flat3At(a.alpha, b.alpha, c.alpha, TripleTerm(m, a, b, c, d), i, j, k);
  }

  /** Assembling term `(i, j, k)` from the hoisted per-`(i, j)` part and the
      two cache entries gives the naive term. */
  lemma CachedTripleTerm(m: Backend, a: Params, b: Params, c: Params, d: Params, i: nat, j: nat, k: nat,
                         sumJ: real, logbetaBdIJK: seq<real>, logBcKLogbetaKBc: seq<real>)
    requires i < a.alpha && j < b.alpha && k < c.alpha
    requires sumJ == -m.ln((a.beta + i) as real) - m.lnBeta((1 + i) as real, a.beta as real)
                     - m.lnBeta(d.alpha as real, d.beta as real) - LogFactor(m, b.beta, j)
    requires IsLogBetaTable(m, logbetaBdIJK, d.alpha, (a.beta + b.beta + c.beta + d.beta) as real,
                            a.alpha + b.alpha + c.alpha)
    requires IsLogFactorTable(m, logBcKLogbetaKBc, c.beta, c.alpha)
    ensures i + j + k < |logbetaBdIJK| && k < |logBcKLogbetaKBc|
    ensures m.exp(sumJ + logbetaBdIJK[i + j + k] - logBcKLogbetaKBc[k]) == TripleTerm(m, a, b, c, d)(i, j, k)
  {
    assert d.alpha + (i + j + k) == d.alpha + i + j + k;
  }

  /** The triple loop of `prob_d_beats_abc`: per-`j` and per-`k` factors and
      the log-Beta values indexed by `i + j + k` are cached first; the per-`i`
      and per-`(i, j)` parts are hoisted out of the inner loops. */
  method JointSumABC(m: Backend, a: Params, b: Params, c: Params, d: Params) returns (total: real)
    ensures total == JointABC(m, a, b, c, d)
  {
    total := 0.0;
    var logbetaAdBd := m.lnBeta(d.alpha as real, d.beta as real);
    var logBbJLogbetaJBb := LogFactorTable(m, b.beta, b.alpha);
    var logBcKLogbetaKBc := LogFactorTable(m, c.beta, c.alpha);
    var abcd := (a.beta + b.beta + c.beta + d.beta) as real;
    var logbetaBdIJK := LogBetaTable(m, d.alpha, abcd, a.alpha + b.alpha + c.alpha);

    for i := 0 to a.alpha
      invariant total == Sum3(i, b.alpha, c.alpha, TripleTerm(m, a, b, c, d))
    {
      var sumI := -m.ln((a.beta + i) as real) - m.lnBeta((1 + i) as real, a.beta as real) - logbetaAdBd;
      total := AddTriplePlane(m, a, b, c, d, i, sumI, logbetaBdIJK, logBbJLogbetaJBb, logBcKLogbetaKBc, total);
    }
  }

  /** The middle loop of `prob_d_beats_abc` for outer index `i`. */
  method AddTriplePlane(m: Backend, a: Params, b: Params, c: Params, d: Params, i: nat, sumI: real,
                        logbetaBdIJK: seq<real>, logBbJLogbetaJBb: seq<real>, logBcKLogbetaKBc: seq<real>,
                        total0: real)
    returns (total: real)
    requires i < a.alpha
    requires sumI == -m.ln((a.beta + i) as real) - m.lnBeta((1 + i) as real, a.beta as real)
                     - m.lnBeta(d.alpha as real, d.beta as real)
    requires IsLogBetaTable(m, logbetaBdIJK, d.alpha, (a.beta + b.beta + c.beta + d.beta) as real,
                            a.alpha + b.alpha + c.alpha)
    requires IsLogFactorTable(m, logBbJLogbetaJBb, b.beta, b.alpha)
    requires IsLogFactorTable(m, logBcKLogbetaKBc, c.beta, c.alpha)
    ensures total == total0 + PlaneSum(i, b.alpha, c.alpha, TripleTerm(m, a, b, c, d))
  {
    total := total0;
    for j := 0 to b.alpha
      invariant total == total0 + PlaneSum(i, j, c.alpha, TripleTerm(m, a, b, c, d))
    {
      var sumJ := sumI - logBbJLogbetaJBb[j];
      total := AddTripleCell(m, a, b, c, d, i, j, sumJ, logbetaBdIJK, logBcKLogbetaKBc, total);
    }
  }

  /** The innermost loop of `prob_d_beats_abc` for indices `i`, `j`. */
  method AddTripleCell(m: Backend, a: Params, b: Params, c: Params, d: Params, i: nat, j: nat, sumJ: real,
                       logbetaBdIJK: seq<real>, logBcKLogbetaKBc: seq<real>, total0: real)
    returns (total: real)
    requires i < a.alpha && j < b.alpha
    requires sumJ == -m.ln((a.beta + i) as real) - m.lnBeta((1 + i) as real, a.beta as real)
                     - m.lnBeta(d.alpha as real, d.beta as real) - LogFactor(m, b.beta, j)
    requires IsLogBetaTable(m, logbetaBdIJK, d.alpha, (a.beta + b.beta + c.beta + d.beta) as real,
                            a.alpha + b.alpha + c.alpha)
    requires IsLogFactorTable(m, logBcKLogbetaKBc, c.beta, c.alpha)
    ensures total == total0 + CellSum(i, j, c.alpha, TripleTerm(m, a, b, c, d))
  {
    total := total0;
    for k := 0 to c.alpha
      invariant total == total0 + CellSum(i, j, k, TripleTerm(m, a, b, c, d))
    {
      CachedTripleTerm(m, a, b, c, d, i, j, k, sumJ, logbetaBdIJK, logBcKLogbetaKBc);
      total := total + m.exp(sumJ + logbetaBdIJK[i + j + k] - logBcKLogbetaKBc[k]);
    }
  }

  /** `prob_d_beats_abc`: the triple loop, then the three pairwise and the
      three triple comparisons. */
  method ProbDBeatsABC(m: Backend, a: Params, b: Params, c: Params, d: Params) returns (p: real)
    ensures p == DBeatsABC(m, a, b, c, d)
  {
    var total := JointSumABC(m, a, b, c, d);
    var pA := ProbBBeatsA(m, a, d);
    var pB := ProbBBeatsA(m, b, d);
    var pC := ProbBBeatsA(m, c, d);
    var pAB := ProbCBeatsAB(m, a, b, d);
    var pAC := ProbCBeatsAB(m, a, c, d);
    var pBC := ProbCBeatsAB(m, b, c, d);
    p := 1.0 - pA - pB - pC + pAB + pAC + pBC - total;
  }

  /** Whenever the pairwise series are complementary (P(D beats X) +
      P(X beats D) = 1, an analytic fact about Beta posteriors that the model
      does not prove), the source's mix of argument orders is the textbook
      inclusion-exclusion
        P(D best) = 1 - sum P(X beats D) + sum P(X and Y beat D) - P(all beat D). */
  lemma DBeatsABCIsInclusionExclusion(m: Backend, a: Params, b: Params, c: Params, d: Params)
    requires BBeatsA(m, a, d) + BBeatsA(m, d, a) == 1.0
    requires BBeatsA(m, b, d) + BBeatsA(m, d, b) == 1.0
    requires BBeatsA(m, c, d) + BBeatsA(m, d, c) == 1.0
    ensures DBeatsABC(m, a, b, c, d) ==
      1.0 - BBeatsA(m, d, a) - BBeatsA(m, d, b) - BBeatsA(m, d, c)
          + JointAB(m, a, b, d) + JointAB(m, a, c, d) + JointAB(m, b, c, d)
          - JointABC(m, a, b, c, d)
  {
  }

  // ------------------------------------------------------------------ test

  /** The winning probability of variant `i` among `n` = three or four: the
      variants are read in the order `Rotation(n, i)`, that is
      `i, (i + 1) % n, ...`; the first is the candidate (last argument of the
      comparator) and the others fill the rival roles, last first. */
  function Winning(m: Backend, vs: seq<BinaryVariant>, i: nat): real
    requires 3 <= |vs| <= MaxVariants && i < |vs|
    requires forall v <- vs :: WellFormed(v)
  {
    var n := |vs|;
    if n == 3 then
      CBeatsAB(m, Posterior(vs[(i + 2) % 3]), Posterior(vs[(i + 1) % 3]), Posterior(vs[i]))
    else
      DBeatsABC(m, Posterior(vs[(i + 3) % 4]), Posterior(vs[(i + 2) % 4]), Posterior(vs[(i + 1) % 4]), Posterior(vs[i]))
  }

  /** `Winning` reads the variants in the order `Rotation(n, i)`: the head of
      the rotation is the candidate, the rest fill the rival roles last first,
      no variant is read twice (so none is its own rival), and every variant
      of the test takes part. */
  lemma WinningReadsRotation(m: Backend, vs: seq<BinaryVariant>, i: nat)
    requires 3 <= |vs| <= MaxVariants && i < |vs|
    requires forall v <- vs :: WellFormed(v)
    ensures Rotation(|vs|, i)[0] == i
    ensures |vs| == 3 ==>
      var r := Rotation(3, i);
      Winning(m, vs, i) == CBeatsAB(m, Posterior(vs[r[2]]), Posterior(vs[r[1]]), Posterior(vs[r[0]]))
    ensures |vs| == 4 ==>
      var r := Rotation(4, i);
      Winning(m, vs, i) ==
        DBeatsABC(m, Posterior(vs[r[3]]), Posterior(vs[r[2]]), Posterior(vs[r[1]]), Posterior(vs[r[0]]))
    ensures forall k, l :: 0 <= k < l < |vs| ==> Rotation(|vs|, i)[k] != Rotation(|vs|, i)[l]
    ensures forall v :: 0 <= v < |vs| ==> v in Rotation(|vs|, i)
  {
    RotationIsPermutation(|vs|, i);
  }

  /** Appending the next candidate's probability extends a prefix of the
      candidates' probabilities by one. */
  lemma WinningSnoc(m: Backend, vs: seq<BinaryVariant>, probs: seq<real>, prob: real)
    requires 3 <= |vs| <= MaxVariants && forall v <- vs :: WellFormed(v)
    requires |probs| < |vs|
    requires forall k :: 0 <= k < |probs| ==> probs[k] == Winning(m, vs, k)
    requires prob == Winning(m, vs, |probs|)
    ensures forall k :: 0 <= k < |probs| + 1 ==> (probs + [prob])[k] == Winning(m, vs, k)
  {
  }

  datatype AddResult = Added | TooManyConversions | TooManyVariants

  /** The ordered list of observed variants of an A/B/n test on conversions. */
  class BinaryTest {
    var variants: seq<BinaryVariant>

    ghost predicate Valid()
      reads this
    {
      |variants| <= MaxVariants && forall v <- variants :: WellFormed(v)
    }

    /** `BinaryTest::new`: an empty test. */
    constructor ()
      ensures Valid() && variants == []
    {
      variants := [];
    }

    /** `add`: rejects conversions above participants first, then a fifth
        variant; a rejected call changes nothing, an accepted one appends. */
    method Add(participants: nat, conversions: nat) returns (result: AddResult)
      requires Valid()
      modifies this
      ensures Valid()
      ensures result == (if conversions > participants then TooManyConversions
                         else if |old(variants)| >= MaxVariants then TooManyVariants
                         else Added)
      ensures result == Added ==> variants == old(variants) + [BinaryVariant(participants, conversions)]
      ensures result != Added ==> variants == old(variants)
    {
      if conversions > participants {
        return TooManyConversions;
      }
      if |variants| >= MaxVariants {
        return TooManyVariants;
      }
      variants := variants + [BinaryVariant(participants, conversions)];
      result := Added;
    }

    /** One iteration of the rotation loop of `probabilities`: variant `i`
        is the candidate, read with its rivals at `(i + 1) % n`, ... */
    method CandidateProbability(m: Backend, i: nat) returns (prob: real)
      requires Valid() && 3 <= |variants| && i < |variants|
      ensures prob == Winning(m, variants, i)
    {
      if |variants| == 3 {
        var c := variants[i];
        var b := variants[(i + 1) % 3];
        var a := variants[(i + 2) % 3];
        prob := ProbCBeatsAB(m, Posterior(a), Posterior(b), Posterior(c));
      } else {
        var d := variants[i];
        var c := variants[(i + 1) % 4];
        var b := variants[(i + 2) % 4];
        var a := variants[(i + 3) % 4];
        prob := ProbDBeatsABC(m, Posterior(a), Posterior(b), Posterior(c), Posterior(d));
      }
    }

    /** `probabilities`: one entry per variant, in insertion order. With two
        variants the first entry is P(first beats second); with three or four,
        every entry but the last comes from its rotation, and the last is one
        minus the others, so the entries sum to exactly one. */
    method Probabilities(m: Backend) returns (probs: seq<real>)
      requires Valid()
      ensures |probs| == |variants|
      ensures |variants| == 0 ==> probs == []
      ensures |variants| == 1 ==> probs == [1.0]
      ensures |variants| == 2 ==>
        probs == [BBeatsA(m, Posterior(variants[1]), Posterior(variants[0])),
                  1.0 - BBeatsA(m, Posterior(variants[1]), Posterior(variants[0]))]
      ensures |variants| >= 3 ==> forall i :: 0 <= i < |variants| - 1 ==> probs[i] == Winning(m, variants, i)
      ensures |variants| >= 2 ==> Sum(probs) == 1.0
    {
      var n := |variants|;
      if n == 0 {
        probs := [];
      } else if n == 1 {
        probs := [1.0];
      } else if n == 2 {
        var b := variants[0];
        var a := variants[1];
        var prob := ProbBBeatsA(m, Posterior(a), Posterior(b));
        probs := [prob, 1.0 - prob];
        SumSnoc([prob], 1.0 - prob);
        SumSnoc([], prob);
      } else {
        probs := RotationProbabilities(m);
      }
    }

    /** The three- and four-variant branch of `probabilities`: the rotation
        loop over every variant but the last, then one minus their total. */
    method RotationProbabilities(m: Backend) returns (probs: seq<real>)
      requires Valid() && 3 <= |variants|
      ensures |probs| == |variants|
      ensures forall i :: 0 <= i < |variants| - 1 ==> probs[i] == Winning(m, variants, i)
      ensures probs[|variants| - 1] == 1.0 - Sum(probs[..|variants| - 1])
      ensures Sum(probs) == 1.0
    {
      probs := [];
      var total := 0.0;
      for i := 0 to |variants| - 1
        invariant |probs| == i
        invariant forall k :: 0 <= k < i ==> probs[k] == Winning(m, variants, k)
        invariant total == Sum(probs)
      {
        var prob := CandidateProbability(m, i);
        WinningSnoc(m, variants, probs, prob);
        SumSnoc(probs, prob);
        probs := probs + [prob];
        total := total + prob;
      }
      SumSnoc(probs, 1.0 - total);
      assert (probs + [1.0 - total])[..|probs|] == probs;
      probs := probs + [1.0 - total];
    }
  }
}
