# bayestest: winning probabilities of A/B/n tests, modelled in Dafny

The model covers the two test orchestrators of the `bayestest` crate and the
closed-form comparators behind them.

- **`BinaryTest`** (`binary.dfy`, module `Binary`) keeps up to four
  `(participants, conversions)` variants.
  - Each variant has a Beta(1 + conversions, 1 + participants - conversions)
    posterior.
  - The comparators are `prob_b_beats_a`, `prob_c_beats_ab` and
    `prob_d_beats_abc`.
- **`CountTest`** (`count.dfy`, module `Count`) keeps up to three
  `(events, exposure)` variants.
  - Each variant has a Gamma(events, exposure) posterior.
  - The comparators are `prob_1_beats_2` and `prob_1_beats_23`.
- **`probabilities`**, in both tests, dispatches on the number of variants:
  - none gives `[]` and one gives `[1.0]`;
  - two give a single pairwise call and its complement;
  - three or four call a comparator for every variant except the last, each
    with the variants rotated so that the candidate comes first. The last
    entry is one minus the running total.

Each comparator is a `method` with the source's loops, caches and hoisted
terms. Its postcondition equates the result with a naive specification
function.

- **Naive sums.** The specification function recomputes every logarithm,
  log-Beta and log-Gamma value inside the sum. Its finite sums are defined in
  module `Sums`: `SumTo`, `Sum2` and `Sum3`.
- **Caching.** The loop invariants and the `Cached…`/`Hoisted…` lemmas prove
  that caching and hoisting change nothing. Every cache index is in bounds.
- **Inclusion-exclusion.** The specification functions combine lower-order
  comparisons with the source's signs and argument orders.
- **Term counts.** Lemmas show that each series adds exactly the stated
  number of terms, in loop order.

The special functions are not evaluated. `Math.Backend` carries `ln`,
`exp`, `logGamma` (the crate's `loggamma`) and `lnBeta` (`statrs`'s `ln_beta`)
as arrow values. Everything proved holds for any implementation of them. The
count module's `logbeta` is `Math.LogBeta`, the identity
ln B(a, b) = ln Γ(a) + ln Γ(b) − ln Γ(a + b) over `logGamma`.

The two remaining modules are shared:

- `Rotations` is the index rotation `i, (i + 1) % n, …` together with its
  permutation lemma.
- `Sums` holds the generic finite sums, and lemmas that flatten a nested sum
  into one sequence in loop order.

Other modelling choices:

- `f64` is `real`.
- `u32` is `nat`.
- A failing `assert!` in `add` becomes a result value (`TooManyConversions`,
  `TooManyVariants`), and the variant list is then unchanged.

## Model

| member | source | states |
|---|---|---|
| Binary.BinaryTest.constructor | src/binary.rs:13-17 | `new` gives an empty test that satisfies the class invariant (at most four variants, each well-formed) |
| Binary.BinaryTest.Add | src/binary.rs:19-24 | conversions above participants are rejected first, then a fifth variant; a rejected call leaves the list unchanged; an accepted one appends exactly the new variant at the end; the invariant is kept |
| Binary.Posterior | src/binary.rs:34-38 | for a well-formed variant both posterior parameters are at least 1 (no underflow of `participants - conversions`), they add up to participants + 2, and alpha − 1 is the conversion count |
| Binary.BinaryTest.Probabilities | src/binary.rs:26-92 | one entry per variant; 0 variants give `[]`, 1 gives `[1.0]`, 2 give `[P(first beats second), 1 − that]` with the second variant in the "a" role; with 3 or 4, every entry but the last is that variant's rotated winning probability; with 2 or more the entries sum to exactly 1 |
| Binary.BinaryTest.RotationProbabilities | src/binary.rs:42-90 | the 3- and 4-variant branch: entry `i < n − 1` is `Winning(i)`, the last entry is 1 minus the sum of the earlier ones, and the whole sums to 1 |
| Binary.BinaryTest.CandidateProbability | src/binary.rs:46-57 | one rotation step computes `Winning(variants, i)`: variant `i` is the candidate, `(i + 1) % n` and later fill the rival roles last first (also lines 69-83) |
| Binary.WinningReadsRotation | src/binary.rs:45-48 | the indices read for candidate `i` are `Rotation(n, i)` with `i` at its head, in roles c, b, a (n = 3) or d, c, b, a (n = 4); no index repeats, so no variant is its own rival, and every variant appears (also lines 68-72) |
| Rotations.Rotation | src/binary.rs:45-48 | the rotation for candidate `i` has `n` entries, starts with `i`, and entry `k` is `(i + k) % n` |
| Rotations.RotationIsPermutation | src/binary.rs:68-72 | every rotated index is a valid variant index, no two positions repeat an index (no variant is its own rival), and every variant takes part |
| Binary.ProbBBeatsA | src/binary.rs:95-105 | the loop with `logbeta(alpha_a, beta_a)` and `beta_b + beta_a` hoisted returns exactly the naive series `BBeatsA` of `alpha_b` terms |
| Binary.HoistedPairTerm | src/binary.rs:97-101 | a term built from the hoisted values equals the naive term |
| Binary.BBeatsAAddsAlphaBTerms | src/binary.rs:100-102 | P(B beats A) is the sum of exactly `alpha_b` terms, term `i` in position `i` |
| Binary.LogFactorTable | src/binary.rs:112-116 | the `log_bb_j_logbeta_j_bb` cache has `alpha_b` entries, entry `j` being `ln(beta_b + j) + logbeta(1 + j, beta_b)` (also lines 142-150) |
| Binary.LogBetaTable | src/binary.rs:118-123 | the `logbeta_ac_i_j` cache has `alpha_a + alpha_b` entries, entry `s` being `logbeta(alpha_c + s, beta_a + beta_b + beta_c)` (also lines 152-157) |
| Binary.CachedJointTerm | src/binary.rs:125-130 | for `i < alpha_a`, `j < alpha_b` the cache indices `i + j` and `j` are in bounds, and the term assembled from `sum_i` and the two caches equals the naive term |
| Binary.AddJointRow | src/binary.rs:128-130 | the inner loop adds exactly row `i` of the naive double series to the running total |
| Binary.JointSumAB | src/binary.rs:108-131 | the tables and the double loop of `prob_c_beats_ab` return exactly the naive double series P(A and B beat C) |
| Binary.JointABAddsAlphaATimesAlphaBTerms | src/binary.rs:125-131 | the double series is the sum of exactly `alpha_a * alpha_b` terms, term `(i, j)` at position `i * alpha_b + j` |
| Binary.ProbCBeatsAB | src/binary.rs:107-135 | `prob_c_beats_ab` returns 1 − P(A beats C) − P(B beats C) + the double series, with C in the first argument pair of both pairwise calls |
| Binary.CachedTripleTerm | src/binary.rs:163-166 | for `i < alpha_a`, `j < alpha_b`, `k < alpha_c` the cache indices `i + j + k` and `k` are in bounds, and the term assembled from `sum_j` and the caches equals the naive term |
| Binary.AddTripleCell | src/binary.rs:165-167 | the innermost loop adds exactly cell `(i, j)` of the naive triple series |
| Binary.AddTriplePlane | src/binary.rs:162-168 | the middle loop, with `sum_j` hoisted, adds exactly plane `i` of the naive triple series |
| Binary.JointSumABC | src/binary.rs:138-169 | the three tables and the triple loop return exactly the naive triple series P(A, B and C all beat D) |
| Binary.JointABCAddsProductOfAlphasTerms | src/binary.rs:159-169 | the triple series is the sum of exactly `alpha_a * alpha_b * alpha_c` terms, term `(i, j, k)` at position `(i * alpha_b + j) * alpha_c + k` |
| Binary.ProbDBeatsABC | src/binary.rs:137-177 | `prob_d_beats_abc` returns 1 − three pairwise calls (D second) + three triple calls (D as candidate) − the triple series, with the source's argument orders |
| Binary.DBeatsABCIsInclusionExclusion | src/binary.rs:171-176 | if the pairwise series are complementary, the source's mix of argument orders is textbook inclusion-exclusion over "X beats D" events |
| Count.CountTest.constructor | src/count.rs:15-19 | `new` gives an empty test within the three-variant bound |
| Count.CountTest.Default | src/count.rs:72-76 | `default` gives the same empty test as `new` |
| Count.CountTest.Add | src/count.rs:22-26 | a fourth variant is rejected and the list is unchanged; otherwise the variant is appended at the end with no check on events or exposure |
| Count.CountTest.Probabilities | src/count.rs:29-69 | one entry per variant; 0 give `[]`, 1 gives `[1.0]`, 2 give `[p, 1 − p]` with `p = P(first beats second)`; with 3, entries 0 and 1 are the rotated winning probabilities and entry 2 is 1 minus their sum; with 2 or more the entries sum to exactly 1 |
| Count.WinningReadsRotation | src/count.rs:48-51 | the variants read for candidate `i` are `Rotation(3, i)`, candidate first; no index repeats, so no variant is its own rival, and all three take part |
| Count.ProbOneBeatsTwo | src/count.rs:78-93 | the loop with `ln(beta_1)`, `alpha_2 * ln(beta_2)` and `ln(beta_1 + beta_2)` hoisted returns exactly the naive series of `alpha_1` terms |
| Count.HoistedPairTerm | src/count.rs:80-89 | a term built from the three hoisted values equals the naive term |
| Count.OneBeatsTwoAddsAlphaOneTerms | src/count.rs:84-90 | P(1 beats 2) is the sum of exactly `alpha_1` terms, in loop order |
| Count.ZeroEventsNeverWin | src/count.rs:84-92 | with `alpha_1 = 0` (no events) the series is empty and the result is exactly 0 |
| Count.HoistedJointTerm | src/count.rs:98-110 | a term built from the hoisted `sum_k`, `ln(beta_3)`, `ln(beta_1 + beta_2 + beta_3)` and `loggamma_a1` equals the naive term |
| Count.AddJointRow | src/count.rs:107-111 | the inner loop adds exactly row `k` of the naive double series |
| Count.JointSumTwoThree | src/count.rs:96-112 | the double loop with its hoisted values returns exactly the naive double series |
| Count.JointTwoThreeAddsAlphaTwoTimesAlphaThreeTerms | src/count.rs:104-112 | the double series is the sum of exactly `alpha_2 * alpha_3` terms, term `(k, l)` at position `k * alpha_3 + l` |
| Count.ProbOneBeatsTwoThree | src/count.rs:95-117 | `prob_1_beats_23` returns 1 − P(2 beats 1) − P(3 beats 1) + the double series, with the candidate second in both pairwise calls |

## Left out

- Floating point: `f64` arithmetic is exact real arithmetic here. Rounding, summation-order effects and NaN/infinity (for example `loggamma(0)` for a count variant with no events) are not modelled.
- The values of `ln`, `exp`, `loggamma` (the C `lgamma_r` call or `libm::lgamma`, chosen by a cargo feature) and `statrs`'s `ln_beta` are opaque parameters. The literal expected values in the unit tests therefore cannot be stated.
- `lgamma_r`'s thread-safety, the FFI call and the sign out-parameter are not modelled. `src/lib.rs` (module declarations and re-exports) is not part of this model.
- Numeric properties are not proved: probabilities in [0, 1], symmetry, monotonicity, and P(X beats D) + P(D beats X) = 1. They are analytic facts about Beta and Gamma integrals.
- Binary.DBeatsABCIsInclusionExclusion: takes pairwise complementarity as a hypothesis, because that is one of these analytic facts.
- `u32` overflow is not modelled: `1 + participants` and the summed betas are unbounded `nat` values, and the source does not guard them.
- Binary.BinaryTest.Add and Count.CountTest.Add: a failing `assert!` (a panic) is modelled as a returned `AddResult` with the list unchanged, not as an abort.
- `Vec::with_capacity` preallocation is not modelled; the variant list and the caches are `seq` values that the methods reassign.
- Binary.BinaryTest.Probabilities: the four-variant branch is the `_` arm of the source's match, which the invariant limits to exactly four variants.
