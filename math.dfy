/** The special-function provider the comparators depend on, and the shape
    parameters of a posterior.

    Nothing here is evaluated: the natural logarithm, the exponential, the
    log-Gamma function and the log-Beta function of the `statrs` crate are
    supplied as values of `Backend`, so every property proved about the
    comparators holds for whichever implementation is plugged in (the C
    library's `lgamma_r`, the portable `libm` one, or any other). */
module Math {

  /** The numeric primitives, as opaque values of arrow type.
      - `logGamma` is `loggamma` of math.rs (either build-time choice);
      - `lnBeta` is `statrs::function::beta::ln_beta`, used by the binary
        comparators;
      - `ln` and `exp` are `f64::ln` and `f64::exp`. */
  datatype Backend = Backend(
    logGamma: real -> real,
    lnBeta: (real, real) -> real,
    ln: real -> real,
    exp: real -> real)

  /** `logbeta` of math.rs, the identity ln B(a, b) = ln Γ(a) + ln Γ(b) - ln Γ(a + b).
      Used by the count comparators. */
  function LogBeta(m: Backend, a: real, b: real): real
  {
    m.logGamma(a) + m.logGamma(b) - m.logGamma(a + b)
  }

  /** Shape parameters (alpha, beta) of a Beta posterior (binary outcomes) or
      of a Gamma posterior (counts over exposure). The source passes them as
      separate `u32` arguments; they are unbounded here. */
  datatype Params = Params(alpha: nat, beta: nat)
}
