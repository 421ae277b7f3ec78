/** Finite sums as the comparators' loops accumulate them.

    A `for` loop that adds `f(k)` for `k in 0..n` to a running `total` computes
    `SumTo(n, f)`; two nested loops compute `Sum2`, three compute `Sum3`. Each
    definition adds its terms in the loops' order (outer index slowest). The
    lemmas show that each nested sum is the plain sum of a flat sequence with
    exactly `n`, `nI * nJ` or `nI * nJ * nK` terms, laid out row by row.

    `RowSum` and `CellSum` repeat the fold of `SumTo` on purpose, and so do
    `Row` and `Cell` that of `Terms`: taking the fixed outer indices as
    first-order arguments keeps every loop invariant free of a lambda built
    around another lambda, which the verifier handles far more slowly. The
    comparators likewise pair each term function (`...TermAt`) with a thin
    arrow-valued wrapper (`...Term`) for the same reason. */
module Sums {

  /** Sum of a sequence, adding left to right. */
  function Sum(s: seq<real>): real
  {
    if |s| == 0 then 0.0 else Sum(s[..|s| - 1]) + s[|s| - 1]
  }

  /** Appending one entry adds it to the sum. */
  lemma SumSnoc(s: seq<real>, x: real)
    ensures (s + [x])[..|s|] == s
    ensures Sum(s + [x]) == Sum(s) + x
  {
    assert (s + [x])[..|s|] == s;
  }

  /** Summing a concatenation is adding the sums of its parts. */
  lemma {:induction false} SumAppend(s: seq<real>, t: seq<real>)
    ensures Sum(s + t) == Sum(s) + Sum(t)
  {
    if |t| == 0 {
      assert s + t == s;
    } else {
      SumAppend(s, t[..|t| - 1]);
      assert (s + t)[..|s + t| - 1] == s + t[..|t| - 1];
    }
  }

  // ---------------------------------------------------------------- one loop

  /** f(0) + f(1) + ... + f(n - 1). */
  function SumTo(n: nat, f: nat -> real): real
  {
    if n == 0 then 0.0 else SumTo(n - 1, f) + f(n - 1)
  }

  /** The terms `f(0), ..., f(n - 1)` one loop adds, in order. */
  function Terms(n: nat, f: nat -> real): (s: seq<real>)
    ensures |s| == n
    ensures forall k :: 0 <= k < n ==> s[k] == f(k)
  {
    if n == 0 then [] else Terms(n - 1, f) + [f(n - 1)]
  }

  /** A single loop bounded by `n` adds exactly the `n` terms `f(0..n)`. */
  lemma {:induction false} SumToAddsExactlyNTerms(n: nat, f: nat -> real)
    ensures SumTo(n, f) == Sum(Terms(n, f))
  {
    if n > 0 {
      SumToAddsExactlyNTerms(n - 1, f);
      assert Terms(n, f)[..n - 1] == Terms(n - 1, f);
    }
  }

  // ----------------------------------------------------------------- blocks

  /** block(0), block(1), ..., block(n - 1), one after the other. */
  function Concat(n: nat, block: nat -> seq<real>): seq<real>
  {
    if n == 0 then [] else Concat(n - 1, block) + block(n - 1)
  }

  /** `n` blocks of `size` entries each make `n * size` entries. */
  lemma {:induction false} ConcatLength(n: nat, block: nat -> seq<real>, size: nat)
    requires forall i :: 0 <= i < n ==> |block(i)| == size
    ensures |Concat(n, block)| == n * size
  {
    if n > 0 {
      ConcatLength(n - 1, block, size);
      MulSucc(n, size);
    }
  }

  /** Entry `p` of block `i` follows the `i` blocks before it. */
  lemma {:induction false} ConcatAt(n: nat, block: nat -> seq<real>, i: nat, p: nat)
    requires i < n && p < |block(i)|
    ensures |Concat(i, block)| + p < |Concat(n, block)|
    ensures Concat(n, block)[|Concat(i, block)| + p] == block(i)[p]
  {
    var prefix := Concat(n - 1, block);
    if i < n - 1 {
      ConcatAt(n - 1, block, i, p);
      assert (prefix + block(n - 1))[|Concat(i, block)| + p] == prefix[|Concat(i, block)| + p];
    } else {
      assert (prefix + block(i))[|prefix| + p] == block(i)[p];
    }
  }

  // ------------------------------------------------------------- two loops

  /** g(i, 0) + ... + g(i, n - 1): the inner loop for outer index `i`. */
  function RowSum(i: nat, n: nat, g: (nat, nat) -> real): real
  {
    if n == 0 then 0.0 else RowSum(i, n - 1, g) + g(i, n - 1)
  }

  /** The sum over `i < nI`, `j < nJ` of `g(i, j)`, one row of `i` at a time. */
  function Sum2(nI: nat, nJ: nat, g: (nat, nat) -> real): real
  {
    if nI == 0 then 0.0 else Sum2(nI - 1, nJ, g) + RowSum(nI - 1, nJ, g)
  }

  /** The terms `g(i, 0), ..., g(i, n - 1)` of one row. */
  function Row(i: nat, n: nat, g: (nat, nat) -> real): (s: seq<real>)
    ensures |s| == n
  {
    if n == 0 then [] else Row(i, n - 1, g) + [g(i, n - 1)]
  }

  /** Entry `j` of row `i` is `g(i, j)`. */
  lemma {:induction false} RowAt(i: nat, n: nat, g: (nat, nat) -> real, j: nat)
    requires j < n
    ensures Row(i, n, g)[j] == g(i, j)
  {
    if j < n - 1 {
      RowAt(i, n - 1, g, j);
    }
  }

  /** Row `i` of the double loop, as a block. */
  function RowBlock(nJ: nat, g: (nat, nat) -> real): nat -> seq<real>
  {
    (i: nat) => Row(i, nJ, g)
  }

  /** All terms of the double loop, row after row. */
  function Flat2(nI: nat, nJ: nat, g: (nat, nat) -> real): seq<real>
  {
    Concat(nI, RowBlock(nJ, g))
  }

  lemma {:induction false} RowSumIsSumOfRow(i: nat, n: nat, g: (nat, nat) -> real)
    ensures RowSum(i, n, g) == Sum(Row(i, n, g))
  {
    if n > 0 {
      RowSumIsSumOfRow(i, n - 1, g);
      assert Row(i, n, g)[..n - 1] == Row(i, n - 1, g);
    }
  }

  /** The double loop adds exactly the terms of `Flat2`, in order. */
  lemma {:induction false} Sum2IsSumOfFlat2(nI: nat, nJ: nat, g: (nat, nat) -> real)
    ensures Sum2(nI, nJ, g) == Sum(Flat2(nI, nJ, g))
  {
    if nI > 0 {
      Sum2IsSumOfFlat2(nI - 1, nJ, g);
      RowSumIsSumOfRow(nI - 1, nJ, g);
      SumAppend(Flat2(nI - 1, nJ, g), Row(nI - 1, nJ, g));
    }
  }

  /** The double loop has `nI * nJ` terms, and term `(i, j)` sits at
      position `i * nJ + j`. */
  lemma Flat2At(nI: nat, nJ: nat, g: (nat, nat) -> real, i: nat, j: nat)
    requires i < nI && j < nJ
    ensures |Flat2(nI, nJ, g)| == nI * nJ
    ensures i * nJ + j < nI * nJ
    ensures Flat2(nI, nJ, g)[i * nJ + j] == g(i, j)
  {
    ConcatLength(nI, RowBlock(nJ, g), nJ);
    ConcatLength(i, RowBlock(nJ, g), nJ);
    ConcatAt(nI, RowBlock(nJ, g), i, j);
    RowAt(i, nJ, g, j);
  }

  // ----------------------------------------------------------- three loops

  /** h(i, j, 0) + ... + h(i, j, n - 1): the innermost loop for indices `i`, `j`. */
  function CellSum(i: nat, j: nat, n: nat, h: (nat, nat, nat) -> real): real
  {
    if n == 0 then 0.0 else CellSum(i, j, n - 1, h) + h(i, j, n - 1)
  }

  /** The two inner loops for a fixed outermost index `i`. */
  function PlaneSum(i: nat, nJ: nat, nK: nat, h: (nat, nat, nat) -> real): real
  {
    if nJ == 0 then 0.0 else PlaneSum(i, nJ - 1, nK, h) + CellSum(i, nJ - 1, nK, h)
  }

  /** The sum over `i < nI`, `j < nJ`, `k < nK` of `h(i, j, k)`, outermost index slowest. */
  function Sum3(nI: nat, nJ: nat, nK: nat, h: (nat, nat, nat) -> real): real
  {
    if nI == 0 then 0.0 else Sum3(nI - 1, nJ, nK, h) + PlaneSum(nI - 1, nJ, nK, h)
  }

  /** The terms `h(i, j, 0), ..., h(i, j, n - 1)` of the innermost loop. */
  function Cell(i: nat, j: nat, n: nat, h: (nat, nat, nat) -> real): (s: seq<real>)
    ensures |s| == n
  {
    if n == 0 then [] else Cell(i, j, n - 1, h) + [h(i, j, n - 1)]
  }

  /** Entry `k` of cell `(i, j)` is `h(i, j, k)`. */
  lemma {:induction false} CellAt(i: nat, j: nat, n: nat, h: (nat, nat, nat) -> real, k: nat)
    requires k < n
    ensures Cell(i, j, n, h)[k] == h(i, j, k)
  {
    if k < n - 1 {
      CellAt(i, j, n - 1, h, k);
    }
  }

  /** Cell `j` of the plane of outer index `i`, as a block. */
  function CellBlock(i: nat, nK: nat, h: (nat, nat, nat) -> real): nat -> seq<real>
  {
    (j: nat) => Cell(i, j, nK, h)
  }

  /** The terms of the two inner loops for outer index `i`, cell after cell. */
  function Plane(i: nat, nJ: nat, nK: nat, h: (nat, nat, nat) -> real): seq<real>
  {
    Concat(nJ, CellBlock(i, nK, h))
  }

  /** Plane `i` of the triple loop, as a block. */
  function PlaneBlock(nJ: nat, nK: nat, h: (nat, nat, nat) -> real): nat -> seq<real>
  {
    (i: nat) => Plane(i, nJ, nK, h)
  }

  /** All terms of the triple loop, in the order the loops visit them. */
  function Flat3(nI: nat, nJ: nat, nK: nat, h: (nat, nat, nat) -> real): seq<real>
  {
    Concat(nI, PlaneBlock(nJ, nK, h))
  }

  lemma {:induction false} CellSumIsSumOfCell(i: nat, j: nat, n: nat, h: (nat, nat, nat) -> real)
    ensures CellSum(i, j, n, h) == Sum(Cell(i, j, n, h))
  {
    if n > 0 {
      CellSumIsSumOfCell(i, j, n - 1, h);
      assert Cell(i, j, n, h)[..n - 1] == Cell(i, j, n - 1, h);
    }
  }

  lemma {:induction false} PlaneSumIsSumOfPlane(i: nat, nJ: nat, nK: nat, h: (nat, nat, nat) -> real)
    ensures PlaneSum(i, nJ, nK, h) == Sum(Plane(i, nJ, nK, h))
  {
    if nJ > 0 {
      PlaneSumIsSumOfPlane(i, nJ - 1, nK, h);
      CellSumIsSumOfCell(i, nJ - 1, nK, h);
      SumAppend(Plane(i, nJ - 1, nK, h), Cell(i, nJ - 1, nK, h));
    }
  }

  /** The triple loop adds exactly the terms of `Flat3`, in order. */
  lemma {:induction false} Sum3IsSumOfFlat3(nI: nat, nJ: nat, nK: nat, h: (nat, nat, nat) -> real)
    ensures Sum3(nI, nJ, nK, h) == Sum(Flat3(nI, nJ, nK, h))
  {
    if nI > 0 {
      Sum3IsSumOfFlat3(nI - 1, nJ, nK, h);
      PlaneSumIsSumOfPlane(nI - 1, nJ, nK, h);
      SumAppend(Flat3(nI - 1, nJ, nK, h), Plane(nI - 1, nJ, nK, h));
    }
  }

  /** Every plane has `nJ * nK` terms. */
  lemma PlaneLengths(n: nat, nJ: nat, nK: nat, h: (nat, nat, nat) -> real)
    ensures forall i :: 0 <= i < n ==> |PlaneBlock(nJ, nK, h)(i)| == nJ * nK
  {
    forall i | 0 <= i < n
      ensures |PlaneBlock(nJ, nK, h)(i)| == nJ * nK
    {
      ConcatLength(nJ, CellBlock(i, nK, h), nK);
    }
  }

  /** The triple loop has `nI * nJ * nK` terms. */
  lemma Flat3Length(nI: nat, nJ: nat, nK: nat, h: (nat, nat, nat) -> real)
    ensures |Flat3(nI, nJ, nK, h)| == nI * nJ * nK
  {
    PlaneLengths(nI, nJ, nK, h);
    ConcatLength(nI, PlaneBlock(nJ, nK, h), nJ * nK);
    ThreeFactors(nI, nJ, nK);
  }

  /** Term `(j, k)` of the plane of outer index `i` sits at position `j * nK + k`. */
  lemma PlaneAt(i: nat, nJ: nat, nK: nat, h: (nat, nat, nat) -> real, j: nat, k: nat)
    requires j < nJ && k < nK
    ensures j * nK + k < |Plane(i, nJ, nK, h)|
    ensures Plane(i, nJ, nK, h)[j * nK + k] == h(i, j, k)
  {
    var cells := CellBlock(i, nK, h);
    ConcatLength(j, cells, nK);
    ConcatAt(nJ, cells, j, k);
    CellAt(i, j, nK, h, k);
  }

  /** The position of term `(i, j, k)` in the order the triple loop visits
      the terms, for inner bounds `nJ` and `nK`. */
  function Position3(i: nat, j: nat, k: nat, nJ: nat, nK: nat): nat
  {
    (i * nJ + j) * nK + k
  }

  /** Term `(i, j, k)` of the triple loop sits at position `(i * nJ + j) * nK + k`. */
  lemma Flat3At(nI: nat, nJ: nat, nK: nat, h: (nat, nat, nat) -> real, i: nat, j: nat, k: nat)
    requires i < nI && j < nJ && k < nK
    ensures Position3(i, j, k, nJ, nK) < |Flat3(nI, nJ, nK, h)|
    ensures Flat3(nI, nJ, nK, h)[Position3(i, j, k, nJ, nK)] == h(i, j, k)
  {
    var planes := PlaneBlock(nJ, nK, h);
    PlaneAt(i, nJ, nK, h, j, k);
    PlaneLengths(i, nJ, nK, h);
    ConcatLength(i, planes, nJ * nK);
    ConcatAt(nI, planes, i, j * nK + k);
    MixedRadix(i, j, k, nJ, nK);
  }

  /** Reading the triple index as digits of a mixed-radix number. */
  lemma MixedRadix(i: nat, j: nat, k: nat, nJ: nat, nK: nat)
    ensures (i * nJ + j) * nK + k == i * (nJ * nK) + (j * nK + k)
  {
    calc {
      (i * nJ + j) * nK + k;
      i * nJ * nK + j * nK + k;
      { ThreeFactors(i, nJ, nK); }
      i * (nJ * nK) + (j * nK + k);
    }
  }

  lemma ThreeFactors(a: nat, b: nat, c: nat)
    ensures a * b * c == a * (b * c)
  {
  }

  /** One more block of `y` entries. */
  lemma MulSucc(x: nat, y: nat)
    requires x > 0
    ensures (x - 1) * y + y == x * y
  {
  }
}
