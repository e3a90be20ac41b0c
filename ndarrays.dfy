/**
 * The N-dimensional integer arrays the codec consumes: a shape, a dtype, a C-contiguity
 * flag and the elements in row-major (C) order, plus the index arithmetic on them.
 */
module NdArrays {

  /** A numpy dtype as far as the codec looks at it: its kind letter and its width in bytes. */
  datatype DType = DType(kind: char, itemsize: nat)

  /**
   * An array as handed to the codec. `data` holds the logical elements in row-major order;
   * `cContiguous` is numpy's `flags.c_contiguous`.
   */
  datatype NdArray = NdArray(shape: seq<nat>, dtype: DType, cContiguous: bool, data: array<int>)
  {
    /** A numpy array always holds exactly as many elements as its shape says. */
    predicate Valid()
    {
      data.Length == Product(shape)
    }
  }

  /** The number of elements of an array of the given shape (numpy's `prod(shape)`). */
  function Product(shape: seq<nat>): nat
  {
    if shape == [] then 1 else shape[0] * Product(shape[1..])
  }

  /** Splitting off the last dimension: prod(shape) == prod(shape[:-1]) * shape[-1]. */
  lemma {:induction false} ProductSnoc(shape: seq<nat>)
    requires |shape| > 0
    ensures Product(shape) == Product(shape[..|shape| - 1]) * shape[|shape| - 1]
  {
    var n := |shape|;
    if n > 1 {
      var tail, front := shape[1..], shape[..n - 1];
      ProductSnoc(tail);
      assert tail[..|tail| - 1] == front[1..];
      var p, last := Product(front[1..]), shape[n - 1];
      assert Product(tail) == p * last;
      assert Product(front) == shape[0] * p;
      MulAssoc(shape[0], p, last);
    } else {
      assert shape[1..] == [] && shape[..0] == [];
    }
  }

  /** (a * b) * c == a * (b * c) */
  lemma MulAssoc(a: nat, b: nat, c: nat)
    ensures a * (b * c) == (a * b) * c
  {
  }

  /** Splitting off the last two dimensions. */
  lemma ProductSnoc2(shape: seq<nat>)
    requires |shape| >= 2
    ensures Product(shape[..|shape| - 1]) == Product(shape[..|shape| - 2]) * shape[|shape| - 2]
  {
    var front := shape[..|shape| - 1];
    ProductSnoc(front);
    assert front[..|front| - 1] == shape[..|shape| - 2];
  }

  /** The element count of a three-dimensional shape. */
  lemma Product3(d0: nat, d1: nat, d2: nat)
    ensures Product([d0, d1, d2]) == d0 * d1 * d2
  {
    assert [d0, d1, d2][1..] == [d1, d2];
    Product2(d1, d2);
  }

  /** The element count of a two-dimensional shape. */
  lemma Product2(d0: nat, d1: nat)
    ensures Product([d0, d1]) == d0 * d1
  {
    assert [d0, d1][1..] == [d1];
    assert [d1][1..] == [];
    assert Product([d1]) == d1 * Product([]);
  }

  /** The row-major flat index of element (i0, i1, i2) of an array of shape (d0, d1, d2). */
  function RowMajor3(i0: nat, i1: nat, i2: nat, d0: nat, d1: nat, d2: nat): (k: nat)
    requires i0 < d0 && i1 < d1 && i2 < d2
    ensures k < d0 * d1 * d2
    ensures k / (d1 * d2) == i0 && k % (d1 * d2) == i1 * d2 + i2
  {
    var plane := d1 * d2;
    var p := i1 * d2 + i2;
    assert p < plane by { MulBound(i1, d2, i2, d1); }
    assert i0 * plane + p < d0 * plane by { MulBound(i0, plane, p, d0); }
    DivModUnique(i0 * plane + p, i0, p, plane);
    i0 * plane + p
  }

  /** q * d + r stays below n * d when q < n and r < d. */
  lemma MulBound(q: nat, d: nat, r: nat, n: nat)
    requires q < n && r < d
    ensures q * d + r < n * d
  {
    assert q * d + d == (q + 1) * d;
    assert (q + 1) * d <= n * d;
  }

  /** Euclidean division is determined by its quotient and remainder. */
  lemma DivModUnique(k: nat, q: nat, r: nat, d: nat)
    requires r < d && k == q * d + r
    ensures k / d == q && k % d == r
  {
    var q', r' := k / d, k % d;
    assert q' * d <= k < (q + 1) * d;
    MulStrict(q', q + 1, d);
    assert q * d <= k < (q' + 1) * d;
    MulStrict(q, q' + 1, d);
  }

  /** A product that grows grew through its left factor. */
  lemma MulStrict(a: nat, b: nat, d: nat)
    requires a * d < b * d
    ensures a < b
  {
    if b <= a {
      MulMono(b, a, d);
    }
  }

  /** Multiplication by a natural number is monotonic. */
  lemma MulMono(a: nat, b: nat, d: nat)
    requires a <= b
    ensures a * d <= b * d
  {
    assert b * d == a * d + (b - a) * d;
  }
}
