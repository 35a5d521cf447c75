/**
  Properties of the four periodic derivative operators: the stencil each row
  or column follows (interior, wrapped boundary, and one modular formula for
  all), the axis-swap relation between the dir1 and dir2 operators,
  locality, linearity, and a worked example.
*/
module FdProperties {
  import opened Fields
  import opened FdDerivatives

  // ---------------------------------------------------------------------------
  // Stencils
  // ---------------------------------------------------------------------------

  /** Every row of the first derivative along the first axis: interior rows use
      their plain neighbours, row 0 and row N-1 wrap to the opposite edge, and
      all rows agree with the modular formula. */
  lemma DerivativeDir1Stencil(q: Field, h: real, i: nat, j: nat)
    requires q.Valid() && q.rows >= 2 && h != 0.0 && i < q.rows && j < q.cols
    ensures 1 <= i <= q.rows - 2 ==>
      DerivativeDir1(q, h).At(i, j) == (q.At(i + 1, j) - q.At(i - 1, j)) / (2.0 * h)
    ensures i == 0 ==>
      DerivativeDir1(q, h).At(i, j) == (q.At(1, j) - q.At(q.rows - 1, j)) / (2.0 * h)
    ensures i == q.rows - 1 ==>
      DerivativeDir1(q, h).At(i, j) == (q.At(0, j) - q.At(q.rows - 2, j)) / (2.0 * h)
    ensures DerivativeDir1(q, h).At(i, j)
      == (q.At((i + 1) % q.rows, j) - q.At((i - 1 + q.rows) % q.rows, j)) / (2.0 * h)
  {
    NeighboursModular(i, q.rows);
  }

  /** Every row of the second derivative along the first axis, in the same
      three forms. */
  lemma SecondDerivativeDir1Stencil(q: Field, h: real, i: nat, j: nat)
    requires q.Valid() && q.rows >= 2 && h != 0.0 && i < q.rows && j < q.cols
    ensures 1 <= i <= q.rows - 2 ==>
      SecondDerivativeDir1(q, h).At(i, j) == (q.At(i + 1, j) - 2.0 * q.At(i, j) + q.At(i - 1, j)) / (h * h)
    ensures i == 0 ==>
      SecondDerivativeDir1(q, h).At(i, j) == (q.At(1, j) - 2.0 * q.At(0, j) + q.At(q.rows - 1, j)) / (h * h)
    ensures i == q.rows - 1 ==>
      SecondDerivativeDir1(q, h).At(i, j)
        == (q.At(0, j) - 2.0 * q.At(q.rows - 1, j) + q.At(q.rows - 2, j)) / (h * h)
    ensures SecondDerivativeDir1(q, h).At(i, j)
      == (q.At((i + 1) % q.rows, j) - 2.0 * q.At(i, j) + q.At((i - 1 + q.rows) % q.rows, j)) / (h * h)
  {
    NeighboursModular(i, q.rows);
  }

  /** Every column of the first derivative along the second axis follows the
      modular formula along the row. */
  lemma DerivativeDir2Stencil(q: Field, h: real, i: nat, j: nat)
    requires q.Valid() && q.cols >= 2 && h != 0.0 && i < q.rows && j < q.cols
    ensures DerivativeDir2(q, h).At(i, j)
      == (q.At(i, (j + 1) % q.cols) - q.At(i, (j - 1 + q.cols) % q.cols)) / (2.0 * h)
  {
    NeighboursModular(j, q.cols);
  }

  /** Every column of the second derivative along the second axis follows the
      modular three-point formula along the row. */
  lemma SecondDerivativeDir2Stencil(q: Field, h: real, i: nat, j: nat)
    requires q.Valid() && q.cols >= 2 && h != 0.0 && i < q.rows && j < q.cols
    ensures SecondDerivativeDir2(q, h).At(i, j)
      == (q.At(i, (j + 1) % q.cols) - 2.0 * q.At(i, j) + q.At(i, (j - 1 + q.cols) % q.cols)) / (h * h)
  {
    NeighboursModular(j, q.cols);
  }

  // ---------------------------------------------------------------------------
  // Axis swap
  // ---------------------------------------------------------------------------

  /** The first-axis operator is the second-axis one conjugated by the
      transpose, so the two axis variants are one stencil. */
  lemma DerivativeDir1AxisSwap(q: Field, h: real)
    requires q.Valid() && q.rows >= 2 && h != 0.0
    ensures DerivativeDir1(q, h) == Transpose(DerivativeDir2(Transpose(q), h))
  {
    TransposeInvolutive(q);
    TransposeInvolutive(DerivativeDir1(q, h));
  }

  lemma SecondDerivativeDir1AxisSwap(q: Field, h: real)
    requires q.Valid() && q.rows >= 2 && h != 0.0
    ensures SecondDerivativeDir1(q, h) == Transpose(SecondDerivativeDir2(Transpose(q), h))
  {
    TransposeInvolutive(q);
    TransposeInvolutive(SecondDerivativeDir1(q, h));
  }

  // ---------------------------------------------------------------------------
  // Locality: the slices ":" never mix the undifferentiated axis
  // ---------------------------------------------------------------------------

  /** Column j of the first-axis derivatives depends only on column j. */
  lemma Dir1ColumnLocal(x: Field, y: Field, h: real, j: nat)
    requires x.Valid() && y.Valid() && SameShape(x, y) && x.rows >= 2 && h != 0.0 && j < x.cols
    requires forall i :: 0 <= i < x.rows ==> x.At(i, j) == y.At(i, j)
    ensures forall i :: 0 <= i < x.rows ==> DerivativeDir1(x, h).At(i, j) == DerivativeDir1(y, h).At(i, j)
    ensures forall i :: 0 <= i < x.rows ==>
      SecondDerivativeDir1(x, h).At(i, j) == SecondDerivativeDir1(y, h).At(i, j)
  {
    // the periodic neighbours of each entry lie in the shared column (row)
    forall i | 0 <= i < x.rows
      ensures DerivativeDir1(x, h).At(i, j) == DerivativeDir1(y, h).At(i, j)
      ensures SecondDerivativeDir1(x, h).At(i, j) == SecondDerivativeDir1(y, h).At(i, j)
    {
      assert x.At(Next(i, x.rows), j) == y.At(Next(i, x.rows), j);
      assert x.At(Prev(i, x.rows), j) == y.At(Prev(i, x.rows), j);
    }
  }

  /** Row i of the second-axis derivatives depends only on row i. */
  lemma Dir2RowLocal(x: Field, y: Field, h: real, i: nat)
    requires x.Valid() && y.Valid() && SameShape(x, y) && x.cols >= 2 && h != 0.0 && i < x.rows
    requires forall j :: 0 <= j < x.cols ==> x.At(i, j) == y.At(i, j)
    ensures forall j :: 0 <= j < x.cols ==> DerivativeDir2(x, h).At(i, j) == DerivativeDir2(y, h).At(i, j)
    ensures forall j :: 0 <= j < x.cols ==>
      SecondDerivativeDir2(x, h).At(i, j) == SecondDerivativeDir2(y, h).At(i, j)
  {
    // the periodic neighbours of each entry lie in the shared column (row)
    forall j | 0 <= j < x.cols
      ensures DerivativeDir2(x, h).At(i, j) == DerivativeDir2(y, h).At(i, j)
      ensures SecondDerivativeDir2(x, h).At(i, j) == SecondDerivativeDir2(y, h).At(i, j)
    {
      assert x.At(i, Next(j, x.cols)) == y.At(i, Next(j, x.cols));
      assert x.At(i, Prev(j, x.cols)) == y.At(i, Prev(j, x.cols));
    }
  }

  // ---------------------------------------------------------------------------
  // Linearity
  // ---------------------------------------------------------------------------

  lemma CenteredDifferenceLinear(a: real, b: real, x1: real, x2: real, y1: real, y2: real, k: real)
    requires k != 0.0
    ensures ((a * x1 + b * y1) - (a * x2 + b * y2)) / k == a * ((x1 - x2) / k) + b * ((y1 - y2) / k)
  {
  }

  lemma DivideBySquare(x: real, h: real)
    requires h != 0.0
    ensures x / (h * h) == x * (1.0 / (h * h))
  {
  }

  lemma SecondDifferenceLinear(a: real, b: real, x1: real, x0: real, x2: real, y1: real, y0: real, y2: real, h: real)
    requires h != 0.0
    ensures ((a * x1 + b * y1) - 2.0 * (a * x0 + b * y0) + (a * x2 + b * y2)) / (h * h)
         == a * ((x1 - 2.0 * x0 + x2) / (h * h)) + b * ((y1 - 2.0 * y0 + y2) / (h * h))
  {
    var u, v := x1 - 2.0 * x0 + x2, y1 - 2.0 * y0 + y2;
    assert (a * x1 + b * y1) - 2.0 * (a * x0 + b * y0) + (a * x2 + b * y2) == a * u + b * v;
    DivideBySquare(a * u + b * v, h);
    DivideBySquare(u, h);
    DivideBySquare(v, h);
    assert (a * u + b * v) * (1.0 / (h * h)) == a * (u * (1.0 / (h * h))) + b * (v * (1.0 / (h * h)));
  }

  /** One entry of the first-axis first derivative of a·x + b·y. */
  lemma DerivativeDir1LinearAt(a: real, x: Field, b: real, y: Field, h: real, i: nat, j: nat)
    requires x.Valid() && y.Valid() && SameShape(x, y) && x.rows >= 2 && h != 0.0
    requires i < x.rows && j < x.cols
    ensures DerivativeDir1(Combine(a, x, b, y), h).At(i, j)
      == a * DerivativeDir1(x, h).At(i, j) + b * DerivativeDir1(y, h).At(i, j)
  {
    var z := Combine(a, x, b, y);
    var up, down := Next(i, x.rows), Prev(i, x.rows);
    var x1, x2, y1, y2 := x.At(up, j), x.At(down, j), y.At(up, j), y.At(down, j);
    var unscaled := (a * x1 + b * y1) - (a * x2 + b * y2);
    DerivativeDir1Entry(z, h, i, j, unscaled, unscaled / (2.0 * h));
    DerivativeDir1Entry(x, h, i, j, x1 - x2, (x1 - x2) / (2.0 * h));
    DerivativeDir1Entry(y, h, i, j, y1 - y2, (y1 - y2) / (2.0 * h));
    CenteredDifferenceLinear(a, b, x1, x2, y1, y2, 2.0 * h);
  }

  /** D1(a·x + b·y) == a·D1(x) + b·D1(y) for the first derivative along the first axis. */
  lemma DerivativeDir1Linear(a: real, x: Field, b: real, y: Field, h: real)
    requires x.Valid() && y.Valid() && SameShape(x, y) && x.rows >= 2 && h != 0.0
    ensures DerivativeDir1(Combine(a, x, b, y), h) == Combine(a, DerivativeDir1(x, h), b, DerivativeDir1(y, h))
  {
    var lhs, rhs := DerivativeDir1(Combine(a, x, b, y), h), Combine(a, DerivativeDir1(x, h), b, DerivativeDir1(y, h));
    forall i, j | 0 <= i < x.rows && 0 <= j < x.cols
      ensures lhs.At(i, j) == rhs.At(i, j)
    {
      DerivativeDir1LinearAt(a, x, b, y, h, i, j);
    }
    Extensionality(lhs, rhs);
  }

  /** One entry of the first-axis second derivative of a·x + b·y. */
  lemma SecondDerivativeDir1LinearAt(a: real, x: Field, b: real, y: Field, h: real, i: nat, j: nat)
    requires x.Valid() && y.Valid() && SameShape(x, y) && x.rows >= 2 && h != 0.0
    requires i < x.rows && j < x.cols
    ensures SecondDerivativeDir1(Combine(a, x, b, y), h).At(i, j)
      == a * SecondDerivativeDir1(x, h).At(i, j) + b * SecondDerivativeDir1(y, h).At(i, j)
  {
    var z := Combine(a, x, b, y);
    var up, down := Next(i, x.rows), Prev(i, x.rows);
    var x1, x0, x2 := x.At(up, j), x.At(i, j), x.At(down, j);
    var y1, y0, y2 := y.At(up, j), y.At(i, j), y.At(down, j);
    var unscaled := (a * x1 + b * y1) - 2.0 * (a * x0 + b * y0) + (a * x2 + b * y2);
    SecondDerivativeDir1Entry(z, h, i, j, unscaled, unscaled / (h * h));
    SecondDerivativeDir1Entry(x, h, i, j, x1 - 2.0 * x0 + x2, (x1 - 2.0 * x0 + x2) / (h * h));
    SecondDerivativeDir1Entry(y, h, i, j, y1 - 2.0 * y0 + y2, (y1 - 2.0 * y0 + y2) / (h * h));
    SecondDifferenceLinear(a, b, x1, x0, x2, y1, y0, y2, h);
  }

  /** Linearity of the second derivative along the first axis. */
  lemma SecondDerivativeDir1Linear(a: real, x: Field, b: real, y: Field, h: real)
    requires x.Valid() && y.Valid() && SameShape(x, y) && x.rows >= 2 && h != 0.0
    ensures SecondDerivativeDir1(Combine(a, x, b, y), h)
      == Combine(a, SecondDerivativeDir1(x, h), b, SecondDerivativeDir1(y, h))
  {
    var lhs, rhs := SecondDerivativeDir1(Combine(a, x, b, y), h),
      Combine(a, SecondDerivativeDir1(x, h), b, SecondDerivativeDir1(y, h));
    forall i, j | 0 <= i < x.rows && 0 <= j < x.cols
      ensures lhs.At(i, j) == rhs.At(i, j)
    {
      SecondDerivativeDir1LinearAt(a, x, b, y, h, i, j);
    }
    Extensionality(lhs, rhs);
  }

  /** Linearity of the first derivative along the second axis, carried over
      from the first axis through the transpose. */
  lemma DerivativeDir2Linear(a: real, x: Field, b: real, y: Field, h: real)
    requires x.Valid() && y.Valid() && SameShape(x, y) && x.cols >= 2 && h != 0.0
    ensures DerivativeDir2(Combine(a, x, b, y), h) == Combine(a, DerivativeDir2(x, h), b, DerivativeDir2(y, h))
  {
    var tx, ty := Transpose(x), Transpose(y);
    TransposeCombine(a, x, b, y);
    DerivativeDir1Linear(a, tx, b, ty, h);
    TransposeCombine(a, DerivativeDir1(tx, h), b, DerivativeDir1(ty, h));
  }

  /** Linearity of the second derivative along the second axis. */
  lemma SecondDerivativeDir2Linear(a: real, x: Field, b: real, y: Field, h: real)
    requires x.Valid() && y.Valid() && SameShape(x, y) && x.cols >= 2 && h != 0.0
    ensures SecondDerivativeDir2(Combine(a, x, b, y), h)
      == Combine(a, SecondDerivativeDir2(x, h), b, SecondDerivativeDir2(y, h))
  {
    var tx, ty := Transpose(x), Transpose(y);
    TransposeCombine(a, x, b, y);
    SecondDerivativeDir1Linear(a, tx, b, ty, h);
    TransposeCombine(a, SecondDerivativeDir1(tx, h), b, SecondDerivativeDir1(ty, h));
  }

  // ---------------------------------------------------------------------------
  // A worked example: a 4 × 1 field along the first axis, h = 1
  // ---------------------------------------------------------------------------

  lemma WraparoundExample()
    ensures DerivativeDir1(Field(4, 1, [[1.0], [2.0], [4.0], [7.0]]), 1.0)
      == Field(4, 1, [[-2.5], [1.5], [2.5], [-1.5]])
  {
    var q := Field(4, 1, [[1.0], [2.0], [4.0], [7.0]]);
    var d, expected := DerivativeDir1(q, 1.0), Field(4, 1, [[-2.5], [1.5], [2.5], [-1.5]]);
    DerivativeDir1Entry(q, 1.0, 0, 0, 2.0 - 7.0, -2.5);
    DerivativeDir1Entry(q, 1.0, 1, 0, 4.0 - 1.0, 1.5);
    DerivativeDir1Entry(q, 1.0, 2, 0, 7.0 - 2.0, 2.5);
    DerivativeDir1Entry(q, 1.0, 3, 0, 1.0 - 4.0, -1.5);
    Extensionality(d, expected);
  }

  /** The same column under the second derivative: [7, 1, 1, -9]. */
  lemma WraparoundSecondExample()
    ensures SecondDerivativeDir1(Field(4, 1, [[1.0], [2.0], [4.0], [7.0]]), 1.0)
      == Field(4, 1, [[7.0], [1.0], [1.0], [-9.0]])
  {
    var q := Field(4, 1, [[1.0], [2.0], [4.0], [7.0]]);
    var e, expected := SecondDerivativeDir1(q, 1.0), Field(4, 1, [[7.0], [1.0], [1.0], [-9.0]]);
    SecondDerivativeDir1Entry(q, 1.0, 0, 0, 2.0 - 2.0 * 1.0 + 7.0, 7.0);
    SecondDerivativeDir1Entry(q, 1.0, 1, 0, 4.0 - 2.0 * 2.0 + 1.0, 1.0);
    SecondDerivativeDir1Entry(q, 1.0, 2, 0, 7.0 - 2.0 * 4.0 + 2.0, 1.0);
    SecondDerivativeDir1Entry(q, 1.0, 3, 0, 1.0 - 2.0 * 7.0 + 4.0, -9.0);
    Extensionality(e, expected);
  }
}
