/**
  Centered finite-difference derivatives of a 2-D field on a uniform periodic
  grid. The first-axis operators (dir1) fill a freshly allocated array row by
  row; the second-axis operators (dir2) are the first-axis ones applied to the
  transposed field, with the result transposed back.
*/
module FdDerivatives {
  import opened Fields

  // ---------------------------------------------------------------------------
  // Periodic neighbours along an axis of length n
  // ---------------------------------------------------------------------------

  /** The index after i, wrapping from n - 1 to 0. */
  function Next(i: nat, n: nat): (k: nat)
    requires i < n
    ensures k < n
  {
    if i + 1 == n then 0 else i + 1
  }

  /** The index before i, wrapping from 0 to n - 1. */
  function Prev(i: nat, n: nat): (k: nat)
    requires i < n
    ensures k < n
  {
    if i == 0 then n - 1 else i - 1
  }

  /** The wrapped neighbours are the modular ones, (i + 1) mod n and
      (i - 1 + n) mod n. */
  lemma NeighboursModular(i: nat, n: nat)
    requires i < n
    ensures Next(i, n) == (i + 1) % n
    ensures Prev(i, n) == (i - 1 + n) % n
  {
  }

  // ---------------------------------------------------------------------------
  // The operators as functions on fields
  // ---------------------------------------------------------------------------

  /** First derivative along the first axis: every row i, including the two
      boundary rows, is (q[i+1] - q[i-1]) / (2h) with periodic neighbours. */
  function DerivativeDir1(q: Field, h: real): (d: Field)
    requires q.Valid() && q.rows >= 2 && h != 0.0
    ensures d.Valid() && SameShape(d, q)
  {
    Field(q.rows, q.cols,
      seq(q.rows, i requires 0 <= i < q.rows =>
        seq(q.cols, j requires 0 <= j < q.cols =>
          (q.At(Next(i, q.rows), j) - q.At(Prev(i, q.rows), j)) / (2.0 * h))))
  }

  /** The entry of DerivativeDir1 at (i, j) is the unscaled centered
      difference divided by 2h. A proof aid for the division, not a property. */
  lemma DerivativeDir1Entry(q: Field, h: real, i: nat, j: nat, unscaled: real, scaled: real)
    requires q.Valid() && q.rows >= 2 && h != 0.0 && i < q.rows && j < q.cols
    requires unscaled == q.At(Next(i, q.rows), j) - q.At(Prev(i, q.rows), j)
    requires scaled == unscaled / (2.0 * h)
    ensures DerivativeDir1(q, h).At(i, j) == scaled
  {
  }

  /** Second derivative along the first axis: every row i is
      (q[i+1] - 2 q[i] + q[i-1]) / h² with periodic neighbours. */
  function SecondDerivativeDir1(q: Field, h: real): (d: Field)
    requires q.Valid() && q.rows >= 2 && h != 0.0
    ensures d.Valid() && SameShape(d, q)
  {
    Field(q.rows, q.cols,
      seq(q.rows, i requires 0 <= i < q.rows =>
        seq(q.cols, j requires 0 <= j < q.cols =>
          (q.At(Next(i, q.rows), j) - 2.0 * q.At(i, j) + q.At(Prev(i, q.rows), j)) / (h * h))))
  }

  /** The entry of SecondDerivativeDir1 at (i, j) is the unscaled second
      difference divided by h². A proof aid for the division, not a property. */
  lemma SecondDerivativeDir1Entry(q: Field, h: real, i: nat, j: nat, unscaled: real, scaled: real)
    requires q.Valid() && q.rows >= 2 && h != 0.0 && i < q.rows && j < q.cols
    requires unscaled == q.At(Next(i, q.rows), j) - 2.0 * q.At(i, j) + q.At(Prev(i, q.rows), j)
    requires scaled == unscaled / (h * h)
    ensures SecondDerivativeDir1(q, h).At(i, j) == scaled
  {
  }

  /** First derivative along the second axis, by way of the first-axis
      operator on the transposed field; entry (i, j) is the centered
      difference of row i around column j. */
  function DerivativeDir2(q: Field, h: real): (d: Field)
    requires q.Valid() && q.cols >= 2 && h != 0.0
    ensures d.Valid() && SameShape(d, q)
    ensures forall i, j :: 0 <= i < q.rows && 0 <= j < q.cols ==>
      d.At(i, j) == (q.At(i, Next(j, q.cols)) - q.At(i, Prev(j, q.cols))) / (2.0 * h)
  {
    Transpose(DerivativeDir1(Transpose(q), h))
  }

  /** Second derivative along the second axis, by way of the first-axis
      operator on the transposed field; entry (i, j) is the three-point
      second difference of row i around column j. */
  function SecondDerivativeDir2(q: Field, h: real): (d: Field)
    requires q.Valid() && q.cols >= 2 && h != 0.0
    ensures d.Valid() && SameShape(d, q)
    ensures forall i, j :: 0 <= i < q.rows && 0 <= j < q.cols ==>
      d.At(i, j) == (q.At(i, Next(j, q.cols)) - 2.0 * q.At(i, j) + q.At(i, Prev(j, q.cols))) / (h * h)
  {
    Transpose(SecondDerivativeDir1(Transpose(q), h))
  }

  // ---------------------------------------------------------------------------
  // The operators as the source computes them, on arrays
  // ---------------------------------------------------------------------------

  /** Writes into every interior row r of the buffer the field's row r + 1
      minus row r - 1. Rows 0 and N - 1 keep their values. */
  method InteriorFirstDifferences(quantity: array2<real>, buffer: array2<real>)
    requires buffer != quantity
    requires buffer.Length0 == quantity.Length0 >= 2 && buffer.Length1 == quantity.Length1
    modifies buffer
    ensures forall r, c :: 1 <= r < buffer.Length0 - 1 && 0 <= c < buffer.Length1 ==>
      buffer[r, c] == quantity[r + 1, c] - quantity[r - 1, c]
    ensures forall r, c :: (r == 0 || r == buffer.Length0 - 1) && 0 <= c < buffer.Length1 ==>
      buffer[r, c] == old(buffer[r, c])
  {
    var n1, n2 := quantity.Length0, quantity.Length1;
    for i := 1 to n1 - 1
      invariant forall r, c :: 1 <= r < i && 0 <= c < n2 ==>
        buffer[r, c] == quantity[r + 1, c] - quantity[r - 1, c]
      invariant forall r, c :: (r == 0 || r == n1 - 1) && 0 <= c < n2 ==> buffer[r, c] == old(buffer[r, c])
    {
      for j := 0 to n2
        invariant forall r, c :: 1 <= r < i && 0 <= c < n2 ==>
          buffer[r, c] == quantity[r + 1, c] - quantity[r - 1, c]
        invariant forall c :: 0 <= c < j ==> buffer[i, c] == quantity[i + 1, c] - quantity[i - 1, c]
        invariant forall r, c :: (r == 0 || r == n1 - 1) && 0 <= c < n2 ==> buffer[r, c] == old(buffer[r, c])
      {
        buffer[i, j] := quantity[i + 1, j] - quantity[i - 1, j];
      }
    }
  }

  /** Writes the two wrapped boundary rows: row 0 becomes the field's row 1
      minus its last row, and the last row becomes row 0 minus row N - 2.
      The interior rows keep their values. */
  method BoundaryFirstDifferences(quantity: array2<real>, buffer: array2<real>)
    requires buffer != quantity
    requires buffer.Length0 == quantity.Length0 >= 2 && buffer.Length1 == quantity.Length1
    modifies buffer
    ensures forall c :: 0 <= c < buffer.Length1 ==>
      buffer[0, c] == quantity[1, c] - quantity[quantity.Length0 - 1, c]
    ensures forall c :: 0 <= c < buffer.Length1 ==>
      buffer[buffer.Length0 - 1, c] == quantity[0, c] - quantity[quantity.Length0 - 2, c]
    ensures forall r, c :: 1 <= r < buffer.Length0 - 1 && 0 <= c < buffer.Length1 ==>
      buffer[r, c] == old(buffer[r, c])
  {
    var n1, n2 := quantity.Length0, quantity.Length1;
    for j := 0 to n2
      invariant forall c :: 0 <= c < j ==> buffer[0, c] == quantity[1, c] - quantity[n1 - 1, c]
      invariant forall r, c :: 1 <= r < n1 && 0 <= c < n2 ==> buffer[r, c] == old(buffer[r, c])
    {
      buffer[0, j] := quantity[1, j] - quantity[n1 - 1, j];
    }
    for j := 0 to n2
      invariant forall c :: 0 <= c < n2 ==> buffer[0, c] == quantity[1, c] - quantity[n1 - 1, c]
      invariant forall c :: 0 <= c < j ==> buffer[n1 - 1, c] == quantity[0, c] - quantity[n1 - 2, c]
      invariant forall r, c :: 1 <= r < n1 - 1 && 0 <= c < n2 ==> buffer[r, c] == old(buffer[r, c])
    {
      buffer[n1 - 1, j] := quantity[0, j] - quantity[n1 - 2, j];
    }
  }

  /** Writes into every interior row r of the buffer the second difference
      of the field around row r. Rows 0 and N - 1 keep their values. */
  method InteriorSecondDifferences(quantity: array2<real>, buffer: array2<real>)
    requires buffer != quantity
    requires buffer.Length0 == quantity.Length0 >= 2 && buffer.Length1 == quantity.Length1
    modifies buffer
    ensures forall r, c :: 1 <= r < buffer.Length0 - 1 && 0 <= c < buffer.Length1 ==>
      buffer[r, c] == quantity[r + 1, c] - 2.0 * quantity[r, c] + quantity[r - 1, c]
    ensures forall r, c :: (r == 0 || r == buffer.Length0 - 1) && 0 <= c < buffer.Length1 ==>
      buffer[r, c] == old(buffer[r, c])
  {
    var n1, n2 := quantity.Length0, quantity.Length1;
    for i := 1 to n1 - 1
      invariant forall r, c :: 1 <= r < i && 0 <= c < n2 ==>
        buffer[r, c] == quantity[r + 1, c] - 2.0 * quantity[r, c] + quantity[r - 1, c]
      invariant forall r, c :: (r == 0 || r == n1 - 1) && 0 <= c < n2 ==> buffer[r, c] == old(buffer[r, c])
    {
      for j := 0 to n2
        invariant forall r, c :: 1 <= r < i && 0 <= c < n2 ==>
          buffer[r, c] == quantity[r + 1, c] - 2.0 * quantity[r, c] + quantity[r - 1, c]
        invariant forall c :: 0 <= c < j ==>
          buffer[i, c] == quantity[i + 1, c] - 2.0 * quantity[i, c] + quantity[i - 1, c]
        invariant forall r, c :: (r == 0 || r == n1 - 1) && 0 <= c < n2 ==> buffer[r, c] == old(buffer[r, c])
      {
        buffer[i, j] := quantity[i + 1, j] - 2.0 * quantity[i, j] + quantity[i - 1, j];
      }
    }
  }

  /** Writes the two wrapped boundary rows of the second difference: row 0
      takes rows 1 and N - 1 as neighbours, the last row takes rows 0 and
      N - 2. The interior rows keep their values. */
  method BoundarySecondDifferences(quantity: array2<real>, buffer: array2<real>)
    requires buffer != quantity
    requires buffer.Length0 == quantity.Length0 >= 2 && buffer.Length1 == quantity.Length1
    modifies buffer
    ensures forall c :: 0 <= c < buffer.Length1 ==>
      buffer[0, c] == quantity[1, c] - 2.0 * quantity[0, c] + quantity[quantity.Length0 - 1, c]
    ensures forall c :: 0 <= c < buffer.Length1 ==>
      buffer[buffer.Length0 - 1, c]
        == quantity[0, c] - 2.0 * quantity[quantity.Length0 - 1, c] + quantity[quantity.Length0 - 2, c]
    ensures forall r, c :: 1 <= r < buffer.Length0 - 1 && 0 <= c < buffer.Length1 ==>
      buffer[r, c] == old(buffer[r, c])
  {
    var n1, n2 := quantity.Length0, quantity.Length1;
    for j := 0 to n2
      invariant forall c :: 0 <= c < j ==>
        buffer[0, c] == quantity[1, c] - 2.0 * quantity[0, c] + quantity[n1 - 1, c]
      invariant forall r, c :: 1 <= r < n1 && 0 <= c < n2 ==> buffer[r, c] == old(buffer[r, c])
    {
      buffer[0, j] := quantity[1, j] - 2.0 * quantity[0, j] + quantity[n1 - 1, j];
    }
    for j := 0 to n2
      invariant forall c :: 0 <= c < n2 ==>
        buffer[0, c] == quantity[1, c] - 2.0 * quantity[0, c] + quantity[n1 - 1, c]
      invariant forall c :: 0 <= c < j ==>
        buffer[n1 - 1, c] == quantity[0, c] - 2.0 * quantity[n1 - 1, c] + quantity[n1 - 2, c]
      invariant forall r, c :: 1 <= r < n1 - 1 && 0 <= c < n2 ==> buffer[r, c] == old(buffer[r, c])
    {
      buffer[n1 - 1, j] := quantity[0, j] - 2.0 * quantity[n1 - 1, j] + quantity[n1 - 2, j];
    }
  }

  /** periodic_centered_derivative_dir1: a zero buffer receives the interior
      differences, then the two wrapped boundary rows; dividing by 2h gives a
      new array. The input array is only read. */
  method PeriodicCenteredDerivativeDir1(quantity: array2<real>, gridStep: real)
    returns (derivative: array2<real>)
    requires quantity.Length0 >= 2 && gridStep != 0.0
    ensures fresh(derivative)
    ensures FieldOf(derivative) == DerivativeDir1(FieldOf(quantity), gridStep)
    ensures FieldOf(quantity) == old(FieldOf(quantity))
  {
    var n1, n2 := quantity.Length0, quantity.Length1;
    var buffer := new real[n1, n2]((i, j) => 0.0);
    InteriorFirstDifferences(quantity, buffer);
    BoundaryFirstDifferences(quantity, buffer);
    // the division allocates the result, as NumPy's array / scalar does
    derivative := new real[n1, n2]((i, j) reads buffer requires 0 <= i < n1 && 0 <= j < n2 =>
      buffer[i, j] / (2.0 * gridStep));
    ghost var q := FieldOf(quantity);
    forall i, j | 0 <= i < n1 && 0 <= j < n2
      ensures derivative[i, j] == DerivativeDir1(q, gridStep).At(i, j)
    {
      DerivativeDir1Entry(q, gridStep, i, j, buffer[i, j], derivative[i, j]);
    }
    Extensionality(FieldOf(derivative), DerivativeDir1(q, gridStep));
  }

  /** periodic_centered_second_derivative_dir1: a zero buffer receives the
      interior second differences, then the two wrapped boundary rows;
      dividing by h² gives a new array. The input array is only read. */
  method PeriodicCenteredSecondDerivativeDir1(quantity: array2<real>, gridStep: real)
    returns (derivative: array2<real>)
    requires quantity.Length0 >= 2 && gridStep != 0.0
    ensures fresh(derivative)
    ensures FieldOf(derivative) == SecondDerivativeDir1(FieldOf(quantity), gridStep)
    ensures FieldOf(quantity) == old(FieldOf(quantity))
  {
    var n1, n2 := quantity.Length0, quantity.Length1;
    var buffer := new real[n1, n2]((i, j) => 0.0);
    InteriorSecondDifferences(quantity, buffer);
    BoundarySecondDifferences(quantity, buffer);
    // the division allocates the result, as NumPy's array / scalar does
    derivative := new real[n1, n2]((i, j) reads buffer requires 0 <= i < n1 && 0 <= j < n2 =>
      buffer[i, j] / (gridStep * gridStep));
    ghost var q := FieldOf(quantity);
    forall i, j | 0 <= i < n1 && 0 <= j < n2
      ensures derivative[i, j] == SecondDerivativeDir1(q, gridStep).At(i, j)
    {
      SecondDerivativeDir1Entry(q, gridStep, i, j, buffer[i, j], derivative[i, j]);
    }
    Extensionality(FieldOf(derivative), SecondDerivativeDir1(q, gridStep));
  }

  /** periodic_centered_derivative_dir2: transpose, differentiate along the
      first axis, transpose back. */
  method PeriodicCenteredDerivativeDir2(quantity: array2<real>, gridStep: real)
    returns (derivative: array2<real>)
    requires quantity.Length1 >= 2 && gridStep != 0.0
    ensures fresh(derivative)
    ensures FieldOf(derivative) == DerivativeDir2(FieldOf(quantity), gridStep)
    ensures FieldOf(quantity) == old(FieldOf(quantity))
  {
    var swapped := TransposeArray(quantity);
    var d := PeriodicCenteredDerivativeDir1(swapped, gridStep);
    derivative := TransposeArray(d);
  }

  /** periodic_centered_second_derivative_dir2: transpose, take the second
      derivative along the first axis, transpose back. */
  method PeriodicCenteredSecondDerivativeDir2(quantity: array2<real>, gridStep: real)
    returns (derivative: array2<real>)
    requires quantity.Length1 >= 2 && gridStep != 0.0
    ensures fresh(derivative)
    ensures FieldOf(derivative) == SecondDerivativeDir2(FieldOf(quantity), gridStep)
    ensures FieldOf(quantity) == old(FieldOf(quantity))
  {
    var swapped := TransposeArray(quantity);
    var d := PeriodicCenteredSecondDerivativeDir1(swapped, gridStep);
    derivative := TransposeArray(d);
  }
}
