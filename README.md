# Periodic centered finite-difference derivatives

This project models the four operators of `fd_derivatives.py`: first and
second derivatives of a two-dimensional field on a uniform, periodic grid,
along the first axis (dir1) or the second axis (dir2). The grid step is `h`.

- First derivative: entry `i` is `(q[i+1] - q[i-1]) / (2h)`.
- Second derivative: entry `i` is `(q[i+1] - 2 q[i] + q[i-1]) / h²`.
- At both ends the neighbour index wraps around the axis. The periodic
  endpoint is not stored.

The project has three files:

- `fields.dfy` (module `Fields`): the value a derivative operator takes and
  returns. It holds a `Field` datatype with an explicit shape, the transpose,
  entrywise linear combinations, and `FieldOf`, which reads the field an
  `array2<real>` holds. It also holds `TransposeArray`, a method that copies
  an array with its axes swapped.
- `fd_derivatives.dfy` (module `FdDerivatives`): the operators in two forms.
  - As functions on fields (`DerivativeDir1`, `SecondDerivativeDir1`,
    `DerivativeDir2`, `SecondDerivativeDir2`). These define what the
    operators compute.
  - As methods on arrays that follow the source step by step:
    1. allocate a zero buffer;
    2. write the interior rows;
    3. write row 0 and the last row with wrapped neighbours;
    4. divide into a newly allocated array.

    The dir2 methods transpose the input, apply the dir1 method, and
    transpose back. Each method is proved equal to its function, and proved
    to leave its input unchanged.
- `fd_properties.dfy` (module `FdProperties`): properties of the operators:
  - the stencil every row follows, in each form (interior, wrapped edge,
    and one modular index formula for every row);
  - the axis-swap relation between dir1 and dir2;
  - locality along the undifferentiated axis;
  - linearity;
  - a worked 4 × 1 example that exercises the wrap-around.

Numbers are exact reals, not floats.

## Model

| member | source | states |
|---|---|---|
| FdDerivatives.PeriodicCenteredDerivativeDir1 | fd_derivatives.py:18-25 | The result is a new array. It holds `DerivativeDir1` of the input: the same shape, and every row, wrapped boundary rows included, is the centered difference divided by 2h. The input array still holds the same field. |
| FdDerivatives.InteriorFirstDifferences | fd_derivatives.py:19 | Rows 1..N-2 of the buffer become `quantity[r+1] - quantity[r-1]`, every column. Rows 0 and N-1 are unchanged. |
| FdDerivatives.BoundaryFirstDifferences | fd_derivatives.py:22-23 | Row 0 becomes `quantity[1] - quantity[N-1]` and row N-1 becomes `quantity[0] - quantity[N-2]`. The interior rows are unchanged. |
| FdDerivatives.PeriodicCenteredSecondDerivativeDir1 | fd_derivatives.py:53-72 | The result is a new array. It holds `SecondDerivativeDir1` of the input: every row is the three-point second difference with periodic neighbours, divided by h². The input is unchanged. |
| FdDerivatives.InteriorSecondDifferences | fd_derivatives.py:54-58 | Rows 1..N-2 become `quantity[r+1] - 2 quantity[r] + quantity[r-1]`. The boundary rows are unchanged. |
| FdDerivatives.BoundarySecondDifferences | fd_derivatives.py:61-71 | Row 0 becomes `quantity[1] - 2 quantity[0] + quantity[N-1]` and row N-1 becomes `quantity[0] - 2 quantity[N-1] + quantity[N-2]`. The interior rows are unchanged. |
| FdDerivatives.PeriodicCenteredDerivativeDir2 | fd_derivatives.py:38-40 | Transpose, then the dir1 method, then transpose back. The result is a new array holding `DerivativeDir2` of the input. The input is unchanged. |
| FdDerivatives.PeriodicCenteredSecondDerivativeDir2 | fd_derivatives.py:85-87 | The same composition for the second derivative. The result holds `SecondDerivativeDir2` of the input. |
| FdDerivatives.DerivativeDir1 | fd_derivatives.py:18-25 | The result has the shape of the input. |
| FdDerivatives.SecondDerivativeDir1 | fd_derivatives.py:53-72 | The result has the shape of the input. |
| FdDerivatives.DerivativeDir2 | fd_derivatives.py:38-40 | Defined as transpose∘dir1∘transpose. The result has the input's shape, and entry (i, j) is `(q[i][j+1] - q[i][j-1]) / (2h)` with periodic column neighbours. This is the closed form along the second axis. |
| FdDerivatives.SecondDerivativeDir2 | fd_derivatives.py:85-87 | Defined as transpose∘dir1∘transpose. Entry (i, j) is `(q[i][j+1] - 2 q[i][j] + q[i][j-1]) / h²` with periodic column neighbours. |
| FdDerivatives.Next | fd_derivatives.py:19-23 | The row after i along an axis of length N stays on the axis (`k < N`). `NeighboursModular` proves it is (i + 1) mod N, so the last row's successor is row 0, read as `quantity[0, :]` at line 23. |
| FdDerivatives.Prev | fd_derivatives.py:19-23 | The row before i stays on the axis (`k < N`). `NeighboursModular` proves it is (i - 1 + N) mod N, so row 0's predecessor is row N - 1, which NumPy's `quantity[-1, :]` reads at line 22. |
| FdDerivatives.NeighboursModular | fd_derivatives.py:22-23 | The wrapped neighbours are `(i + 1) mod N` and `(i - 1 + N) mod N`. The latter is the row NumPy's index `-1` denotes when i = 0. |
| FdProperties.DerivativeDir1Stencil | fd_derivatives.py:19-25 | Each entry of the first derivative along the first axis takes a formula by row: interior rows use their plain neighbours; row 0 uses rows 1 and N-1; row N-1 uses rows 0 and N-2. Every row equals the modular formula. |
| FdProperties.SecondDerivativeDir1Stencil | fd_derivatives.py:54-72 | The same three cases and the modular formula for the second derivative, with division by h². |
| FdProperties.DerivativeDir2Stencil | fd_derivatives.py:38-40 | Every entry of the second-axis first derivative is the modular centered difference along its row, divided by 2h. |
| FdProperties.SecondDerivativeDir2Stencil | fd_derivatives.py:85-87 | Every entry of the second-axis second derivative is the modular three-point difference along its row, divided by h². |
| FdProperties.DerivativeDir1AxisSwap | fd_derivatives.py:38-40 | The first-axis first derivative equals transpose∘dir2∘transpose, the inverse of the relation that defines dir2. |
| FdProperties.SecondDerivativeDir1AxisSwap | fd_derivatives.py:85-87 | The first-axis second derivative equals transpose∘dir2∘transpose. |
| FdProperties.Dir1ColumnLocal | fd_derivatives.py:19-23 | Two fields that agree on column j have first-axis derivatives, first and second, that agree on column j. The `:` slices never mix columns. |
| FdProperties.Dir2RowLocal | fd_derivatives.py:38-40 | Two fields that agree on row i have second-axis derivatives, first and second, that agree on row i. |
| FdProperties.DerivativeDir1Linear | fd_derivatives.py:18-25 | The first-axis first derivative of `a·x + b·y` is `a·D(x) + b·D(y)`. |
| FdProperties.DerivativeDir1LinearAt | fd_derivatives.py:19-25 | At each entry (i, j), the first-axis first derivative of `a·x + b·y` is `a` times that entry of D(x) plus `b` times that entry of D(y). Boundary rows are included. |
| FdProperties.SecondDerivativeDir1Linear | fd_derivatives.py:53-72 | The first-axis second derivative is linear in the field. |
| FdProperties.SecondDerivativeDir1LinearAt | fd_derivatives.py:54-72 | The same per-entry linearity for the first-axis second derivative. |
| FdProperties.DerivativeDir2Linear | fd_derivatives.py:38-40 | The second-axis first derivative is linear in the field. |
| FdProperties.SecondDerivativeDir2Linear | fd_derivatives.py:85-87 | The second-axis second derivative is linear in the field. |
| FdProperties.WraparoundExample | fd_derivatives.py:18-25 | The first derivative of the column `[1, 2, 4, 7]` with h = 1 is `[-2.5, 1.5, 2.5, -1.5]`. The first and last entries come from the wrapped neighbours. |
| FdProperties.WraparoundSecondExample | fd_derivatives.py:53-72 | The second derivative of the same column with h = 1 is `[7, 1, 1, -9]`. The first and last entries come from the wrapped neighbours. |
| Fields.Transpose | fd_derivatives.py:38-40 | `np.transpose` of a 2-D field. The result has rows and columns swapped, and entry (i, j) is the input's entry (j, i). Both dir2 operators are built on it, here and at lines 85-87. |
| Fields.TransposeInvolutive | fd_derivatives.py:38-40 | Transposing twice gives the field back, so the two transposes around the dir1 call cancel in shape and contents. |
| Fields.TransposeArray | fd_derivatives.py:39 | A new array holding the transpose of the input. |
| Fields.TransposeCombine | fd_derivatives.py:38-40 | The transpose commutes with linear combinations. This carries linearity from dir1 to dir2. |

## Left out

- Floating-point rounding, and inf/NaN from a zero grid step, are not modelled. Values are exact reals, and `gridStep != 0.0` is required.
- With an axis of length 1, the source's `quantity[1, :]` raises IndexError. An axis of length 0 also fails. The operators therefore require at least two points along the differentiated axis and do not model those errors.
- `np.zeros_like` on an integer array keeps the integer dtype, so the differences are stored as integers before the division. The model has only real fields.
- `np.transpose` returns a view, not a copy. `TransposeArray` copies, so the model does not capture that the returned dir2 array aliases the dir1 result's storage. Nothing writes either array afterwards, so no value is affected.
- The docstrings ask the caller to leave out the periodic endpoint (`quantity[0] != quantity[-1]`). This is a caller duty about sampling, not something the code checks, and it is not modelled.
- The module's claim of second-order accuracy, a statement about convergence, is not modelled.
- The docstring of `periodic_centered_second_derivative_dir2` says "along first dimension". The code differentiates along the second, and the model follows the code (`SecondDerivativeDir2Stencil`).
- The test script that plots convergence is not part of this model.
