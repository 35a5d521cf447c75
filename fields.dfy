/**
  Two-dimensional fields of reals: the values the derivative operators take and
  return, stated independently of the arrays the operators fill.
*/
module Fields {

  /** A field of shape rows × cols; entry (i, j) is values[i][j]. The shape is
      kept explicitly so that a field with no rows still has a column count,
      as a NumPy array of shape (0, cols) does. */
  datatype Field = Field(rows: nat, cols: nat, values: seq<seq<real>>)
  {
    /** The rows really have the stated shape. */
    predicate Valid() {
      |values| == rows && forall i :: 0 <= i < rows ==> |values[i]| == cols
    }

    /** The entry at row i, column j. */
    function At(i: nat, j: nat): real
      requires Valid() && i < rows && j < cols
    {
      values[i][j]
    }
  }

  predicate SameShape(x: Field, y: Field) {
    x.rows == y.rows && x.cols == y.cols
  }

  /** Two fields of the same shape are equal as soon as all their entries are. */
  lemma Extensionality(x: Field, y: Field)
    requires x.Valid() && y.Valid() && SameShape(x, y)
    requires forall i, j :: 0 <= i < x.rows && 0 <= j < x.cols ==> x.At(i, j) == y.At(i, j)
    ensures x == y
  {
    forall i | 0 <= i < x.rows
      ensures x.values[i] == y.values[i]
    {
      forall j | 0 <= j < x.cols
        ensures x.values[i][j] == y.values[i][j]
      {
        assert x.At(i, j) == y.At(i, j);
      }
    }
  }

  /** The field with its two axes swapped (np.transpose of a 2-D array). */
  function Transpose(q: Field): (t: Field)
    requires q.Valid()
    ensures t.Valid() && t.rows == q.cols && t.cols == q.rows
    ensures forall i, j :: 0 <= i < t.rows && 0 <= j < t.cols ==> t.At(i, j) == q.At(j, i)
  {
    Field(q.cols, q.rows,
      seq(q.cols, j requires 0 <= j < q.cols =>
        seq(q.rows, i requires 0 <= i < q.rows => q.values[i][j])))
  }

  /** Swapping the axes twice gives the field back. */
  lemma TransposeInvolutive(q: Field)
    requires q.Valid()
    ensures Transpose(Transpose(q)) == q
  {
    Extensionality(Transpose(Transpose(q)), q);
  }

  /** The entrywise linear combination a·x + b·y of two fields of one shape. */
  function Combine(a: real, x: Field, b: real, y: Field): (z: Field)
    requires x.Valid() && y.Valid() && SameShape(x, y)
    ensures z.Valid() && SameShape(z, x)
    ensures forall i, j :: 0 <= i < z.rows && 0 <= j < z.cols ==>
      z.At(i, j) == a * x.At(i, j) + b * y.At(i, j)
  {
    Field(x.rows, x.cols,
      seq(x.rows, i requires 0 <= i < x.rows =>
        seq(x.cols, j requires 0 <= j < x.cols => a * x.values[i][j] + b * y.values[i][j])))
  }

  /** Swapping axes commutes with taking linear combinations. */
  lemma TransposeCombine(a: real, x: Field, b: real, y: Field)
    requires x.Valid() && y.Valid() && SameShape(x, y)
    ensures Transpose(Combine(a, x, b, y)) == Combine(a, Transpose(x), b, Transpose(y))
  {
    Extensionality(Transpose(Combine(a, x, b, y)), Combine(a, Transpose(x), b, Transpose(y)));
  }

  /** The field an array currently holds. */
  function FieldOf(m: array2<real>): (q: Field)
    reads m
    ensures q.Valid() && q.rows == m.Length0 && q.cols == m.Length1
    ensures forall i, j :: 0 <= i < q.rows && 0 <= j < q.cols ==> q.At(i, j) == m[i, j]
  {
    Field(m.Length0, m.Length1,
      seq(m.Length0, i requires 0 <= i < m.Length0 reads m =>
        seq(m.Length1, j requires 0 <= j < m.Length1 reads m => m[i, j])))
  }

  /** Copies an array into a new one with the two axes swapped. */
  method TransposeArray(m: array2<real>) returns (t: array2<real>)
    ensures fresh(t)
    ensures FieldOf(t) == Transpose(FieldOf(m))
  {
    t := new real[m.Length1, m.Length0]((i, j) => 0.0);
    for i := 0 to m.Length1
      invariant forall r, c :: 0 <= r < i && 0 <= c < m.Length0 ==> t[r, c] == m[c, r]
    {
      for j := 0 to m.Length0
        invariant forall r, c :: 0 <= r < i && 0 <= c < m.Length0 ==> t[r, c] == m[c, r]
        invariant forall c :: 0 <= c < j ==> t[i, c] == m[c, i]
      {
        t[i, j] := m[j, i];
      }
    }
    Extensionality(FieldOf(t), Transpose(FieldOf(m)));
  }
}
