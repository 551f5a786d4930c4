/**
  Dense real matrices, standing in for Eigen::MatrixXd and Eigen::VectorXd.

  Arithmetic is exact (`real`); nothing here says anything about IEEE
  rounding.  A `Matrix` carries its own shape, as an Eigen matrix does, so a
  matrix with zero rows still knows how many columns it has.  Entries are
  read through `At`, which is total, so every operation below is total and
  fixes the shape of its result from the shapes of its arguments; the shape
  agreements that Eigen asserts are stated as preconditions by the callers
  that model FlexNN's code.
*/
module Matrices {

  datatype Matrix = Matrix(rows: nat, cols: nat, e: seq<seq<real>>)

  type Vector = seq<real>

  /** The stored entries really form a `rows` x `cols` grid. */
  predicate WellFormed(m: Matrix) {
    |m.e| == m.rows && forall i :: 0 <= i < |m.e| ==> |m.e[i]| == m.cols
  }

  predicate HasShape(m: Matrix, rows: nat, cols: nat) {
    WellFormed(m) && m.rows == rows && m.cols == cols
  }

  /** Entry (i, j); 0 outside the stored grid. */
  function At(m: Matrix, i: int, j: int): real {
    if 0 <= i < |m.e| && 0 <= j < |m.e[i]| then m.e[i][j] else 0.0
  }

  /** The row (f(i, 0), ..., f(i, cols - 1)). */
  function BuildRow(cols: nat, i: int, f: (int, int) -> real): (row: seq<real>)
    ensures |row| == cols
    ensures forall j :: 0 <= j < cols ==> row[j] == f(i, j)
  {
    seq(cols, j => f(i, j))
  }

  /** The `rows` x `cols` matrix whose entry (i, j) is f(i, j). */
  function Build(rows: nat, cols: nat, f: (int, int) -> real): (r: Matrix)
    ensures HasShape(r, rows, cols)
    ensures forall i, j :: 0 <= i < rows && 0 <= j < cols ==> At(r, i, j) == f(i, j)
  {
    Matrix(rows, cols, seq(rows, i => BuildRow(cols, i, f)))
  }

  /** Two well-formed matrices of one shape that agree on every entry are equal. */
  lemma {:induction false} Extensionality(a: Matrix, b: Matrix)
    requires WellFormed(a) && WellFormed(b) && a.rows == b.rows && a.cols == b.cols
    requires forall i, j :: 0 <= i < a.rows && 0 <= j < a.cols ==> At(a, i, j) == At(b, i, j)
    ensures a == b
  {
    forall i | 0 <= i < a.rows
      ensures a.e[i] == b.e[i]
    {
      forall j | 0 <= j < a.cols
        ensures a.e[i][j] == b.e[i][j]
      {
        assert At(a, i, j) == At(b, i, j);
      }
    }
  }

  function Zero(rows: nat, cols: nat): (r: Matrix)
    ensures HasShape(r, rows, cols)
    ensures forall i, j :: At(r, i, j) == 0.0
  {
    Build(rows, cols, (i, j) => 0.0)
  }

  /** `m(i, j) = v`. */
  function SetEntry(m: Matrix, i: nat, j: nat, v: real): (r: Matrix)
    requires WellFormed(m) && i < m.rows && j < m.cols
    ensures HasShape(r, m.rows, m.cols)
    ensures forall p, q :: 0 <= p < m.rows && 0 <= q < m.cols ==>
              At(r, p, q) == if p == i && q == j then v else At(m, p, q)
  {
    m.(e := m.e[i := m.e[i][j := v]])
  }

  /** `m.row(i) = row` (Eigen demands a row of m's width). */
  function SetRow(m: Matrix, i: nat, row: Vector): (r: Matrix)
    requires WellFormed(m) && i < m.rows && |row| == m.cols
    ensures HasShape(r, m.rows, m.cols)
    ensures r.e[i] == row && forall p :: 0 <= p < m.rows && p != i ==> r.e[p] == m.e[p]
  {
    m.(e := m.e[i := row])
  }

  /** Sum over k < n of a(i, k) * b(k, j). */
  function Dot(a: Matrix, i: int, b: Matrix, j: int, n: nat): real {
    if n == 0 then 0.0 else Dot(a, i, b, j, n - 1) + At(a, i, n - 1) * At(b, n - 1, j)
  }

  /** The product a * b (Eigen demands a.cols == b.rows). */
  function MatMul(a: Matrix, b: Matrix): (r: Matrix)
    ensures HasShape(r, a.rows, b.cols)
    ensures forall i, j :: 0 <= i < a.rows && 0 <= j < b.cols ==> At(r, i, j) == Dot(a, i, b, j, a.cols)
  {
    Build(a.rows, b.cols, (i, j) => Dot(a, i, b, j, a.cols))
  }

  function Transpose(a: Matrix): (r: Matrix)
    ensures HasShape(r, a.cols, a.rows)
    ensures forall i, j :: 0 <= i < a.cols && 0 <= j < a.rows ==> At(r, i, j) == At(a, j, i)
  {
    Build(a.cols, a.rows, (i, j) => At(a, j, i))
  }

  /** Entry i of v, 0 past its end. */
  function Get(v: Vector, i: int): real {
    if 0 <= i < |v| then v[i] else 0.0
  }

  /** `z.colwise() + v`: v added to every column of z. */
  function AddToColumns(z: Matrix, v: Vector): (r: Matrix)
    ensures HasShape(r, z.rows, z.cols)
    ensures forall i, j :: 0 <= i < z.rows && 0 <= j < z.cols ==> At(r, i, j) == At(z, i, j) + Get(v, i)
  {
    Build(z.rows, z.cols, (i, j) => At(z, i, j) + Get(v, i))
  }

  /** a - c entrywise (Eigen demands equal shapes). */
  function Minus(a: Matrix, c: Matrix): (r: Matrix)
    ensures HasShape(r, a.rows, a.cols)
    ensures forall i, j :: 0 <= i < a.rows && 0 <= j < a.cols ==> At(r, i, j) == At(a, i, j) - At(c, i, j)
  {
    Build(a.rows, a.cols, (i, j) => At(a, i, j) - At(c, i, j))
  }

  /** a / d, entry by entry. */
  function DivScalar(a: Matrix, d: real): (r: Matrix)
    requires d != 0.0
    ensures HasShape(r, a.rows, a.cols)
  {
    Build(a.rows, a.cols, (i, j) => At(a, i, j) / d)
  }

  /** Each entry of a / d, multiplied back by d, is the entry of a. */
  lemma DivScalarEntries(a: Matrix, d: real)
    requires d != 0.0
    ensures forall i, j :: 0 <= i < a.rows && 0 <= j < a.cols ==> At(DivScalar(a, d), i, j) * d == At(a, i, j)
  {
  }

  /** Sum of a(i, k) over k < n. */
  function RowSum(a: Matrix, i: int, n: nat): real {
    if n == 0 then 0.0 else RowSum(a, i, n - 1) + At(a, i, n - 1)
  }

  /** The sum of the entries of v. */
  function Sum(v: Vector): real {
    if |v| == 0 then 0.0 else Sum(v[..|v| - 1]) + v[|v| - 1]
  }

  /** Column j of m. */
  function Column(m: Matrix, j: int): (c: Vector)
    ensures |c| == m.rows
    ensures forall i :: 0 <= i < m.rows ==> c[i] == At(m, i, j)
  {
    seq(m.rows, i requires 0 <= i < m.rows => At(m, i, j))
  }

  /** `a.rowwise().mean()`: the column of row means, a.rows x 1. */
  function RowMean(a: Matrix): (r: Matrix)
    requires a.cols > 0
    ensures HasShape(r, a.rows, 1)
    ensures forall i :: 0 <= i < a.rows ==> At(r, i, 0) * (a.cols as real) == RowSum(a, i, a.cols)
  {
    Build(a.rows, 1, (i, j) => RowSum(a, i, a.cols) / (a.cols as real))
  }

  /** `a -= rate * d` on a matrix. */
  function Descend(a: Matrix, d: Matrix, rate: real): (r: Matrix)
    ensures HasShape(r, a.rows, a.cols)
    ensures forall i, j :: 0 <= i < a.rows && 0 <= j < a.cols ==> At(r, i, j) == At(a, i, j) - rate * At(d, i, j)
  {
    Build(a.rows, a.cols, (i, j) => At(a, i, j) - rate * At(d, i, j))
  }

  /** `v -= rate * d` on a vector. */
  function DescendVector(v: Vector, d: Vector, rate: real): (r: Vector)
    ensures |r| == |v|
    ensures forall i :: 0 <= i < |v| ==> r[i] == v[i] - rate * Get(d, i)
  {
    seq(|v|, i requires 0 <= i < |v| => v[i] - rate * Get(d, i))
  }

  /** The conversion of an n x 1 MatrixXd to a VectorXd. */
  function ToVector(m: Matrix): (v: Vector)
    ensures |v| == m.rows
    ensures forall i :: 0 <= i < m.rows ==> v[i] == At(m, i, 0)
  {
    seq(m.rows, i requires 0 <= i < m.rows => At(m, i, 0))
  }

  predicate IsZero(m: Matrix) {
    forall i, j :: 0 <= i < m.rows && 0 <= j < m.cols ==> At(m, i, j) == 0.0
  }

  predicate IsZeroVector(v: Vector) {
    forall i :: 0 <= i < |v| ==> v[i] == 0.0
  }

  /**
    p lists each of 0 .. n-1 exactly once: a reordering of n rows or
    columns, such as the outcome of std::shuffle on 0 .. n-1.
  */
  predicate IsPermutation(p: seq<nat>, n: nat) {
    |p| == n &&
    (forall k :: 0 <= k < n ==> p[k] < n) &&
    (forall a, b :: 0 <= a < b < n ==> p[a] != p[b]) &&
    (forall r :: 0 <= r < n ==> r in p)
  }

  /** A step of rate 0, or along a zero gradient, leaves a matrix as it was. */
  lemma DescendStill(a: Matrix, d: Matrix, rate: real)
    requires WellFormed(a)
    requires rate == 0.0 || (d.rows == a.rows && d.cols == a.cols && IsZero(d))
    ensures Descend(a, d, rate) == a
  {
    Extensionality(Descend(a, d, rate), a);
  }

  /** The same for a vector. */
  lemma DescendVectorStill(v: Vector, d: Vector, rate: real)
    requires rate == 0.0 || (|d| == |v| && IsZeroVector(d))
    ensures DescendVector(v, d, rate) == v
  {
  }
}
