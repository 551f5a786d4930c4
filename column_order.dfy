/**
  The order of the samples does not matter.  Every step of the forward pass
  treats each column of its input on its own (the product W * X, the bias
  added to every column, ReLU entry by entry, softmax column by column), so
  feeding the columns of X in another order gives the prediction's columns
  in that order.  Accuracy counts the columns whose predicted class is their
  label, so reordering X's columns and the labels alike leaves it as it was.
*/
module ColumnOrder {
  import opened Matrices
  import opened Layers
  import opened Propagation

  /** Every index in `perm` picks one of `cols` columns. */
  predicate Selects(perm: seq<nat>, cols: nat) {
    forall k :: 0 <= k < |perm| ==> perm[k] < cols
  }

  /** The matrix whose column j is column perm[j] of m. */
  function PermuteColumns(m: Matrix, perm: seq<nat>): (r: Matrix)
    ensures HasShape(r, m.rows, |perm|)
    ensures forall i, j :: 0 <= i < m.rows && 0 <= j < |perm| ==> At(r, i, j) == At(m, i, perm[j])
  {
    Build(m.rows, |perm|, (i, j) => if 0 <= j < |perm| then At(m, i, perm[j]) else 0.0)
  }

  /** The labels in the same new order: entry k is labels[perm[k]]. */
  function PermuteLabels(labels: seq<int>, perm: seq<nat>): (r: seq<int>)
    requires Selects(perm, |labels|)
    ensures |r| == |perm| && forall k :: 0 <= k < |perm| ==> r[k] == labels[perm[k]]
  {
    seq(|perm|, k requires 0 <= k < |perm| => labels[perm[k]])
  }

  /** Outside the stored grid both sides read 0, so the entries agree on every row index. */
  lemma PermutedEntry(m: Matrix, perm: seq<nat>, k: int, j: nat)
    requires WellFormed(m) && j < |perm| && perm[j] < m.cols
    ensures At(PermuteColumns(m, perm), k, j) == At(m, k, perm[j])
  {
  }

  // ------------------------------------------------------------ the layers

  /** A dot product reads only column j of its right operand. */
  lemma {:induction false} DotOneColumn(a: Matrix, i: int, b1: Matrix, j1: int, b2: Matrix, j2: int, n: nat)
    requires forall k :: 0 <= k < n ==> At(b1, k, j1) == At(b2, k, j2)
    ensures Dot(a, i, b1, j1, n) == Dot(a, i, b2, j2, n)
  {
    if n > 0 {
      DotOneColumn(a, i, b1, j1, b2, j2, n - 1);
    }
  }

  lemma MatMulPermuted(w: Matrix, x: Matrix, perm: seq<nat>)
    requires WellFormed(x) && Selects(perm, x.cols)
    ensures MatMul(w, PermuteColumns(x, perm)) == PermuteColumns(MatMul(w, x), perm)
  {
    var px := PermuteColumns(x, perm);
    forall i, j | 0 <= i < w.rows && 0 <= j < |perm|
      ensures At(MatMul(w, px), i, j) == At(PermuteColumns(MatMul(w, x), perm), i, j)
    {
      forall k | 0 <= k < w.cols
        ensures At(px, k, j) == At(x, k, perm[j])
      {
        PermutedEntry(x, perm, k, j);
      }
      DotOneColumn(w, i, px, j, x, perm[j], w.cols);
    }
    Extensionality(MatMul(w, px), PermuteColumns(MatMul(w, x), perm));
  }

  lemma AddToColumnsPermuted(z: Matrix, b: Vector, perm: seq<nat>)
    requires WellFormed(z) && Selects(perm, z.cols)
    ensures AddToColumns(PermuteColumns(z, perm), b) == PermuteColumns(AddToColumns(z, b), perm)
  {
    Extensionality(AddToColumns(PermuteColumns(z, perm), b), PermuteColumns(AddToColumns(z, b), perm));
  }

  lemma LinearPermuted(w: Matrix, b: Vector, x: Matrix, perm: seq<nat>)
    requires WellFormed(x) && Selects(perm, x.cols)
    ensures Linear(w, b, PermuteColumns(x, perm)) == PermuteColumns(Linear(w, b, x), perm)
  {
    MatMulPermuted(w, x, perm);
    AddToColumnsPermuted(MatMul(w, x), b, perm);
  }

  lemma ReluPermuted(z: Matrix, perm: seq<nat>)
    requires WellFormed(z) && Selects(perm, z.cols)
    ensures Relu(PermuteColumns(z, perm)) == PermuteColumns(Relu(z), perm)
  {
    Extensionality(Relu(PermuteColumns(z, perm)), PermuteColumns(Relu(z), perm));
  }

  /** The column maximum reads only its own column. */
  lemma {:induction false} ColumnMaxOneColumn(a: Matrix, ja: int, b: Matrix, jb: int, n: nat)
    requires n > 0 && forall r :: 0 <= r < n ==> At(a, r, ja) == At(b, r, jb)
    ensures ColumnMax(a, ja, n) == ColumnMax(b, jb, n)
  {
    if n > 1 {
      ColumnMaxOneColumn(a, ja, b, jb, n - 1);
    }
  }

  lemma ShiftedExpsOneColumn(exp: Exp, a: Matrix, ja: int, b: Matrix, jb: int, shift: real)
    requires a.rows == b.rows && forall r :: 0 <= r < a.rows ==> At(a, r, ja) == At(b, r, jb)
    ensures ShiftedExps(exp, a, ja, shift) == ShiftedExps(exp, b, jb, shift)
  {
  }

  /** A softmax column reads only its own column. */
  lemma SoftmaxColumnOneColumn(exp: Exp, a: Matrix, ja: int, b: Matrix, jb: int)
    requires a.rows == b.rows && forall r :: 0 <= r < a.rows ==> At(a, r, ja) == At(b, r, jb)
    ensures SoftmaxColumn(exp, a, ja) == SoftmaxColumn(exp, b, jb)
  {
    if a.rows > 0 {
      ColumnMaxOneColumn(a, ja, b, jb, a.rows);
      ShiftedExpsOneColumn(exp, a, ja, b, jb, ColumnMax(a, ja, a.rows));
    }
  }

  lemma SoftmaxPermuted(exp: Exp, z: Matrix, perm: seq<nat>)
    requires WellFormed(z) && Selects(perm, z.cols)
    ensures Softmax(exp, PermuteColumns(z, perm)) == PermuteColumns(Softmax(exp, z), perm)
  {
    var pz := PermuteColumns(z, perm);
    forall j | 0 <= j < |perm|
      ensures SoftmaxColumn(exp, pz, j) == SoftmaxColumn(exp, z, perm[j])
    {
      SoftmaxColumnOneColumn(exp, pz, j, z, perm[j]);
    }
    Extensionality(Softmax(exp, pz), PermuteColumns(Softmax(exp, z), perm));
  }

  lemma ActivatePermuted(kind: Activation, exp: Exp, z: Matrix, perm: seq<nat>)
    requires WellFormed(z) && Selects(perm, z.cols)
    ensures Activate(kind, exp, PermuteColumns(z, perm)) == PermuteColumns(Activate(kind, exp, z), perm)
  {
    match kind
    case ReluActivation => ReluPermuted(z, perm);
    case SoftmaxActivation => SoftmaxPermuted(exp, z, perm);
    case IdentityActivation =>
  }

  /** Layer::forward on reordered columns gives Z and A with their columns reordered alike. */
  lemma LayerForwardPermuted(l: LayerState, exp: Exp, x: Matrix, perm: seq<nat>)
    requires WellFormed(x) && Selects(perm, x.cols)
    ensures LayerForward(l, exp, PermuteColumns(x, perm)).0 == PermuteColumns(LayerForward(l, exp, x).0, perm)
    ensures LayerForward(l, exp, PermuteColumns(x, perm)).1 == PermuteColumns(LayerForward(l, exp, x).1, perm)
  {
    LinearPermuted(l.W, l.b, x, perm);
    ActivatePermuted(ActivationOf(l.activationFunction), exp, Linear(l.W, l.b, x), perm);
  }

  // ----------------------------------------------------------- the network

  /**
    predict on reordered columns is predict with its columns reordered alike,
    for any layers at all.
  */
  lemma {:induction false} OutputPermuted(model: seq<LayerState>, exp: Exp, x: Matrix, perm: seq<nat>)
    requires WellFormed(x) && Selects(perm, x.cols)
    ensures WellFormed(Output(model, exp, x)) && Output(model, exp, x).cols == x.cols
    ensures Output(model, exp, PermuteColumns(x, perm)) == PermuteColumns(Output(model, exp, x), perm)
    decreases |model|
  {
    if |model| > 0 {
      var init := model[..|model| - 1];
      var l := model[|model| - 1];
      OutputPermuted(init, exp, x, perm);
      var before := Output(init, exp, x);
      assert Output(model, exp, x) == LayerForward(l, exp, before).1;
      assert Output(model, exp, PermuteColumns(x, perm)) == LayerForward(l, exp, Output(init, exp, PermuteColumns(x, perm))).1;
      LayerForwardPermuted(l, exp, before, perm);
    }
  }

  // ------------------------------------------------------------- accuracy

  /** The predicted class of a column depends on that column alone. */
  lemma {:induction false} ArgMaxUpToOneColumn(a: Matrix, ja: int, b: Matrix, jb: int, n: nat)
    requires n > 0 && forall r :: 0 <= r < n ==> At(a, r, ja) == At(b, r, jb)
    ensures ArgMaxUpTo(a, ja, n) == ArgMaxUpTo(b, jb, n)
  {
    if n > 1 {
      ArgMaxUpToOneColumn(a, ja, b, jb, n - 1);
    }
  }

  /** Which of the first n columns are predicted right. */
  function Hits(predictions: Matrix, labels: seq<int>, n: nat): (h: seq<bool>)
    requires n <= |labels| && (n > 0 ==> predictions.rows > 0)
    ensures |h| == n && forall j :: 0 <= j < n ==> (h[j] <==> ArgMax(predictions, j) == labels[j])
  {
    seq(n, j requires 0 <= j < n => ArgMax(predictions, j) == labels[j])
  }

  function CountTrue(s: seq<bool>): nat {
    if |s| == 0 then 0 else CountTrue(s[..|s| - 1]) + if s[|s| - 1] then 1 else 0
  }

  /** s[perm[0]], s[perm[1]], ... */
  function Reindex(s: seq<bool>, perm: seq<nat>): (r: seq<bool>)
    requires Selects(perm, |s|)
    ensures |r| == |perm| && forall k :: 0 <= k < |perm| ==> r[k] == s[perm[k]]
  {
    seq(|perm|, k requires 0 <= k < |perm| => s[perm[k]])
  }

  /** CountCorrect counts the hits. */
  lemma {:induction false} CountCorrectIsHits(predictions: Matrix, labels: seq<int>, n: nat)
    requires n <= |labels| && (n > 0 ==> predictions.rows > 0)
    ensures CountCorrect(predictions, labels, n) == CountTrue(Hits(predictions, labels, n))
  {
    if n > 0 {
      CountCorrectIsHits(predictions, labels, n - 1);
      assert Hits(predictions, labels, n)[..n - 1] == Hits(predictions, labels, n - 1);
    }
  }

  lemma {:induction false} CountTrueAppend(a: seq<bool>, b: seq<bool>)
    ensures CountTrue(a + b) == CountTrue(a) + CountTrue(b)
    decreases |b|
  {
    if |b| > 0 {
      CountTrueAppend(a, b[..|b| - 1]);
      assert (a + b)[..|a + b| - 1] == a + b[..|b| - 1];
    } else {
      assert a + b == a;
    }
  }

  /** perm without position p, which holds n - 1, reorders 0 .. n-2. */
  lemma DropLast(perm: seq<nat>, n: nat, p: nat)
    requires IsPermutation(perm, n) && p < n && perm[p] == n - 1
    ensures IsPermutation(perm[..p] + perm[p + 1..], n - 1)
  {
    var rest := perm[..p] + perm[p + 1..];
    assert forall k :: 0 <= k < n - 1 ==> rest[k] == if k < p then perm[k] else perm[k + 1];
    forall r | 0 <= r < n - 1
      ensures r in rest
    {
      assert r in perm;
      var q :| 0 <= q < n && perm[q] == r;
      assert rest[if q < p then q else q - 1] == r;
    }
  }

  lemma CountTrueSingle(x: bool)
    ensures CountTrue([x]) == if x then 1 else 0
  {
    assert [x][..0] == [];
  }

  /** Taking out the entry between a and b takes out its count. */
  lemma CountTrueWithout(a: seq<bool>, x: bool, b: seq<bool>)
    ensures CountTrue(a + [x] + b) == CountTrue(a + b) + if x then 1 else 0
  {
    CountTrueAppend(a + [x], b);
    CountTrueAppend(a, [x]);
    CountTrueAppend(a, b);
    CountTrueSingle(x);
  }

  /** Reindexing the shorter s by the shorter perm is the reindexed s without position p. */
  lemma ReindexWithout(s: seq<bool>, perm: seq<nat>, p: nat)
    requires |s| > 0 && IsPermutation(perm, |s|) && p < |s| && perm[p] == |s| - 1
    ensures IsPermutation(perm[..p] + perm[p + 1..], |s| - 1)
    ensures Reindex(s[..|s| - 1], perm[..p] + perm[p + 1..]) == Reindex(s, perm)[..p] + Reindex(s, perm)[p + 1..]
  {
    DropLast(perm, |s|, p);
  }

  /** The position that holds the last index. */
  lemma FindLast(perm: seq<nat>, n: nat) returns (p: nat)
    requires IsPermutation(perm, n) && n > 0
    ensures p < n && perm[p] == n - 1
  {
    assert n - 1 in perm;
    p :| 0 <= p < n && perm[p] == n - 1;
  }

  /** Counting the true entries does not depend on their order. */
  lemma {:induction false} CountTruePermuted(s: seq<bool>, perm: seq<nat>)
    requires IsPermutation(perm, |s|)
    ensures CountTrue(Reindex(s, perm)) == CountTrue(s)
    decreases |s|
  {
    var n := |s|;
    if n > 0 {
      var p := FindLast(perm, n);
      var rest := perm[..p] + perm[p + 1..];
      var t := Reindex(s, perm);
      ReindexWithout(s, perm, p);
      CountTruePermuted(s[..n - 1], rest);
      assert t == t[..p] + [t[p]] + t[p + 1..];
      CountTrueWithout(t[..p], t[p], t[p + 1..]);
      assert t[p] == s[n - 1];
    }
  }

  /**
    Accuracy does not depend on the order of the samples: reordering the
    columns of X and the labels by the same permutation gives the same
    accuracy, for every network and every input.
  */
  lemma AccuracyIgnoresSampleOrder(model: seq<LayerState>, exp: Exp, x: Matrix, labels: seq<int>, perm: seq<nat>)
    requires AllWellShaped(model) && WellFormed(x)
    requires x.cols <= |labels| && (x.cols > 0 ==> OutputRows(model, x) > 0)
    requires IsPermutation(perm, x.cols)
    ensures AccuracyOf(Output(model, exp, PermuteColumns(x, perm)), PermuteLabels(labels, perm))
            == AccuracyOf(Output(model, exp, x), labels)
  {
    var n := x.cols;
    var px := PermuteColumns(x, perm);
    var pl := PermuteLabels(labels, perm);
    OutputPermuted(model, exp, x, perm);
    var o := Output(model, exp, x);
    var po := Output(model, exp, px);
    assert po == PermuteColumns(o, perm);
    if n > 0 {
      forall j | 0 <= j < n
        ensures ArgMax(po, j) == ArgMax(o, perm[j])
      {
        ArgMaxUpToOneColumn(po, j, o, perm[j], o.rows);
      }
      assert Hits(po, pl, n) == Reindex(Hits(o, labels, n), perm);
      CountCorrectIsHits(po, pl, n);
      CountCorrectIsHits(o, labels, n);
      CountTruePermuted(Hits(o, labels, n), perm);
    }
  }
}
