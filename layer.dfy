/**
  One dense layer: a weight matrix W (outputSize x inputSize), a bias vector
  b (outputSize entries) and an activation chosen by name.

  The value-level functions (`Linear`, `Relu`, `Softmax`, `LayerForward`,
  `LayerBackward`, `Step`) say what a layer computes; the class `Layer` holds the
  state that FlexNN's `Layer` updates in place, and its methods are proved
  against those functions.
*/
module Layers {
  import opened Matrices

  /**
    The exponential, left abstract: any function with positive values.
    Nothing below depends on which function it is.
  */
  type Exp = f: real -> real | forall x :: f(x) > 0.0 witness (x: real) => 1.0

  datatype Activation = ReluActivation | SoftmaxActivation | IdentityActivation

  /** The branch that the string comparisons in forward and backward select. */
  function ActivationOf(name: string): (k: Activation)
    ensures k == ReluActivation <==> name == "relu"
    ensures k == SoftmaxActivation <==> name == "softmax"
  {
    if name == "relu" then ReluActivation else if name == "softmax" then SoftmaxActivation else IdentityActivation
  }

  /** Any name other than "relu" and "softmax" selects the identity. */
  lemma UnrecognisedIsIdentity(exp: Exp, name: string, z: Matrix)
    requires name != "relu" && name != "softmax"
    ensures ActivationOf(name) == IdentityActivation
    ensures Activate(ActivationOf(name), exp, z) == z
  {
  }

  /** The value of a Layer object. */
  datatype LayerState = LayerState(inputSize: nat, outputSize: nat, activationFunction: string, W: Matrix, b: Vector)

  /** W is outputSize x inputSize and b has outputSize entries. */
  predicate WellShaped(l: LayerState) {
    HasShape(l.W, l.outputSize, l.inputSize) && |l.b| == l.outputSize
  }

  // ---------------------------------------------------------------- forward

  /** Z = W * input + b, with b added to every column. */
  function Linear(W: Matrix, b: Vector, input: Matrix): (z: Matrix)
    ensures HasShape(z, W.rows, input.cols)
  {
    AddToColumns(MatMul(W, input), b)
  }

  /** max(0, x) entrywise. */
  function Relu(z: Matrix): (a: Matrix)
    ensures HasShape(a, z.rows, z.cols)
    ensures forall i, j :: 0 <= i < z.rows && 0 <= j < z.cols ==>
              At(a, i, j) >= 0.0 &&
              (At(z, i, j) >= 0.0 ==> At(a, i, j) == At(z, i, j)) &&
              (At(z, i, j) <= 0.0 ==> At(a, i, j) == 0.0)
  {
    Build(z.rows, z.cols, (i, j) => if 0.0 < At(z, i, j) then At(z, i, j) else 0.0)
  }

  /** The largest of z(r, j) over r < n. */
  function ColumnMax(z: Matrix, j: int, n: nat): (m: real)
    requires n > 0
    ensures forall r :: 0 <= r < n ==> At(z, r, j) <= m
    ensures exists r :: 0 <= r < n && At(z, r, j) == m
  {
    if n == 1 then At(z, 0, j)
    else
      var m := ColumnMax(z, j, n - 1);
      if At(z, n - 1, j) > m then At(z, n - 1, j) else m
  }

  /** exp(z(r, j) - shift) for every row r of column j. */
  function ShiftedExps(exp: Exp, z: Matrix, j: int, shift: real): (v: Vector)
    ensures |v| == z.rows && Positive(v)
  {
    seq(z.rows, r requires 0 <= r < z.rows => exp(At(z, r, j) - shift))
  }

  predicate Positive(v: Vector) {
    forall k :: 0 <= k < |v| ==> v[k] > 0.0
  }

  /** A sum of positive terms is positive and at least each of its terms. */
  lemma {:induction false} PositiveSum(v: Vector)
    requires Positive(v)
    ensures |v| > 0 ==> Sum(v) > 0.0
    ensures forall k :: 0 <= k < |v| ==> v[k] <= Sum(v)
  {
    if |v| > 0 {
      var init := v[..|v| - 1];
      assert Positive(init);
      PositiveSum(init);
      assert forall k :: 0 <= k < |init| ==> v[k] == init[k];
    }
  }

  /** v divided by t entrywise. */
  function Divide(v: Vector, t: real): (r: Vector)
    requires t != 0.0
    ensures |r| == |v| && forall k :: 0 <= k < |v| ==> r[k] == v[k] / t
  {
    seq(|v|, k requires 0 <= k < |v| => v[k] / t)
  }

  lemma {:induction false} DivideSum(v: Vector, t: real)
    requires t != 0.0
    ensures Sum(Divide(v, t)) == Sum(v) / t
  {
    if |v| > 0 {
      var init := v[..|v| - 1];
      DivideSum(init, t);
      assert Divide(v, t)[..|v| - 1] == Divide(init, t);
      var p, q := Sum(init) / t, v[|v| - 1] / t;
      assert Sum(Divide(v, t)) == p + q;
      DivSum(Sum(init), v[|v| - 1], t);
    }
  }

  /**
    Column j of the softmax: shift by the column maximum, exponentiate,
    normalise.  With any positive exp the result is a probability
    distribution over the rows.
  */
  function SoftmaxColumn(exp: Exp, z: Matrix, j: int): (c: Vector)
    ensures |c| == z.rows
    ensures z.rows > 0 ==> Sum(c) == 1.0
    ensures forall r :: 0 <= r < |c| ==> 0.0 < c[r] <= 1.0
  {
    if z.rows == 0 then []
    else
      var e := ShiftedExps(exp, z, j, ColumnMax(z, j, z.rows));
      PositiveSum(e);
      var t := Sum(e);
      DivideSum(e, t);
      DivSelf(t);
      DividedInUnit(e, t);
      Divide(e, t)
  }

  /** Each term of a positive sum, divided by the sum, lies in (0, 1]. */
  lemma DividedInUnit(e: Vector, t: real)
    requires |e| > 0 && Positive(e) && t == Sum(e)
    ensures t > 0.0 && forall r :: 0 <= r < |e| ==> 0.0 < Divide(e, t)[r] <= 1.0
  {
    PositiveSum(e);
    forall r | 0 <= r < |e|
      ensures 0.0 < Divide(e, t)[r] <= 1.0
    {
      DivAtMostOne(e[r], t);
    }
  }

  /** The softmax applied to every column of z on its own. */
  function Softmax(exp: Exp, z: Matrix): (a: Matrix)
    ensures HasShape(a, z.rows, z.cols)
    ensures forall i, j :: 0 <= i < z.rows && 0 <= j < z.cols ==> At(a, i, j) == SoftmaxColumn(exp, z, j)[i]
  {
    Build(z.rows, z.cols, (i, j) => Get(SoftmaxColumn(exp, z, j), i))
  }

  /** z with column j replaced by c. */
  function SetColumn(a: Matrix, j: int, c: Vector): (r: Matrix)
    ensures HasShape(r, a.rows, a.cols)
    ensures forall i, k :: 0 <= i < a.rows && 0 <= k < a.cols ==>
              At(r, i, k) == if k == j then Get(c, i) else At(a, i, k)
  {
    Build(a.rows, a.cols, (i, k) => if k == j then Get(c, i) else At(a, i, k))
  }

  /** The activation the name selects, applied to Z. */
  function Activate(kind: Activation, exp: Exp, z: Matrix): (a: Matrix)
    ensures a.rows == z.rows && a.cols == z.cols
    ensures WellFormed(z) ==> WellFormed(a)
    ensures kind == IdentityActivation ==> a == z
  {
    match kind
    case ReluActivation => Relu(z)
    case SoftmaxActivation => Softmax(exp, z)
    case IdentityActivation => z
  }

  /** The pair (Z, A) that Layer::forward returns. */
  function LayerForward(l: LayerState, exp: Exp, input: Matrix): (za: (Matrix, Matrix))
    ensures HasShape(za.0, l.W.rows, input.cols)
    ensures HasShape(za.1, l.W.rows, input.cols)
  {
    var z := Linear(l.W, l.b, input);
    (z, Activate(ActivationOf(l.activationFunction), exp, z))
  }

  lemma DivSum(s: real, x: real, t: real)
    requires t != 0.0
    ensures s / t + x / t == (s + x) / t
  {
  }

  lemma DivSelf(t: real)
    requires t != 0.0
    ensures t / t == 1.0
  {
  }

  lemma DivAtMostOne(x: real, t: real)
    requires 0.0 < x <= t
    ensures 0.0 < x / t <= 1.0
  {
  }

  /**
    Softmax with any positive exp: every column of a matrix with at least
    one row sums to 1 and every entry lies in (0, 1].
  */
  lemma SoftmaxIsDistribution(exp: Exp, z: Matrix, j: int)
    requires 0 < z.rows && 0 <= j < z.cols
    ensures Sum(Column(Softmax(exp, z), j)) == 1.0
    ensures forall r :: 0 <= r < z.rows ==> 0.0 < At(Softmax(exp, z), r, j) <= 1.0
  {
    assert Column(Softmax(exp, z), j) == SoftmaxColumn(exp, z, j);
  }

  /** The scenario W = [[2, 3]], b = [1], input = [[1], [1]] with no activation gives Z = A = [[6]]. */
  lemma IdentityScenario(exp: Exp)
    ensures LayerForward(LayerState(2, 1, "none", Matrix(1, 2, [[2.0, 3.0]]), [1.0]), exp, Matrix(2, 1, [[1.0], [1.0]]))
            == (Matrix(1, 1, [[6.0]]), Matrix(1, 1, [[6.0]]))
  {
    var z := Linear(Matrix(1, 2, [[2.0, 3.0]]), [1.0], Matrix(2, 1, [[1.0], [1.0]]));
    assert At(z, 0, 0) == 6.0;
    Extensionality(z, Matrix(1, 1, [[6.0]]));
  }

  // --------------------------------------------------------------- backward

  /**
    Layer::backward for the ReLU and identity branches: this layer's dZ from
    the next layer's weights and dZ and this layer's Z.  The softmax branch
    is not part of the model (see README).
  */
  function LayerBackward(kind: Activation, nextW: Matrix, nextdZ: Matrix, currZ: Matrix): (dZ: Matrix)
    requires kind != SoftmaxActivation
    ensures HasShape(dZ, nextW.cols, nextdZ.cols)
    ensures kind == IdentityActivation ==> dZ == MatMul(Transpose(nextW), nextdZ)
    ensures forall i, j :: 0 <= i < dZ.rows && 0 <= j < dZ.cols ==>
              At(dZ, i, j) == if kind == ReluActivation && At(currZ, i, j) <= 0.0 then 0.0
                              else At(MatMul(Transpose(nextW), nextdZ), i, j)
  {
    var g := MatMul(Transpose(nextW), nextdZ);
    if kind == ReluActivation then
      Build(g.rows, g.cols, (i, j) => At(g, i, j) * (if At(currZ, i, j) > 0.0 then 1.0 else 0.0))
    else
      g
  }

  // ----------------------------------------------------------------- update

  /** One gradient-descent step on a layer's parameters. */
  function Step(l: LayerState, dW: Matrix, db: Vector, rate: real): (r: LayerState)
    ensures r.inputSize == l.inputSize && r.outputSize == l.outputSize
    ensures r.activationFunction == l.activationFunction
    ensures WellShaped(l) ==> WellShaped(r)
    ensures forall i, j :: 0 <= i < l.W.rows && 0 <= j < l.W.cols ==> At(r.W, i, j) == At(l.W, i, j) - rate * At(dW, i, j)
    ensures |r.b| == |l.b| && forall i :: 0 <= i < |l.b| ==> r.b[i] == l.b[i] - rate * Get(db, i)
  {
    l.(W := Descend(l.W, dW, rate), b := DescendVector(l.b, db, rate))
  }

  /** A step with rate 0, or with all-zero gradients of the right shape, changes nothing. */
  lemma StepStill(l: LayerState, dW: Matrix, db: Vector, rate: real)
    requires WellShaped(l)
    requires rate == 0.0 || (dW.rows == l.outputSize && dW.cols == l.inputSize && IsZero(dW) && |db| == l.outputSize && IsZeroVector(db))
    ensures Step(l, dW, db, rate) == l
  {
    DescendStill(l.W, dW, rate);
    DescendVectorStill(l.b, db, rate);
  }

  // ------------------------------------------------------------------ class

  class Layer {
    const inputSize: nat
    const outputSize: nat
    const activationFunction: string
    var W: Matrix
    var b: Vector

    function Value(): LayerState
      reads this
    {
      LayerState(inputSize, outputSize, activationFunction, W, b)
    }

    ghost predicate Valid()
      reads this
    {
      WellShaped(Value())
    }

    /**
      The initial W and b are parameters: the `Layer` constructor draws them at
      random, of exactly these shapes.
    */
    constructor (inputSize: nat, outputSize: nat, initialW: Matrix, initialB: Vector, activationFunction: string := "relu")
      requires HasShape(initialW, outputSize, inputSize) && |initialB| == outputSize
      ensures Valid()
      ensures Value() == LayerState(inputSize, outputSize, activationFunction, initialW, initialB)
    {
      this.inputSize := inputSize;
      this.outputSize := outputSize;
      this.activationFunction := activationFunction;
      W := initialW;
      b := initialB;
    }

    /** The copy that std::vector<Layer> makes. */
    constructor Copy(other: Layer)
      requires other.Valid()
      ensures Valid() && Value() == other.Value()
    {
      inputSize := other.inputSize;
      outputSize := other.outputSize;
      activationFunction := other.activationFunction;
      W := other.W;
      b := other.b;
    }

    function GetWeights(): (w: Matrix)
      requires Valid()
      reads this
      ensures HasShape(w, outputSize, inputSize) && w == Value().W
    {
      W
    }

    function GetBiases(): (v: Vector)
      requires Valid()
      reads this
      ensures |v| == outputSize && v == Value().b
    {
      b
    }

    /** Layer::forward; the softmax branch overwrites one column per iteration. */
    method Forward(input: Matrix, exp: Exp) returns (z: Matrix, a: Matrix)
      requires Valid() && WellFormed(input) && input.rows == inputSize
      ensures (z, a) == LayerForward(Value(), exp, input)
    {
      z := Linear(W, b, input);
      if activationFunction == "relu" {
        a := Relu(z);
      } else if activationFunction == "softmax" {
        a := z;
        var i := 0;
        while i < z.cols
          invariant 0 <= i <= z.cols
          invariant HasShape(a, z.rows, z.cols)
          invariant forall r, j :: 0 <= r < z.rows && 0 <= j < z.cols ==>
                      At(a, r, j) == if j < i then At(Softmax(exp, z), r, j) else At(z, r, j)
        {
          a := SetColumn(a, i, SoftmaxColumn(exp, z, i));
          i := i + 1;
        }
        Extensionality(a, Softmax(exp, z));
      } else {
        a := z;
      }
    }

    /**
      backward: dZ of this layer from the next layer's W and dZ and this
      layer's Z.  A "relu" layer masks `nextWᵀ * nextdZ` where its Z is not
      positive; any other name (softmax excepted) passes it on.
    */
    function Backward(nextW: Matrix, nextdZ: Matrix, currZ: Matrix): (dZ: Matrix)
      requires ActivationOf(activationFunction) != SoftmaxActivation
      ensures HasShape(dZ, nextW.cols, nextdZ.cols)
      ensures forall i, j :: 0 <= i < dZ.rows && 0 <= j < dZ.cols ==>
                At(dZ, i, j) == if activationFunction == "relu" && At(currZ, i, j) <= 0.0 then 0.0
                                else At(MatMul(Transpose(nextW), nextdZ), i, j)
      ensures dZ == LayerBackward(ActivationOf(activationFunction), nextW, nextdZ, currZ)
    {
      LayerBackward(ActivationOf(activationFunction), nextW, nextdZ, currZ)
    }

    /** Layer::updateWeights: W -= rate * dW, b -= rate * db. */
    method UpdateWeights(dW: Matrix, db: Vector, learningRate: real)
      requires Valid()
      requires dW.rows == outputSize && dW.cols == inputSize && |db| == outputSize
      modifies this
      ensures Valid()
      ensures Value() == Step(old(Value()), dW, db, learningRate)
    {
      W := Descend(W, dW, learningRate);
      b := DescendVector(b, db, learningRate);
    }
  }

  /** The values of a sequence of layer objects, in order. */
  function ValuesOf(ls: seq<Layer>): (m: seq<LayerState>)
    reads ls
    ensures |m| == |ls| && forall i :: 0 <= i < |ls| ==> m[i] == ls[i].Value()
  {
    seq(|ls|, i reads ls requires 0 <= i < |ls| => ls[i].Value())
  }

  /** No layer object appears twice in ls. */
  predicate Distinct(ls: seq<Layer>)
    decreases |ls|
  {
    |ls| == 0 || (Distinct(ls[..|ls| - 1]) && ls[|ls| - 1] !in ls[..|ls| - 1])
  }

  /** In a sequence without repeats, the object at i is at no other index. */
  lemma {:induction false} DistinctApart(ls: seq<Layer>, i: nat)
    requires Distinct(ls) && i < |ls|
    ensures forall k :: 0 <= k < |ls| && k != i ==> ls[k] != ls[i]
    decreases |ls|
  {
    var n := |ls| - 1;
    var init := ls[..n];
    if i < n {
      DistinctApart(init, i);
      assert init[i] == ls[i];
      assert ls[n] !in init;
      forall k | 0 <= k < n && k != i
        ensures ls[k] != ls[i]
      {
        assert init[k] == ls[k];
      }
    } else {
      forall k | 0 <= k < n
        ensures ls[k] != ls[i]
      {
        assert init[k] == ls[k];
      }
    }
  }

  /** A sequence whose indices hold pairwise different objects has no repeats. */
  lemma {:induction false} DistinctFromPairwise(ls: seq<Layer>)
    requires forall i, j :: 0 <= i < j < |ls| ==> ls[i] != ls[j]
    ensures Distinct(ls)
    decreases |ls|
  {
    if |ls| > 0 {
      var init := ls[..|ls| - 1];
      DistinctFromPairwise(init);
      forall k | 0 <= k < |init|
        ensures init[k] != ls[|ls| - 1]
      {
        assert init[k] == ls[k];
      }
    }
  }
}
