/**
  What a network of layers computes, on values: the forward cache, the
  chained backward pass, the gradient list, one update of every layer, the
  fixed-epoch training loop and the column-wise accuracy.  The network
  classes (FlexNN.NeuralNetwork and its inline twin BasicNN.NeuralNetwork)
  are proved against these functions.
*/
module Propagation {
  import opened Matrices
  import opened Layers

  datatype Option<T> = None | Some(value: T)

  function Last<T>(s: seq<T>): T
    requires |s| > 0
  {
    s[|s| - 1]
  }

  /** The order std::reverse leaves a sequence in. */
  function Reversed<T>(s: seq<T>): (r: seq<T>)
    ensures |r| == |s| && forall k :: 0 <= k < |s| ==> r[k] == s[|s| - 1 - k]
  {
    seq(|s|, k requires 0 <= k < |s| => s[|s| - 1 - k])
  }

  predicate AllWellShaped(model: seq<LayerState>) {
    forall i :: 0 <= i < |model| ==> WellShaped(model[i])
  }

  /** Layer i's outputs are layer i + 1's inputs. */
  predicate Linked(model: seq<LayerState>, i: int)
    requires 0 <= i < |model| - 1
  {
    model[i].outputSize == model[i + 1].inputSize
  }

  /** Every layer is linked to the next; the caller must arrange this. */
  predicate Chained(model: seq<LayerState>) {
    forall i :: 0 <= i < |model| - 1 ==> Linked(model, i)
  }

  /** What the forward pass needs for Eigen's products to be defined. */
  predicate Accepts(model: seq<LayerState>, input: Matrix) {
    AllWellShaped(model) && Chained(model) && WellFormed(input) &&
    (|model| > 0 ==> input.rows == model[0].inputSize)
  }

  /** Same number of layers, same sizes and same activation names. */
  predicate SameArchitecture(a: seq<LayerState>, b: seq<LayerState>) {
    |a| == |b| &&
    forall i :: 0 <= i < |a| ==>
      a[i].inputSize == b[i].inputSize && a[i].outputSize == b[i].outputSize &&
      a[i].activationFunction == b[i].activationFunction
  }

  // ---------------------------------------------------------------- forward

  /**
    The list that forward builds: [input, Z0, A0, Z1, A1, ...], each layer
    fed the last entry pushed so far.
  */
  function Cache(model: seq<LayerState>, exp: Exp, input: Matrix): (c: seq<Matrix>)
    ensures |c| == 2 * |model| + 1 && c[0] == input
    decreases |model|
  {
    if |model| == 0 then [input]
    else
      var prev := Cache(model[..|model| - 1], exp, input);
      var za := LayerForward(model[|model| - 1], exp, Last(prev));
      prev + [za.0, za.1]
  }

  /** The cache of the first k layers is the first 2k + 1 entries of the whole cache. */
  lemma {:induction false} CachePrefix(model: seq<LayerState>, exp: Exp, input: Matrix, k: nat)
    requires k <= |model|
    ensures Cache(model[..k], exp, input) == Cache(model, exp, input)[..2 * k + 1]
    decreases |model|
  {
    if k < |model| {
      var init := model[..|model| - 1];
      CachePrefix(init, exp, input, k);
      assert init[..k] == model[..k];
      var whole := Cache(model, exp, input);
      var front := Cache(init, exp, input);
      assert whole[..2 * |init| + 1] == front;
      assert whole[..2 * k + 1] == front[..2 * k + 1];
    } else {
      assert model[..k] == model;
    }
  }

  /** Entries 2i + 1 and 2i + 2 are Z and A of layer i, which was fed entry 2i. */
  lemma CacheLayout(model: seq<LayerState>, exp: Exp, input: Matrix, i: nat)
    requires i < |model|
    ensures (Cache(model, exp, input)[2 * i + 1], Cache(model, exp, input)[2 * i + 2])
            == LayerForward(model[i], exp, Cache(model, exp, input)[2 * i])
  {
    CachePrefix(model, exp, input, i + 1);
    CachePrefix(model, exp, input, i);
    assert model[..i + 1][..i] == model[..i];
  }

  /** One more layer pushes what it makes of the last entry onto the cache of the layers before it. */
  lemma CacheExtend(model: seq<LayerState>, exp: Exp, input: Matrix, i: nat)
    requires i < |model|
    ensures Cache(model[..i + 1], exp, input)
            == Cache(model[..i], exp, input)
               + [LayerForward(model[i], exp, Last(Cache(model[..i], exp, input))).0,
                  LayerForward(model[i], exp, Last(Cache(model[..i], exp, input))).1]
  {
    assert model[..i + 1][..i] == model[..i];
  }

  /** Shapes in the cache: every entry has the input's columns, and the rows of its layer's outputs. */
  lemma {:induction false} CacheShapes(model: seq<LayerState>, exp: Exp, input: Matrix, k: nat)
    requires AllWellShaped(model) && WellFormed(input) && k < 2 * |model| + 1
    ensures WellFormed(Cache(model, exp, input)[k]) && Cache(model, exp, input)[k].cols == input.cols
    ensures Cache(model, exp, input)[k].rows == if k == 0 then input.rows else model[(k - 1) / 2].outputSize
  {
    if k > 0 {
      CacheLayout(model, exp, input, (k - 1) / 2);
      CacheShapes(model, exp, input, 2 * ((k - 1) / 2));
    }
  }

  /** Under the chaining, layer i is fed a matrix with exactly its inputSize rows. */
  lemma CacheFeedsLayer(model: seq<LayerState>, exp: Exp, input: Matrix, i: nat)
    requires Accepts(model, input) && i < |model|
    ensures WellFormed(Cache(model, exp, input)[2 * i])
    ensures Cache(model, exp, input)[2 * i].rows == model[i].inputSize
  {
    CacheShapes(model, exp, input, 2 * i);
    if i > 0 {
      assert Linked(model, i - 1);
    }
  }

  /** With no layers predict returns its input; otherwise the final layer's activation. */
  lemma OutputIsFinalActivation(model: seq<LayerState>, exp: Exp, input: Matrix)
    ensures |model| == 0 ==> Output(model, exp, input) == input
    ensures |model| > 0 ==>
              Output(model, exp, input) == LayerForward(model[|model| - 1], exp, Cache(model, exp, input)[2 * |model| - 2]).1
  {
    if |model| > 0 {
      CacheLayout(model, exp, input, |model| - 1);
    }
  }

  /** The rows of predict's result. */
  function OutputRows(model: seq<LayerState>, input: Matrix): nat {
    if |model| == 0 then input.rows else model[|model| - 1].outputSize
  }

  /**
    What predict returns: the last cache entry, which for well-shaped layers
    has the last layer's outputSize rows (the input's, with no layers) and
    the input's columns.
  */
  function Output(model: seq<LayerState>, exp: Exp, input: Matrix): (o: Matrix)
    ensures AllWellShaped(model) && WellFormed(input) ==> HasShape(o, OutputRows(model, input), input.cols)
  {
    FinalShape(model, exp, input);
    Last(Cache(model, exp, input))
  }

  /** The last cache entry of well-shaped layers has the last layer's outputSize rows and the input's columns. */
  lemma FinalShape(model: seq<LayerState>, exp: Exp, input: Matrix)
    ensures AllWellShaped(model) && WellFormed(input) ==>
              HasShape(Last(Cache(model, exp, input)), OutputRows(model, input), input.cols)
  {
    if AllWellShaped(model) && WellFormed(input) {
      CacheShapes(model, exp, input, 2 * |model|);
    }
  }

  /** Before layer i runs, the last entry pushed is what it may be fed. */
  lemma ForwardFeeds(model: seq<LayerState>, exp: Exp, input: Matrix, outputs: seq<Matrix>, i: nat)
    requires Accepts(model, input) && i < |model| && outputs == Cache(model[..i], exp, input)
    ensures WellFormed(Last(outputs)) && Last(outputs).rows == model[i].inputSize
  {
    CachePrefix(model, exp, input, i);
    CacheFeedsLayer(model, exp, input, i);
  }

  /** Pushing layer i's (Z, A) extends the cache of the first i layers to the first i + 1. */
  lemma ForwardPush(model: seq<LayerState>, exp: Exp, input: Matrix, outputs: seq<Matrix>, i: nat, z: Matrix, a: Matrix)
    requires i < |model| && outputs == Cache(model[..i], exp, input)
    requires (z, a) == LayerForward(model[i], exp, Last(outputs))
    ensures outputs + [z] + [a] == Cache(model[..i + 1], exp, input)
  {
    CacheExtend(model, exp, input, i);
  }

  // --------------------------------------------------------------- backward

  /** The softmax branch of Layer::backward is not modelled, so no hidden layer may take it. */
  predicate HiddenNotSoftmax(model: seq<LayerState>) {
    forall i :: 0 <= i < |model| - 1 ==> ActivationOf(model[i].activationFunction) != SoftmaxActivation
  }

  /**
    What backward needs: a layer (else outputs.size() - 3 wraps), a cache of
    matching length, at least one sample (else / m divides by zero).
  */
  predicate BackwardReady(model: seq<LayerState>, cache: seq<Matrix>) {
    |model| > 0 && |cache| == 2 * |model| + 1 && Last(cache).cols > 0 && HiddenNotSoftmax(model)
  }

  /**
    The shapes Eigen asserts on in backward: the layers chain, and with m the
    number of samples, entry 2i has layer i's inputSize rows and entries
    2i + 1 and 2i + 2 its outputSize rows, all with m columns.
  */
  predicate CacheFits(model: seq<LayerState>, cache: seq<Matrix>) {
    Chained(model) && |cache| == 2 * |model| + 1 &&
    forall i :: 0 <= i < |model| ==> EntriesFit(model, cache, i)
  }

  /** Layer i's input, Z and A in the cache have its sizes as rows and the samples as columns. */
  predicate EntriesFit(model: seq<LayerState>, cache: seq<Matrix>, i: nat)
    requires i < |model| && |cache| == 2 * |model| + 1
  {
    HasShape(cache[2 * i], model[i].inputSize, cache[2 * |model|].cols) &&
    HasShape(cache[2 * i + 1], model[i].outputSize, cache[2 * |model|].cols) &&
    HasShape(cache[2 * i + 2], model[i].outputSize, cache[2 * |model|].cols)
  }

  /** What backward computes for one layer: its dZ and the gradient pair made from it. */
  datatype LayerGradient = LayerGradient(dZ: Matrix, db: Matrix, dW: Matrix)

  /**
    Layer i's dZ, db and dW.  dZ is the seed A_last - target for the last
    layer, and for an earlier layer its backward applied to layer i + 1's W
    and dZ and its own Z; db is the row means of dZ and dW = dZ * cache[2i]^T / m,
    where cache[2i] is what layer i was fed and m the number of samples.
  */
  function LayerGradients(model: seq<LayerState>, cache: seq<Matrix>, target: Matrix, i: nat): (g: LayerGradient)
    requires BackwardReady(model, cache) && i < |model|
    ensures WellFormed(g.dZ) && g.dZ.cols == Last(cache).cols
    ensures g.dZ.rows == if i == |model| - 1 then Last(cache).rows else model[i + 1].W.cols
    decreases |model| - i
  {
    var dZ :=
      if i == |model| - 1 then Minus(Last(cache), target)
      else LayerBackward(ActivationOf(model[i].activationFunction), model[i + 1].W,
                         LayerGradients(model, cache, target, i + 1).dZ, cache[2 * i + 1]);
    LayerGradient(dZ, RowMean(dZ), DivScalar(MatMul(dZ, Transpose(cache[2 * i])), Last(cache).cols as real))
  }

  /** The gradients of layers 0 .. n - 1 in layer order: dW_i at 2i and db_i at 2i + 1. */
  function GradientPairs(model: seq<LayerState>, cache: seq<Matrix>, target: Matrix, n: nat): (g: seq<Matrix>)
    requires BackwardReady(model, cache) && n <= |model|
    ensures |g| == 2 * n
    decreases n
  {
    if n == 0 then []
    else
      var layer := LayerGradients(model, cache, target, n - 1);
      GradientPairs(model, cache, target, n - 1) + [layer.dW, layer.db]
  }

  /** The gradient list that backward returns, 2L entries. */
  function Gradients(model: seq<LayerState>, cache: seq<Matrix>, target: Matrix): (g: seq<Matrix>)
    requires BackwardReady(model, cache)
    ensures |g| == 2 * |model|
  {
    GradientPairs(model, cache, target, |model|)
  }

  lemma {:induction false} GradientPairsLayout(model: seq<LayerState>, cache: seq<Matrix>, target: Matrix, n: nat, i: nat)
    requires BackwardReady(model, cache) && i < n <= |model|
    ensures GradientPairs(model, cache, target, n)[2 * i] == LayerGradients(model, cache, target, i).dW
    ensures GradientPairs(model, cache, target, n)[2 * i + 1] == LayerGradients(model, cache, target, i).db
    decreases n
  {
    if i < n - 1 {
      GradientPairsLayout(model, cache, target, n - 1, i);
    }
  }

  /** Entry 2i of the gradient list is dW_i and entry 2i + 1 is db_i. */
  lemma GradientsLayout(model: seq<LayerState>, cache: seq<Matrix>, target: Matrix, i: nat)
    requires BackwardReady(model, cache) && i < |model|
    ensures Gradients(model, cache, target)[2 * i] == LayerGradients(model, cache, target, i).dW
    ensures Gradients(model, cache, target)[2 * i + 1] == LayerGradients(model, cache, target, i).db
  {
    GradientPairsLayout(model, cache, target, |model|, i);
  }

  /**
    Each gradient has the shape updateWeights needs: dW_i is W_i's shape and
    db_i is a column of b_i's length.
  */
  lemma GradientShapes(model: seq<LayerState>, exp: Exp, input: Matrix, target: Matrix, i: nat)
    requires Accepts(model, input) && BackwardReady(model, Cache(model, exp, input)) && i < |model|
    ensures HasShape(LayerGradients(model, Cache(model, exp, input), target, i).dW, model[i].outputSize, model[i].inputSize)
    ensures HasShape(LayerGradients(model, Cache(model, exp, input), target, i).db, model[i].outputSize, 1)
  {
    var cache := Cache(model, exp, input);
    CacheFeedsLayer(model, exp, input, i);
    CacheShapes(model, exp, input, 2 * |model|);
    if i < |model| - 1 {
      assert Linked(model, i);
    }
  }

  /** Reversing twice gives the list back. */
  lemma ReversedTwice<T>(s: seq<T>)
    ensures Reversed(Reversed(s)) == s
  {
    var r := Reversed(Reversed(s));
    forall k | 0 <= k < |s|
      ensures r[k] == s[k]
    {
      assert Reversed(s)[|s| - 1 - k] == s[k];
    }
  }

  /**
    What the backward loop keeps after handling layers L - 1 down to i + 1:
    one dZ per layer handled, the last of them layer i + 1's, and, pushed,
    the first 2(L - 1 - i) entries of the gradient list read backwards,
    that is (db, dW) of layer L - 1, then of layer L - 2, and so on.
  */
  predicate BackwardSoFar(model: seq<LayerState>, cache: seq<Matrix>, target: Matrix, i: int,
                          dZs: seq<Matrix>, pushed: seq<Matrix>)
    requires BackwardReady(model, cache)
  {
    -1 <= i <= |model| - 2 && |dZs| == |model| - 1 - i &&
    Last(dZs) == LayerGradients(model, cache, target, i + 1).dZ &&
    pushed == Reversed(Gradients(model, cache, target))[..2 * (|model| - 1 - i)]
  }

  /** The seed dZ = A_last - target and its pair, whose dW uses the last layer's input cache[|cache| - 3], start the loop at i = L - 2. */
  lemma BackwardStart(model: seq<LayerState>, cache: seq<Matrix>, target: Matrix, dZ: Matrix, db: Matrix, dW: Matrix)
    requires BackwardReady(model, cache)
    requires dZ == Minus(Last(cache), target)
    requires db == RowMean(dZ) && dW == DivScalar(MatMul(dZ, Transpose(cache[|cache| - 3])), dZ.cols as real)
    ensures BackwardSoFar(model, cache, target, |model| - 2, [dZ], [db] + [dW])
  {
    var n := |model|;
    assert |cache| - 3 == 2 * (n - 1);
    GradientsLayout(model, cache, target, n - 1);
    var r := Reversed(Gradients(model, cache, target));
    assert r[0] == db && r[1] == dW;
    assert r[..2] == [db] + [dW];
  }

  /** One turn of the backward loop: layer i's dZ and gradient pair from layer i + 1's W and dZ. */
  lemma BackwardStep(model: seq<LayerState>, cache: seq<Matrix>, target: Matrix, i: nat,
                     dZs: seq<Matrix>, pushed: seq<Matrix>, dZ: Matrix, db: Matrix, dW: Matrix)
    requires BackwardReady(model, cache) && BackwardSoFar(model, cache, target, i, dZs, pushed)
    requires dZ == LayerBackward(ActivationOf(model[i].activationFunction), model[i + 1].W, Last(dZs), cache[2 * i + 1])
    requires db == RowMean(dZ) && dW == DivScalar(MatMul(dZ, Transpose(cache[2 * i])), Last(cache).cols as real)
    ensures BackwardSoFar(model, cache, target, i - 1, dZs + [dZ], pushed + [db] + [dW])
  {
    var n := 2 * (|model| - 1 - i);
    assert dZ == LayerGradients(model, cache, target, i).dZ;
    GradientsLayout(model, cache, target, i);
    var r := Reversed(Gradients(model, cache, target));
    assert r[n] == db && r[n + 1] == dW;
    assert r[..n + 2] == r[..n] + [db] + [dW];
  }

  /** At the end of the loop the pushed list, reversed, is the gradient list in layer order. */
  lemma BackwardDone(model: seq<LayerState>, cache: seq<Matrix>, target: Matrix, dZs: seq<Matrix>, pushed: seq<Matrix>)
    requires BackwardReady(model, cache) && BackwardSoFar(model, cache, target, -1, dZs, pushed)
    ensures Reversed(pushed) == Gradients(model, cache, target)
  {
    var r := Reversed(Gradients(model, cache, target));
    assert pushed == r[..|r|] == r;
    ReversedTwice(Gradients(model, cache, target));
  }

  // ----------------------------------------------------------------- update

  /** Pair i has the shapes that layer i's updateWeights needs: dW like W, db a column as tall as b. */
  predicate GradientsFit(model: seq<LayerState>, gradients: seq<Matrix>) {
    |gradients| >= 2 * |model| &&
    forall i :: 0 <= i < |model| ==>
      gradients[2 * i].rows == model[i].outputSize && gradients[2 * i].cols == model[i].inputSize &&
      gradients[2 * i + 1].rows == model[i].outputSize && gradients[2 * i + 1].cols == 1
  }

  /** updateWeights: layer i takes pair (gradients[2i], gradients[2i + 1]) and nothing else. */
  function ApplyGradients(model: seq<LayerState>, gradients: seq<Matrix>, rate: real): (r: seq<LayerState>)
    requires |gradients| >= 2 * |model|
    ensures SameArchitecture(model, r)
    ensures AllWellShaped(model) ==> AllWellShaped(r)
  {
    seq(|model|, i requires 0 <= i < |model| => Step(model[i], gradients[2 * i], ToVector(gradients[2 * i + 1]), rate))
  }

  /** Layer i after the update depends only on layer i and pair i. */
  lemma ApplyGradientsLocal(model: seq<LayerState>, gradients: seq<Matrix>, rate: real, i: nat)
    requires |gradients| >= 2 * |model| && i < |model|
    ensures ApplyGradients(model, gradients, rate)[i] == Step(model[i], gradients[2 * i], ToVector(gradients[2 * i + 1]), rate)
    ensures forall g: seq<Matrix> :: |g| >= 2 * |model| && g[2 * i] == gradients[2 * i] && g[2 * i + 1] == gradients[2 * i + 1] ==>
              ApplyGradients(model, g, rate)[i] == ApplyGradients(model, gradients, rate)[i]
  {
  }

  /** A rate of 0 leaves every layer as it was. */
  lemma ApplyZeroRate(model: seq<LayerState>, gradients: seq<Matrix>)
    requires AllWellShaped(model) && |gradients| >= 2 * |model|
    ensures ApplyGradients(model, gradients, 0.0) == model
  {
    forall i | 0 <= i < |model|
      ensures ApplyGradients(model, gradients, 0.0)[i] == model[i]
    {
      StepStill(model[i], gradients[2 * i], ToVector(gradients[2 * i + 1]), 0.0);
    }
  }

  // ------------------------------------------------------------------ train

  /** What one training step needs of the network, the input and the one-hot target. */
  predicate Trainable(model: seq<LayerState>, input: Matrix, target: Matrix) {
    Accepts(model, input) && |model| > 0 && input.cols > 0 && HiddenNotSoftmax(model) &&
    target.rows == model[|model| - 1].outputSize && target.cols == input.cols
  }

  lemma TrainableKept(a: seq<LayerState>, b: seq<LayerState>, input: Matrix, target: Matrix)
    requires Trainable(a, input, target) && SameArchitecture(a, b) && AllWellShaped(b)
    ensures Trainable(b, input, target)
  {
    assert Chained(b) by {
      forall i | 0 <= i < |b| - 1
        ensures Linked(b, i)
      {
        assert Linked(a, i);
      }
    }
    assert HiddenNotSoftmax(b) by {
      forall i | 0 <= i < |b| - 1
        ensures ActivationOf(b[i].activationFunction) != SoftmaxActivation
      {
        assert a[i].activationFunction == b[i].activationFunction;
      }
    }
  }

  /** One epoch: forward, backward, update. */
  function Epoch(model: seq<LayerState>, exp: Exp, input: Matrix, target: Matrix, rate: real): (r: seq<LayerState>)
    requires Trainable(model, input, target)
    ensures SameArchitecture(model, r) && Trainable(r, input, target)
  {
    var cache := Cache(model, exp, input);
    CacheShapes(model, exp, input, 2 * |model|);
    var r := ApplyGradients(model, Gradients(model, cache, target), rate);
    TrainableKept(model, r, input, target);
    r
  }

  /** A trainable network can run backward on its own cache, and every gradient has its layer's shapes. */
  lemma EpochReady(model: seq<LayerState>, exp: Exp, input: Matrix, target: Matrix)
    requires Trainable(model, input, target)
    ensures BackwardReady(model, Cache(model, exp, input))
    ensures target.rows == Last(Cache(model, exp, input)).rows && target.cols == Last(Cache(model, exp, input)).cols
    ensures GradientsFit(model, Gradients(model, Cache(model, exp, input), target))
  {
    CacheShapes(model, exp, input, 2 * |model|);
    var g := Gradients(model, Cache(model, exp, input), target);
    forall i | 0 <= i < |model|
      ensures HasShape(g[2 * i], model[i].outputSize, model[i].inputSize)
      ensures HasShape(g[2 * i + 1], model[i].outputSize, 1)
    {
      GradientShapes(model, exp, input, target, i);
      GradientsLayout(model, Cache(model, exp, input), target, i);
    }
  }

  /** The cache forward builds has every shape backward asserts on. */
  lemma CacheFitsBackward(model: seq<LayerState>, exp: Exp, input: Matrix)
    requires Accepts(model, input)
    ensures CacheFits(model, Cache(model, exp, input))
  {
    var c := Cache(model, exp, input);
    CacheShapes(model, exp, input, 2 * |model|);
    forall i | 0 <= i < |model|
      ensures EntriesFit(model, c, i)
    {
      CacheShapes(model, exp, input, 2 * i);
      CacheFeedsLayer(model, exp, input, i);
      CacheShapes(model, exp, input, 2 * i + 1);
      CacheShapes(model, exp, input, 2 * i + 2);
    }
  }

  /** Forward, backward on its cache and the update with those gradients make one epoch. */
  lemma EpochOfParts(model: seq<LayerState>, exp: Exp, input: Matrix, target: Matrix, rate: real,
                     outputs: seq<Matrix>, gradients: seq<Matrix>, after: seq<LayerState>)
    requires Trainable(model, input, target)
    requires outputs == Cache(model, exp, input)
    requires BackwardReady(model, outputs) && gradients == Gradients(model, outputs, target)
    requires after == ApplyGradients(model, gradients, rate)
    ensures after == Epoch(model, exp, input, target, rate)
  {
  }

  /** An epoch as a total step on networks: a network it cannot train it leaves alone. */
  function EpochFn(exp: Exp, input: Matrix, target: Matrix, rate: real): seq<LayerState> -> seq<LayerState> {
    (m: seq<LayerState>) => if Trainable(m, input, target) then Epoch(m, exp, input, target, rate) else m
  }

  /** step applied n times. */
  function Iterate(step: seq<LayerState> -> seq<LayerState>, model: seq<LayerState>, n: nat): seq<LayerState>
    decreases n
  {
    if n == 0 then model else step(Iterate(step, model, n - 1))
  }

  lemma {:induction false} IterateAdds(step: seq<LayerState> -> seq<LayerState>, model: seq<LayerState>, a: nat, b: nat)
    ensures Iterate(step, Iterate(step, model, a), b) == Iterate(step, model, a + b)
    decreases b
  {
    if b > 0 {
      IterateAdds(step, model, a, b - 1);
    }
  }

  lemma {:induction false} IterateFixed(step: seq<LayerState> -> seq<LayerState>, model: seq<LayerState>, n: nat)
    requires step(model) == model
    ensures Iterate(step, model, n) == model
    decreases n
  {
    if n > 0 {
      IterateFixed(step, model, n - 1);
    }
  }

  /**
    The network after `epochs` full-batch steps.  Training keeps a network
    trainable (TrainedStep), so EpochFn's branch that leaves an untrainable
    network alone only makes the step total.
  */
  function Trained(model: seq<LayerState>, exp: Exp, input: Matrix, target: Matrix, rate: real, epochs: nat): (r: seq<LayerState>)
    ensures epochs == 0 ==> r == model
  {
    Iterate(EpochFn(exp, input, target, rate), model, epochs)
  }

  /** How often `for (int i = 0; i < epochs; i++)` runs its body: never when epochs <= 0. */
  function Rounds(epochs: int): (n: nat)
    ensures epochs > 0 ==> n == epochs
    ensures epochs <= 0 ==> n == 0
  {
    if epochs > 0 then epochs else 0
  }

  /** The network after `epochs` epochs can be trained again, and one epoch more is one Epoch step from it. */
  lemma TrainedNext(model: seq<LayerState>, exp: Exp, input: Matrix, target: Matrix, rate: real, epochs: nat, current: seq<LayerState>)
    requires Trainable(model, input, target) && current == Trained(model, exp, input, target, rate, epochs)
    ensures Trainable(current, input, target)
    ensures Epoch(current, exp, input, target, rate) == Trained(model, exp, input, target, rate, epochs + 1)
  {
    TrainedStep(model, exp, input, target, rate, epochs);
  }

  /** Training keeps the architecture and trainability, and each further epoch is one Epoch step. */
  lemma {:induction false} TrainedStep(model: seq<LayerState>, exp: Exp, input: Matrix, target: Matrix, rate: real, epochs: nat)
    requires Trainable(model, input, target)
    ensures SameArchitecture(model, Trained(model, exp, input, target, rate, epochs))
    ensures Trainable(Trained(model, exp, input, target, rate, epochs), input, target)
    ensures Trained(model, exp, input, target, rate, epochs + 1)
            == Epoch(Trained(model, exp, input, target, rate, epochs), exp, input, target, rate)
    decreases epochs
  {
    var step := EpochFn(exp, input, target, rate);
    if epochs > 0 {
      TrainedStep(model, exp, input, target, rate, epochs - 1);
      var before := Iterate(step, model, epochs - 1);
      var after := Iterate(step, model, epochs);
      assert after == Epoch(before, exp, input, target, rate);
      assert SameArchitecture(before, after);
      assert SameArchitecture(model, after) by {
        forall i | 0 <= i < |model|
          ensures model[i].inputSize == after[i].inputSize && model[i].outputSize == after[i].outputSize
          ensures model[i].activationFunction == after[i].activationFunction
        {
          assert before[i].inputSize == after[i].inputSize;
        }
      }
    }
  }

  /** Training for a epochs and then for b more is training for a + b epochs. */
  lemma TrainedAdds(model: seq<LayerState>, exp: Exp, input: Matrix, target: Matrix, rate: real, a: nat, b: nat)
    ensures Trained(Trained(model, exp, input, target, rate, a), exp, input, target, rate, b)
            == Trained(model, exp, input, target, rate, a + b)
  {
    IterateAdds(EpochFn(exp, input, target, rate), model, a, b);
  }

  /** With a learning rate of 0 training changes nothing, however many epochs it runs. */
  lemma TrainedZeroRate(model: seq<LayerState>, exp: Exp, input: Matrix, target: Matrix, epochs: nat)
    requires Trainable(model, input, target)
    ensures Trained(model, exp, input, target, 0.0, epochs) == model
  {
    var cache := Cache(model, exp, input);
    CacheShapes(model, exp, input, 2 * |model|);
    ApplyZeroRate(model, Gradients(model, cache, target));
    assert Epoch(model, exp, input, target, 0.0) == model;
    IterateFixed(EpochFn(exp, input, target, 0.0), model, epochs);
  }

  // --------------------------------------------------------------- accuracy

  /** The first row among the first n holding the largest entry of column j (Eigen's maxCoeff index). */
  function ArgMaxUpTo(m: Matrix, j: int, n: nat): (k: nat)
    requires n > 0
    ensures k < n
  {
    if n == 1 then 0
    else
      var k := ArgMaxUpTo(m, j, n - 1);
      if At(m, n - 1, j) > At(m, k, j) then n - 1 else k
  }

  /** ArgMaxUpTo attains the maximum of the first n rows, and no earlier row does. */
  lemma {:induction false} ArgMaxUpToIsFirstMax(m: Matrix, j: int, n: nat)
    requires n > 0
    ensures forall r :: 0 <= r < n ==> At(m, r, j) <= At(m, ArgMaxUpTo(m, j, n), j)
    ensures forall r :: 0 <= r < ArgMaxUpTo(m, j, n) ==> At(m, r, j) < At(m, ArgMaxUpTo(m, j, n), j)
    decreases n
  {
    if n > 1 {
      ArgMaxUpToIsFirstMax(m, j, n - 1);
    }
  }

  /** The predicted class of column j. */
  function ArgMax(m: Matrix, j: int): (k: nat)
    requires m.rows > 0
    ensures k < m.rows
  {
    ArgMaxUpTo(m, j, m.rows)
  }

  /** The predicted class holds the column's maximum, and is the first row that does. */
  lemma ArgMaxIsFirstMax(m: Matrix, j: int)
    requires m.rows > 0
    ensures forall r :: 0 <= r < m.rows ==> At(m, r, j) <= At(m, ArgMax(m, j), j)
    ensures forall r :: 0 <= r < ArgMax(m, j) ==> At(m, r, j) < At(m, ArgMax(m, j), j)
  {
    ArgMaxUpToIsFirstMax(m, j, m.rows);
  }

  /** The number of columns j < n whose predicted class is labels[j]. */
  function CountCorrect(predictions: Matrix, labels: seq<int>, n: nat): (c: nat)
    requires n <= |labels| && (n > 0 ==> predictions.rows > 0)
    ensures c <= n
  {
    if n == 0 then 0
    else CountCorrect(predictions, labels, n - 1) + if ArgMax(predictions, n - 1) == labels[n - 1] then 1 else 0
  }

  /** The count is n exactly when every column is predicted right, and 0 exactly when none is. */
  lemma {:induction false} CountCorrectExtremes(predictions: Matrix, labels: seq<int>, n: nat)
    requires n <= |labels| && (n > 0 ==> predictions.rows > 0)
    ensures CountCorrect(predictions, labels, n) == n <==> forall j :: 0 <= j < n ==> ArgMax(predictions, j) == labels[j]
    ensures CountCorrect(predictions, labels, n) == 0 <==> forall j :: 0 <= j < n ==> ArgMax(predictions, j) != labels[j]
    decreases n
  {
    if n > 0 {
      CountCorrectExtremes(predictions, labels, n - 1);
    }
  }

  /** One turn of the counting loop. */
  lemma CountStep(predictions: Matrix, labels: seq<int>, i: nat)
    requires i < |labels| && predictions.rows > 0
    ensures CountCorrect(predictions, labels, i + 1)
            == CountCorrect(predictions, labels, i) + if ArgMax(predictions, i) == labels[i] then 1 else 0
  {
  }

  lemma RatioInUnit(c: nat, n: nat)
    requires 0 < n && c <= n
    ensures 0.0 <= (c as real) / (n as real) <= 1.0
    ensures (c as real) / (n as real) == 1.0 <==> c == n
  {
    var q := (c as real) / (n as real);
    assert q * (n as real) == c as real;
  }

  /**
    correct / cols; no value when there are no columns, where the source
    divides 0 by 0.
  */
  function AccuracyOf(predictions: Matrix, labels: seq<int>): (a: Option<real>)
    requires predictions.cols <= |labels| && (predictions.cols > 0 ==> predictions.rows > 0)
    ensures a.None? <==> predictions.cols == 0
    ensures a.Some? ==> 0.0 <= a.value <= 1.0
  {
    if predictions.cols == 0 then None
    else
      var c := CountCorrect(predictions, labels, predictions.cols);
      RatioInUnit(c, predictions.cols);
      Some((c as real) / (predictions.cols as real))
  }

  /** The accuracy is 1 exactly when every column is predicted right, and 0 exactly when none is. */
  lemma AccuracyExtremes(predictions: Matrix, labels: seq<int>)
    requires predictions.cols <= |labels| && predictions.cols > 0 && predictions.rows > 0
    ensures AccuracyOf(predictions, labels).value == 1.0 <==>
              forall j :: 0 <= j < predictions.cols ==> ArgMax(predictions, j) == labels[j]
    ensures AccuracyOf(predictions, labels).value == 0.0 <==>
              forall j :: 0 <= j < predictions.cols ==> ArgMax(predictions, j) != labels[j]
  {
    var c := CountCorrect(predictions, labels, predictions.cols);
    RatioInUnit(c, predictions.cols);
    CountCorrectExtremes(predictions, labels, predictions.cols);
    var q := (c as real) / (predictions.cols as real);
    assert q == 0.0 <==> c == 0 by {
      assert q * (predictions.cols as real) == c as real;
    }
  }
}
