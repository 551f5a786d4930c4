/**
  FlexNN::NeuralNetwork: a vector of layers that only training changes.
  Every method is proved against the value-level functions of Propagation,
  applied to the current values of the layers (`Model()`).
*/
module FlexNN {
  import opened Matrices
  import opened Layers
  import opened Propagation
  import Utility

  class NeuralNetwork {
    var layers: seq<Layer>

    /** Every layer is well shaped, and no layer object appears twice. */
    ghost predicate Valid()
      reads this, layers
    {
      (forall i :: 0 <= i < |layers| ==> layers[i].Valid()) && Distinct(layers)
    }

    /** The current values of the layers, in order. */
    function Model(): seq<LayerState>
      reads this, layers
    {
      ValuesOf(layers)
    }

    /** The network keeps its own copy of the given layers, in the given order. */
    constructor (given: seq<Layer>)
      requires forall i :: 0 <= i < |given| ==> given[i].Valid()
      ensures Valid()
      ensures forall i :: 0 <= i < |layers| ==> fresh(layers[i])
      ensures Model() == ValuesOf(given)
    {
      var copies: seq<Layer> := [];
      var i := 0;
      while i < |given|
        invariant 0 <= i <= |given| && |copies| == i
        invariant forall k :: 0 <= k < i ==> fresh(copies[k]) && copies[k].Valid() && copies[k].Value() == given[k].Value()
        invariant forall k, l :: 0 <= k < l < i ==> copies[k] != copies[l]
      {
        var copy := new Layer.Copy(given[i]);
        copies := copies + [copy];
        i := i + 1;
      }
      DistinctFromPairwise(copies);
      layers := copies;
    }

    /** forward: push the input, then Z and A of each layer fed the last entry. */
    method Forward(input: Matrix, exp: Exp) returns (outputs: seq<Matrix>)
      requires Valid() && Accepts(Model(), input)
      ensures outputs == Cache(Model(), exp, input)
    {
      ghost var model := Model();
      outputs := [input];
      var i := 0;
      while i < |layers|
        invariant 0 <= i <= |layers|
        invariant outputs == Cache(model[..i], exp, input)
      {
        ForwardFeeds(model, exp, input, outputs, i);
        assert layers[i].Value() == model[i];
        var z, a := layers[i].Forward(outputs[|outputs| - 1], exp);
        ForwardPush(model, exp, input, outputs, i, z, a);
        outputs := outputs + [z] + [a];
        i := i + 1;
      }
      assert model[..|layers|] == model;
    }

    /** predict: the last entry of the forward cache. */
    method Predict(input: Matrix, exp: Exp) returns (output: Matrix)
      requires Valid() && Accepts(Model(), input)
      ensures output == Output(Model(), exp, input)
    {
      var outputs := Forward(input, exp);
      output := outputs[|outputs| - 1];
    }

    /**
      backward: dZ of the output layer, then of each earlier layer from the one
      after it; each layer's (db, dW) is pushed, and the list is reversed.
    */
    method Backward(outputs: seq<Matrix>, target: Matrix) returns (gradients: seq<Matrix>)
      requires Valid() && BackwardReady(Model(), outputs) && CacheFits(Model(), outputs)
      requires target.rows == outputs[|outputs| - 1].rows && target.cols == outputs[|outputs| - 1].cols
      ensures gradients == Gradients(Model(), outputs, target)
    {
      ghost var model := Model();
      var count := |layers|;
      var pushed: seq<Matrix> := [];
      var dZs: seq<Matrix> := [];
      var dZ := Minus(outputs[|outputs| - 1], target);
      dZs := dZs + [dZ];
      var m := dZ.cols;
      var db := RowMean(dZ);
      var dW := DivScalar(MatMul(dZ, Transpose(outputs[|outputs| - 3])), m as real);
      BackwardStart(model, outputs, target, dZ, db, dW);
      pushed := pushed + [db];
      pushed := pushed + [dW];
      var i := count - 2;
      while i >= 0
        invariant BackwardSoFar(model, outputs, target, i, dZs, pushed)
        decreases i + 1
      {
        assert layers[i].Value() == model[i] && layers[i + 1].Value() == model[i + 1];
        dZ := layers[i].Backward(layers[i + 1].GetWeights(), dZs[|dZs| - 1], outputs[2 * i + 1]);
        db := RowMean(dZ);
        dW := DivScalar(MatMul(dZ, Transpose(outputs[2 * i])), m as real);
        BackwardStep(model, outputs, target, i, dZs, pushed, dZ, db, dW);
        dZs := dZs + [dZ];
        pushed := pushed + [db];
        pushed := pushed + [dW];
        i := i - 1;
      }
      BackwardDone(model, outputs, target, dZs, pushed);
      gradients := Reversed(pushed);
    }

    /** updateWeights: layer i takes gradients[2i] as dW and gradients[2i + 1], as a vector, as db. */
    method UpdateWeights(gradients: seq<Matrix>, learningRate: real)
      requires Valid() && GradientsFit(Model(), gradients)
      modifies layers
      ensures Valid()
      ensures Model() == ApplyGradients(old(Model()), gradients, learningRate)
    {
      ghost var before := Model();
      ghost var after := ApplyGradients(before, gradients, learningRate);
      var i := 0;
      while i < |layers|
        invariant 0 <= i <= |layers|
        invariant Valid()
        invariant forall k :: 0 <= k < |layers| ==> layers[k].Value() == if k < i then after[k] else before[k]
      {
        DistinctApart(layers, i);
        var dW := gradients[2 * i];
        var db := ToVector(gradients[2 * i + 1]);
        layers[i].UpdateWeights(dW, db, learningRate);
        i := i + 1;
      }
    }

    /** accuracy: the share of columns whose first maximal row is the label. */
    method Accuracy(X: Matrix, labels: seq<int>, exp: Exp) returns (accuracy: Option<real>)
      requires Valid() && Accepts(Model(), X)
      requires X.cols <= |labels|
      requires X.cols > 0 ==> OutputRows(Model(), X) > 0
      ensures accuracy == AccuracyOf(Output(Model(), exp, X), labels)
    {
      var predictions := Predict(X, exp);
      var correct := 0;
      var i := 0;
      while i < predictions.cols
        invariant 0 <= i <= predictions.cols
        invariant correct == CountCorrect(predictions, labels, i)
      {
        CountStep(predictions, labels, i);
        var predictedClass := ArgMax(predictions, i);
        if predictedClass == labels[i] {
          correct := correct + 1;
        }
        i := i + 1;
      }
      if predictions.cols == 0 {
        accuracy := None;
      } else {
        accuracy := Some((correct as real) / (predictions.cols as real));
      }
    }

    /**
      train: one-hot targets of width max label + 1, then `epochs` rounds of
      forward, backward and update (none when epochs <= 0).
    */
    method Train(input: Matrix, labels: seq<int>, learningRate: real, epochs: int, exp: Exp)
      requires Valid() && |labels| > 0 && Utility.MaxLabel(labels) >= -1
      requires epochs > 0 ==> Trainable(Model(), input, Utility.OneHot(labels, Utility.MaxLabel(labels) + 1))
      modifies layers
      ensures Valid()
      ensures Model() == Trained(old(Model()), exp, input, Utility.OneHot(labels, Utility.MaxLabel(labels) + 1),
                                 learningRate, Rounds(epochs))
    {
      var target := Utility.OneHot(labels, Utility.MaxLabel(labels) + 1);
      ghost var start := Model();
      var epoch := 0;
      while epoch < epochs
        invariant 0 <= epoch <= Rounds(epochs)
        invariant Valid()
        invariant Model() == Trained(start, exp, input, target, learningRate, epoch)
      {
        TrainEpoch(input, target, learningRate, exp, start, epoch);
        epoch := epoch + 1;
      }
    }

    /** One pass of train's loop, stated against the number of epochs run so far. */
    method TrainEpoch(input: Matrix, target: Matrix, learningRate: real, exp: Exp, ghost start: seq<LayerState>, ghost epoch: nat)
      requires Valid() && Trainable(start, input, target)
      requires Model() == Trained(start, exp, input, target, learningRate, epoch)
      modifies layers
      ensures Valid() && Model() == Trained(start, exp, input, target, learningRate, epoch + 1)
    {
      TrainedNext(start, exp, input, target, learningRate, epoch, Model());
      RunEpoch(input, target, learningRate, exp);
    }

    /** The body of train's loop: forward, backward, then updateWeights with the gradients. */
    method RunEpoch(input: Matrix, target: Matrix, learningRate: real, exp: Exp)
      requires Valid() && Trainable(Model(), input, target)
      modifies layers
      ensures Valid()
      ensures Model() == Epoch(old(Model()), exp, input, target, learningRate)
    {
      ghost var before := Model();
      EpochReady(before, exp, input, target);
      CacheFitsBackward(before, exp, input);
      var outputs := Forward(input, exp);
      var gradients := Backward(outputs, target);
      UpdateWeights(gradients, learningRate);
      EpochOfParts(before, exp, input, target, learningRate, outputs, gradients, Model());
    }
  }
}
