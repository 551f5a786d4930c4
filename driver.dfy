/**
  The logic of src/main.cpp besides reading the CSV file: its own copy of
  oneHotEncode, and the program itself, which builds a two-layer network
  (features -> 10 with ReLU, 10 -> 10 with softmax), trains it for 500
  epochs at rate 0.5 and scores it on the training data.  The CSV rows, the
  random initial weights and `exp` are parameters.
*/
module Driver {
  import opened Matrices
  import opened Layers
  import opened Propagation
  import Utility
  import BasicNN

  /**
    main.cpp's oneHotEncode: the same zero matrix and the same writes as the
    library's, so it returns exactly the library's one-hot matrix.
  */
  method OneHotEncode(labels: seq<int>, numClasses: nat) returns (oneHot: Matrix)
    ensures oneHot == Utility.OneHot(labels, numClasses)
  {
    oneHot := Zero(numClasses, |labels|);
    var i := 0;
    while i < |labels|
      invariant 0 <= i <= |labels|
      invariant HasShape(oneHot, numClasses, |labels|)
      invariant forall r, c :: 0 <= r < numClasses && 0 <= c < |labels| ==>
                  At(oneHot, r, c) == if c < i && labels[c] == r then 1.0 else 0.0
    {
      var y := labels[i];
      if y >= 0 && y < numClasses {
        oneHot := SetEntry(oneHot, y, i, 1.0);
      }
      i := i + 1;
    }
    Extensionality(oneHot, Utility.OneHot(labels, numClasses));
  }

  /** main trains for this many epochs at this learning rate. */
  const MainEpochs: nat := 500
  const MainRate: real := 0.5

  /** The two layers main builds, with the initial weights they were given. */
  function MainModel(features: nat, W0: Matrix, b0: Vector, W1: Matrix, b1: Vector): (m: seq<LayerState>)
    ensures |m| == 2 && m[0].inputSize == features && m[1].outputSize == 10
    ensures Chained(m) && HiddenNotSoftmax(m)
    ensures ActivationOf(m[0].activationFunction) == ReluActivation
    ensures ActivationOf(m[1].activationFunction) == SoftmaxActivation
    ensures AllWellShaped(m) <==> HasShape(W0, 10, features) && |b0| == 10 && HasShape(W1, 10, 10) && |b1| == 10
  {
    var m := [LayerState(features, 10, "relu", W0, b0), LayerState(10, 10, "softmax", W1, b1)];
    assert Linked(m, 0);
    m
  }

  /**
    main's network fits together: the sizes chain features -> 10 -> 10, only
    the output layer is softmax, and with a data set of `features` rows and
    labels 0 .. 9 (so one-hot width 10) it can be trained.
  */
  lemma MainModelTrainable(X: Matrix, labels: seq<int>, W0: Matrix, b0: Vector, W1: Matrix, b1: Vector)
    requires HasShape(W0, 10, X.rows) && |b0| == 10 && HasShape(W1, 10, 10) && |b1| == 10
    requires WellFormed(X) && X.cols == |labels| && X.cols > 0 && Utility.MaxLabel(labels) == 9
    ensures Trainable(MainModel(X.rows, W0, b0, W1, b1), X, Utility.OneHot(labels, Utility.MaxLabel(labels) + 1))
  {
    var model := MainModel(X.rows, W0, b0, W1, b1);
    assert Linked(model, 0);
    assert ActivationOf(model[0].activationFunction) == ReluActivation;
  }

  /** After main's training the network still accepts X and ends in 10 rows, so accuracy can score it. */
  lemma MainModelTrained(X: Matrix, labels: seq<int>, W0: Matrix, b0: Vector, W1: Matrix, b1: Vector, exp: Exp)
    requires HasShape(W0, 10, X.rows) && |b0| == 10 && HasShape(W1, 10, 10) && |b1| == 10
    requires WellFormed(X) && X.cols == |labels| && X.cols > 0 && Utility.MaxLabel(labels) == 9
    ensures Accepts(Trained(MainModel(X.rows, W0, b0, W1, b1), exp, X, Utility.OneHot(labels, Utility.MaxLabel(labels) + 1), MainRate, MainEpochs), X)
    ensures OutputRows(Trained(MainModel(X.rows, W0, b0, W1, b1), exp, X, Utility.OneHot(labels, Utility.MaxLabel(labels) + 1), MainRate, MainEpochs), X) == 10
  {
    MainModelTrainable(X, labels, W0, b0, W1, b1);
    TrainedStep(MainModel(X.rows, W0, b0, W1, b1), exp, X, Utility.OneHot(labels, Utility.MaxLabel(labels) + 1), MainRate, MainEpochs);
  }

  /** The network main builds: layers features -> 10 ("relu") and 10 -> 10 ("softmax"). */
  method BuildNetwork(features: nat, W0: Matrix, b0: Vector, W1: Matrix, b1: Vector) returns (nn: BasicNN.NeuralNetwork)
    requires HasShape(W0, 10, features) && |b0| == 10 && HasShape(W1, 10, 10) && |b1| == 10
    ensures fresh(nn) && nn.Valid()
    ensures forall i :: 0 <= i < |nn.layers| ==> fresh(nn.layers[i])
    ensures nn.Model() == MainModel(features, W0, b0, W1, b1)
  {
    var hidden := new Layer(features, 10, W0, b0, "relu");
    var output := new Layer(10, 10, W1, b1, "softmax");
    nn := new BasicNN.NeuralNetwork([hidden, output]);
  }

  /**
    main without the file reading and the printing: build the network, train
    it for 500 epochs at rate 0.5 on (X, labels), then score it on the same
    data.  The score lies in [0, 1].
  */
  method TrainAndScore(X: Matrix, labels: seq<int>, W0: Matrix, b0: Vector, W1: Matrix, b1: Vector, exp: Exp)
    returns (nn: BasicNN.NeuralNetwork, accuracy: Option<real>)
    requires HasShape(W0, 10, X.rows) && |b0| == 10 && HasShape(W1, 10, 10) && |b1| == 10
    requires WellFormed(X) && X.cols == |labels| && X.cols > 0 && Utility.MaxLabel(labels) == 9
    ensures nn.Model() == Trained(MainModel(X.rows, W0, b0, W1, b1), exp, X, Utility.OneHot(labels, Utility.MaxLabel(labels) + 1), MainRate, MainEpochs)
    ensures Accepts(nn.Model(), X) && OutputRows(nn.Model(), X) == 10
    ensures accuracy == AccuracyOf(Output(nn.Model(), exp, X), labels)
    ensures accuracy.Some? && 0.0 <= accuracy.value <= 1.0
  {
    nn := BuildNetwork(X.rows, W0, b0, W1, b1);
    MainModelTrainable(X, labels, W0, b0, W1, b1);
    nn.Train(X, labels, MainRate, MainEpochs, exp);
    MainModelTrained(X, labels, W0, b0, W1, b1, exp);
    accuracy := nn.Accuracy(X, labels, exp);
  }
}
