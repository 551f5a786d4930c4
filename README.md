# FlexNN in Dafny

FlexNN is a small C++ library for fully connected neural networks built
on Eigen matrices. A **layer** holds a weight matrix `W` (output size ×
input size), a bias vector `b` and the name of its activation (`"relu"`,
`"softmax"`, or anything else for the identity). Data is laid out one sample
per column.

A **network** is a vector of layers. It offers the following operations:

- `forward` returns the cache `[input, Z1, A1, …, ZL, AL]`.
- `predict` returns the last activation of that cache.
- `backward` turns the cache and a one-hot target into the list
  `[dW1, db1, …, dWL, dbL]`.
- `updateWeights` takes one gradient-descent step on every layer.
- `train` one-hot encodes the labels, then runs forward, backward and
  update for a given number of epochs.
- `accuracy` is the share of columns whose first maximal row equals the
  label.

The library also has:

- `oneHotEncode`;
- a CSV reader;
- `splitXY`, which shuffles the rows and cuts them into consecutive windows
  sized by proportions.

The network class exists twice: `FlexNN::NeuralNetwork` is split over
`FlexNN.h` and `FlexNN.cpp`, and `BasicNN::NeuralNetwork` in `BasicNN.h` is
header-only. The demo program `main.cpp` trains a features → 10 → 10 network for
500 epochs at rate 0.5 and prints its accuracy on its training data.

## Modules

| file | module | contents |
|---|---|---|
| `matrices.dfy` | `Matrices` | Eigen's dense matrices as a datatype carrying its shape, the matrix operations the code uses, and permutations of 0 .. n-1 |
| `layer.dfy` | `Layers` | One layer as a value (`LayerState`) and the value-level forward pass, backward pass and update step; softmax is a distribution; the class `Layer`, whose methods are proved against those functions |
| `propagation.dfy` | `Propagation` | The network as a sequence of layer values: the forward cache, the gradient list, one update, an epoch, `epochs` rounds of training and accuracy, each with its lemmas |
| `flexnn.dfy` | `FlexNN` | `FlexNN::NeuralNetwork` as a class over a sequence of `Layer` objects; each method is proved equal to the matching `Propagation` function of the current layer values |
| `basicnn.dfy` | `BasicNN` | `BasicNN::NeuralNetwork`, proved against the same functions |
| `utility.dfy` | `Utility` | `oneHotEncode` and `splitXY`, including its `size_t` arithmetic and its windows over the shuffled row order |
| `column_order.dfy` | `ColumnOrder` | The forward pass treats every sample column on its own, so reordering the columns of X and the labels alike leaves the accuracy unchanged |
| `driver.dfy` | `Driver` | `main.cpp` without file reading and printing: its own `oneHotEncode` and the build–train–score sequence |

Other modelling choices:

- `double` is modelled as `real`.
- The exponential is a parameter `exp` of type `Exp`: any function to
  positive reals.
- The random initial weights are parameters, and so is the result of the
  shuffle.

## Model

| member | source | states |
|---|---|---|
| Layers.ActivationOf | lib/Layer.cpp:11-31 | the activation is ReLU exactly when the name is "relu" and softmax exactly when it is "softmax"; any other name is the identity |
| Layers.UnrecognisedIsIdentity | lib/Layer.cpp:28-31 | an unrecognised activation name leaves Z unchanged (A == Z) |
| Layers.Linear | lib/Layer.cpp:9 | `W * input` with b added to every column has W.rows rows and one column per sample |
| Layers.Relu | lib/Layer.cpp:11-15 | every entry is max(0, z), and the shape is that of Z |
| Layers.ColumnMax | lib/Layer.cpp:23 | the column maximum is at least every entry of the column and equals one of them |
| Layers.ShiftedExps | lib/Layer.cpp:24 | `(col.array() - maxCoeff).exp()` has one entry per row of Z, and every entry is positive |
| Layers.Divide | lib/Layer.cpp:25 | `expCol / expCol.sum()` divides every entry by the sum and keeps the length |
| Layers.SoftmaxIsDistribution | lib/Layer.cpp:16-27 | every column of the stable softmax sums to 1, and each entry lies in (0, 1] |
| Layers.SoftmaxColumn | lib/Layer.cpp:20-26 | one softmax column has a row per row of Z; its entries lie in (0, 1] and sum to 1 whenever Z has rows |
| Layers.DividedInUnit | lib/Layer.cpp:25 | dividing positive terms by their sum gives values in (0, 1], and the sum is positive |
| Layers.Softmax | lib/Layer.cpp:16-27 | the softmax has Z's shape, and entry (i, j) is entry i of the softmax of column j |
| Layers.Activate | lib/Layer.cpp:11-31 | the activation keeps Z's shape and well-formedness, and the identity returns Z itself |
| Layers.SetColumn | lib/Layer.cpp:25 | assigning a column changes that column only |
| Layers.LayerForward | lib/Layer.cpp:7-33 | Z and A both have W.rows rows and as many columns as the input |
| Layers.IdentityScenario | lib/Layer.cpp:9 | a 1×2 layer with weights [2, 3], bias 1 and an unknown activation maps input (1, 1) to Z = A = [6] |
| Layers.LayerBackward | lib/Layer.cpp:36-54 | dZ has the shape of `nextWᵀ·nextdZ`; for ReLU each entry is that product where currZ > 0 and 0 elsewhere; for the identity it is the product itself |
| Layers.Step | include/Layer.h:31-35 | `W -= rate·dW` and `b -= rate·db` entry by entry; sizes and activation name are kept, and well-shapedness is preserved |
| Layers.StepStill | include/Layer.h:31-35 | a step at rate 0, or with zero gradients, leaves the layer unchanged |
| Layers.Layer.constructor | include/Layer.h:13-19 | the new layer holds the given sizes, activation name (default "relu") and the initial W and b |
| Layers.Layer.GetWeights | include/Layer.h:21-24 | returns W, of shape outputSize × inputSize |
| Layers.Layer.GetBiases | include/Layer.h:26-29 | returns b, of length outputSize |
| Layers.Layer.Copy | include/FlexNN.h:45 | the copy that the vector constructor makes is well shaped and has the same value as the original |
| Layers.Layer.Forward | lib/Layer.cpp:7-33 | the column-by-column softmax loop computes exactly `LayerForward` of the layer's value |
| Layers.Layer.Backward | lib/Layer.cpp:36-54 | dZ has the shape of `nextWᵀ·nextdZ`; a "relu" layer gives 0 where its Z is not positive and the product elsewhere, any other non-softmax name gives the product; this is `LayerBackward` for the layer's activation |
| Layers.Layer.UpdateWeights | include/Layer.h:31-35 | the new value of the layer is `Step` applied to the old value |
| Layers.DistinctApart | include/FlexNN.h:93 | in a vector without repeated layer objects, the objects at two different indices are different objects; together with the frame of `Layer.UpdateWeights` (`modifies this`) this is why updating one layer leaves the others untouched |
| Matrices.Transpose | lib/FlexNN.cpp:110 | the transpose swaps the shape and the indices |
| Matrices.MatMul | lib/Layer.cpp:9 | `W * input` has W's rows and input's columns, and entry (i, j) is the dot product of row i of W with column j of input |
| Matrices.AddToColumns | lib/Layer.cpp:9 | `.colwise() + b` keeps the shape and adds b[i] to every entry of row i |
| Matrices.RowMean | lib/FlexNN.cpp:109 | `rowwise().mean()` is one column whose entry i times the column count is the sum of row i |
| Matrices.Minus | lib/FlexNN.cpp:106 | `outputs.back() - target` is taken entry by entry |
| Matrices.ToVector | lib/FlexNN.cpp:139 | converting a one-column gradient to a vector keeps column 0 |
| Matrices.DescendStill | include/Layer.h:33 | `W -= 0·dW` is W, and so is `W -= rate·0` |
| Matrices.Descend | include/Layer.h:33 | `W -= rate·dW` keeps W's shape, and each entry becomes w - rate·d |
| Matrices.DescendVector | include/Layer.h:34 | `b -= rate·db` keeps b's length, and each entry becomes b - rate·d |
| Matrices.Zero | lib/Utility.cpp:12 | `MatrixXd::Zero(rows, cols)` has the given shape and every entry 0 |
| Matrices.SetEntry | lib/Utility.cpp:16-17 | `oneHot(y, i) = 1` changes entry (y, i) only and keeps the shape |
| Matrices.SetRow | lib/Utility.cpp:101 | copying a row into row i changes that row only and keeps the shape |
| Matrices.DivScalar | lib/FlexNN.cpp:110 | `/ m` keeps the shape (DivScalarEntries gives the entries) |
| Matrices.DivScalarEntries | lib/FlexNN.cpp:110 | every entry of the quotient, times m, is the entry it came from |
| Propagation.Reversed | lib/FlexNN.cpp:120 | entry k of the reversed list is entry n-1-k of the list |
| Propagation.Last | lib/FlexNN.cpp:106 | `outputs.back()` is the entry at the end of the list |
| Propagation.ReversedTwice | lib/FlexNN.cpp:120 | reversing twice gives back the list |
| Propagation.Cache | lib/FlexNN.cpp:78-89 | the cache has 2L+1 entries and begins with the input |
| Propagation.CachePrefix | lib/FlexNN.cpp:82-87 | the cache of the first k layers is the first 2k+1 entries of the full cache |
| Propagation.CacheLayout | lib/FlexNN.cpp:84-86 | entries 2i+1 and 2i+2 are Z and A of layer i fed entry 2i |
| Propagation.CacheShapes | lib/FlexNN.cpp:78-89 | every cache entry is well formed with one column per sample; entry 2i+1 and 2i+2 have layer i's output size as row count |
| Propagation.CacheFeedsLayer | lib/FlexNN.cpp:84 | when the sizes chain, the entry fed to layer i has layer i's input size as row count |
| Propagation.OutputIsFinalActivation | include/FlexNN.h:80-84 | the prediction is the input for an empty network and the last layer's activation otherwise |
| Propagation.Output | include/FlexNN.h:80-84 | for well-shaped layers and a well-formed input, the prediction has the last layer's output size as row count (the input's with no layers) and one column per sample |
| Propagation.FinalShape | lib/FlexNN.cpp:78-89 | the last entry of the forward cache of well-shaped layers has the last layer's output size as row count and the input's columns |
| Propagation.ForwardPush | lib/FlexNN.cpp:84-86 | pushing Z and A of the next layer extends the cache by one layer |
| Propagation.LayerGradients | lib/FlexNN.cpp:106-118 | dZ of the output layer has the prediction's shape; dZ of every earlier layer i has as many rows as the next layer's weight matrix has columns, and every dZ has one column per sample |
| Propagation.GradientsLayout | lib/FlexNN.cpp:101-123 | after the reversal, entry 2i of the gradient list is dW of layer i and entry 2i+1 is its db, for every layer |
| Propagation.GradientShapes | lib/FlexNN.cpp:109-117 | dW of layer i has W's shape and db is a column of b's length |
| Propagation.GradientPairs | lib/FlexNN.cpp:101-123 | the gradients of the first n layers are 2n matrices (their layout is GradientsLayout) |
| Propagation.Gradients | lib/FlexNN.cpp:101-123 | backward's list has two entries, dW and db, per layer |
| Propagation.BackwardStart | lib/FlexNN.cpp:106-110 | the seed `dZ = A_L - target` with its db and dW is the first step of the specified list |
| Propagation.BackwardStep | lib/FlexNN.cpp:112-118 | one turn of the loop extends the pushed list by the specified (db, dW) of layer i |
| Propagation.BackwardDone | lib/FlexNN.cpp:120 | reversing the pushed list yields the specified gradients |
| Propagation.CacheFitsBackward | lib/FlexNN.cpp:34-35 | the cache that forward builds for a network and an input it accepts has every shape backward asserts on: chained layers, and entries 2i, 2i+1 and 2i+2 with layer i's input, output and output rows and one column per sample |
| Propagation.ApplyGradients | lib/FlexNN.cpp:134-142 | updating keeps every layer's sizes and activation name, and keeps well-shapedness |
| Propagation.ApplyGradientsLocal | lib/FlexNN.cpp:136-141 | layer i is stepped with gradients[2i] and gradients[2i+1] alone; any list that agrees on those two entries gives the same layer |
| Propagation.ApplyZeroRate | lib/FlexNN.cpp:134-142 | an update at rate 0 changes nothing |
| Propagation.TrainableKept | lib/FlexNN.cpp:32-36 | a network that is fit to train stays fit after any step that keeps its architecture |
| Propagation.Epoch | lib/FlexNN.cpp:34-36 | one epoch keeps the architecture and leaves a network still fit to train |
| Propagation.EpochReady | lib/FlexNN.cpp:34-36 | for a trainable network the cache feeds backward and the gradients fit updateWeights |
| Propagation.EpochOfParts | lib/FlexNN.cpp:34-36 | forward, backward, then updateWeights, each as specified, is exactly one epoch |
| Propagation.IterateAdds | lib/FlexNN.cpp:32 | a runs of a step and then b runs equal a+b runs |
| Propagation.IterateFixed | lib/FlexNN.cpp:32 | iterating a step that fixes a network leaves the network unchanged |
| Propagation.TrainedStep | lib/FlexNN.cpp:32-41 | training keeps the architecture and fitness to train, and e+1 epochs are one more epoch after e |
| Propagation.TrainedAdds | lib/FlexNN.cpp:32-41 | training for a epochs and then b epochs equals training for a+b |
| Propagation.Trained | lib/FlexNN.cpp:32-41 | training for zero epochs leaves the network as it was |
| Propagation.TrainedNext | lib/FlexNN.cpp:32-41 | the network after e epochs is still fit to train, and one epoch of it is the network after e + 1 epochs |
| Propagation.Rounds | lib/FlexNN.cpp:32 | the loop `for (epoch = 0; epoch < epochs; ++epoch)` runs its body `epochs` times when epochs > 0 and never otherwise |
| Propagation.TrainedZeroRate | lib/FlexNN.cpp:29-42 | training at rate 0 leaves the network unchanged for any number of epochs |
| Propagation.ArgMaxUpToIsFirstMax | lib/FlexNN.cpp:60 | the partial scan returns the first row holding the maximum |
| Propagation.ArgMaxUpTo | lib/FlexNN.cpp:60 | the scan of the first n rows returns one of those rows |
| Propagation.ArgMaxIsFirstMax | lib/FlexNN.cpp:60 | `maxCoeff(&i)` returns the first row holding the column maximum: no row is larger, and every earlier row is smaller |
| Propagation.ArgMax | lib/FlexNN.cpp:60 | the predicted class of a column is a row index of the prediction |
| Propagation.CountCorrect | lib/FlexNN.cpp:56-65 | the count of correct columns is at most the number of columns |
| Propagation.CountCorrectExtremes | lib/FlexNN.cpp:56-65 | the count is n exactly when every column matches its label, and 0 exactly when none does |
| Propagation.RatioInUnit | lib/FlexNN.cpp:66 | correct / total lies in [0, 1] and is 1 exactly when c == n |
| Propagation.AccuracyOf | lib/FlexNN.cpp:53-67 | accuracy is undefined exactly when there are no columns; otherwise it lies in [0, 1] |
| Propagation.AccuracyExtremes | lib/FlexNN.cpp:53-67 | accuracy is 1 exactly when every prediction matches its label, and 0 exactly when none does |
| FlexNN.NeuralNetwork.constructor | include/FlexNN.h:45 | the network holds fresh copies of the given layers, in order, with the same values |
| FlexNN.NeuralNetwork.Forward | lib/FlexNN.cpp:78-89 | the outputs are the specified cache `[input, Z1, A1, …]` of the current layers |
| FlexNN.NeuralNetwork.Predict | include/FlexNN.h:80-84 | the result is the last entry of the forward cache |
| FlexNN.NeuralNetwork.Backward | lib/FlexNN.cpp:101-123 | on a cache with the shapes Eigen asserts on (CacheFits), the gradients are the specified list `[dW1, db1, …, dWL, dbL]` |
| FlexNN.NeuralNetwork.UpdateWeights | lib/FlexNN.cpp:134-142 | the new layer values are the old ones with every layer stepped by its own pair of gradients |
| FlexNN.NeuralNetwork.Accuracy | lib/FlexNN.cpp:53-67 | the counting loop returns the accuracy of the prediction against the labels |
| FlexNN.NeuralNetwork.Train | lib/FlexNN.cpp:29-42 | the layers end as `Rounds(epochs)` epochs of training on the one-hot targets of width max label + 1: `epochs` epochs, none when epochs ≤ 0 |
| FlexNN.NeuralNetwork.RunEpoch | lib/FlexNN.cpp:34-36 | one turn of the training loop is one epoch |
| FlexNN.NeuralNetwork.TrainEpoch | lib/FlexNN.cpp:32-41 | a turn of the loop after e epochs leaves the network as e + 1 epochs of training |
| BasicNN.NeuralNetwork.constructor | include/BasicNN.h:17 | the network holds fresh copies of the given layers, in order, with the same values |
| BasicNN.NeuralNetwork.Forward | include/BasicNN.h:56-67 | the outputs are the specified forward cache of the current layers |
| BasicNN.NeuralNetwork.Predict | include/BasicNN.h:33-37 | the result is the last entry of the forward cache |
| BasicNN.NeuralNetwork.Backward | include/BasicNN.h:69-91 | on a cache with the shapes Eigen asserts on (CacheFits), the gradients are the specified list `[dW1, db1, …, dWL, dbL]` |
| BasicNN.NeuralNetwork.UpdateWeights | include/BasicNN.h:93-101 | every layer is stepped by its own pair of gradients |
| BasicNN.NeuralNetwork.Accuracy | include/BasicNN.h:39-50 | the counting loop returns the accuracy of the prediction against the labels |
| BasicNN.NeuralNetwork.Train | include/BasicNN.h:19-31 | the layers end as `Rounds(epochs)` epochs of training on the one-hot targets of width max label + 1: `epochs` epochs, none when epochs ≤ 0 |
| BasicNN.NeuralNetwork.RunEpoch | include/BasicNN.h:24-26 | one turn of the training loop is one epoch |
| BasicNN.NeuralNetwork.TrainEpoch | include/BasicNN.h:22-30 | a turn of the loop after e epochs leaves the network as e + 1 epochs of training |
| Utility.OneHotEncode | lib/Utility.cpp:11-21 | the loop over the labels builds exactly the one-hot matrix |
| Utility.OneHotInRange | lib/Utility.cpp:17-18 | the column of a label in range has a single 1, in the label's row, and sums to 1 |
| Utility.OneHotOutOfRange | lib/Utility.cpp:17 | the column of a label out of range is all zeros |
| Utility.OneHot | lib/Utility.cpp:11-21 | the one-hot matrix has numClasses rows and one column per label (its columns are OneHotInRange and OneHotOutOfRange) |
| Utility.MaxLabel | lib/FlexNN.cpp:31 | `maxCoeff` of the labels is an upper bound of the labels and one of them |
| Utility.OneHotWidthCoversLabels | lib/FlexNN.cpp:31 | with width max label + 1, every non-negative label gets a column summing to 1 |
| Utility.RawSize | lib/Utility.cpp:85 | `static_cast<size_t>(p·n)` truncates toward zero |
| Utility.RawSizes | lib/Utility.cpp:83-88 | the sizes loop pushes one truncated size per proportion |
| Utility.SumMod | lib/Utility.cpp:87 | `total += sz` accumulates in a size_t, so the total stays below 2^64 |
| Utility.SumModExact | lib/Utility.cpp:87 | the size_t running total equals the true sum while the sum fits |
| Utility.WrapAround | lib/Utility.cpp:91 | `last += n - total` in size_t arithmetic gives n minus the other sizes, even when `n - total` itself wraps |
| Utility.SplitSizesLast | lib/Utility.cpp:90-91 | the last size is n minus the other raw sizes |
| Utility.SplitSizesCover | lib/Utility.cpp:83-91 | the sizes add up to n, and every size but the last is its raw truncated size |
| Utility.SplitSizes | lib/Utility.cpp:83-91 | there is one size per proportion |
| Utility.LastSize | lib/Utility.cpp:91 | the patched last size is a size_t value, below 2^64 |
| Utility.SumModPush | lib/Utility.cpp:87 | pushing a size adds it to the size_t running total modulo 2^64 |
| Utility.ComputeSizes | lib/Utility.cpp:81-91 | the sizes loop and the patch of the last size compute the specified sizes |
| Utility.StartMonotone | lib/Utility.cpp:94-107 | window starts never decrease |
| Utility.Start | lib/Utility.cpp:94-107 | split k starts at the sum of the sizes before it |
| Utility.StartStep | lib/Utility.cpp:106 | `start += sz`: the next split starts where this one ends |
| Utility.Window | lib/Utility.cpp:97-105 | a split holds, in order, rows order[start..start+size) of X and the same entries of Y, and that window lies inside the order |
| Utility.WindowInside | lib/Utility.cpp:94-107 | every window ends within the total of the sizes |
| Utility.LocateWindow | lib/Utility.cpp:94-107 | every position below the total lies in some window |
| Utility.WindowsDisjoint | lib/Utility.cpp:94-107 | no position lies in two windows |
| Utility.EveryRowInOneWindow | lib/Utility.cpp:71-107 | over a permutation of the rows, every row of X lands in exactly one split at exactly one position |
| Utility.CopyWindow | lib/Utility.cpp:97-105 | the split holds rows indices[start..start+sz) of X, and the same entries of Y, in order |
| Utility.SplitXY | lib/Utility.cpp:68-109 | there is one split per proportion; split k is the window of the shuffled order starting at the sum of the earlier sizes |
| Utility.SplitThirds | lib/Utility.cpp:83-91 | proportions 0.33, 0.33, 0.33 over 10 rows give sizes 3, 3, 4 |
| Utility.SplitHalves | lib/Utility.cpp:83-91 | proportions 0.5, 0.5 over 10 rows give sizes 5, 5 |
| Driver.OneHotEncode | src/main.cpp:44-52 | main's own copy builds exactly the library's one-hot matrix |
| Driver.MainModelTrainable | src/main.cpp:63-66 | the network features → 10 (ReLU) → 10 (softmax) is fit to train on labels whose maximum is 9 |
| Driver.MainModelTrained | src/main.cpp:71 | after 500 epochs the network still accepts X and outputs 10 rows |
| Driver.MainModel | src/main.cpp:63-66 | main's network: two layers, features → 10 and 10 → 10, chained, ReLU then softmax, and well shaped exactly when the initial weights and biases have the layers' shapes |
| Driver.BuildNetwork | src/main.cpp:63-66 | the network holds the two layers with the given initial weights |
| Driver.TrainAndScore | src/main.cpp:54-76 | the network ends as 500 epochs of training at rate 0.5, and the printed accuracy is that network's accuracy on X, a value in [0, 1] |
| ColumnOrder.MatMulPermuted | lib/Layer.cpp:9 | multiplying the reordered input by W gives the product with its columns reordered alike |
| ColumnOrder.AddToColumnsPermuted | lib/Layer.cpp:9 | adding the bias commutes with reordering the columns |
| ColumnOrder.LinearPermuted | lib/Layer.cpp:9 | the linear step commutes with reordering the columns |
| ColumnOrder.ReluPermuted | lib/Layer.cpp:11-15 | ReLU commutes with reordering the columns |
| ColumnOrder.SoftmaxColumnOneColumn | lib/Layer.cpp:20-26 | a softmax column depends on the entries of that column alone |
| ColumnOrder.SoftmaxPermuted | lib/Layer.cpp:16-27 | the column-wise softmax commutes with reordering the columns |
| ColumnOrder.ActivatePermuted | lib/Layer.cpp:11-31 | every activation commutes with reordering the columns |
| ColumnOrder.LayerForwardPermuted | lib/Layer.cpp:7-33 | Layer::forward on reordered columns gives Z and A with their columns reordered alike |
| ColumnOrder.OutputPermuted | lib/FlexNN.cpp:78-89 | predict on reordered columns gives the prediction with its columns reordered alike |
| ColumnOrder.ArgMaxUpToOneColumn | lib/FlexNN.cpp:60 | the predicted class of a column depends on that column alone |
| ColumnOrder.CountCorrectIsHits | lib/FlexNN.cpp:56-65 | the counting loop counts the columns whose predicted class is their label |
| ColumnOrder.CountTruePermuted | lib/FlexNN.cpp:56-65 | the count of correct columns does not depend on the order in which the columns are visited |
| ColumnOrder.AccuracyIgnoresSampleOrder | lib/FlexNN.cpp:53-67 | reordering the columns of X and the labels by the same permutation leaves the accuracy unchanged |

## Left out

- Reading CSV files is file I/O and is not modelled: `readCSV_XY` in
  `lib/Utility.cpp` and `src/main.cpp`. The data arrive as parameters, so
  `main.cpp`'s transposition of X is taken as already done.
- The division of the inputs by 255 and every console message in `main.cpp`
  are not modelled, and neither is the logging every 10 epochs in `train`.
  The accuracy that the logging computes does not change the network.
- IEEE doubles are modelled as reals, so rounding, NaN and overflow are not
  captured.
- The exponential is an abstract positive function.
- `Eigen::MatrixXd::Random` (in the layer constructor) is modelled by
  initial weights passed as parameters.
- `std::shuffle` with a fresh `std::random_device` is modelled by a
  permutation passed as `order`.
- Layers.LayerBackward and Layers.Layer.Backward: the softmax branch
  (`lib/Layer.cpp:44-48`) is not modelled, and both requires exclude it.
  The branch multiplies a matrix by a vector made from a whole matrix, so
  it is ill-formed for any batch of more than one sample. The network's
  backward therefore requires that no hidden layer is softmax; the output
  layer's activation is never differentiated.
- Propagation.BackwardReady: backward requires at least one layer and at
  least one sample. With no layers the cache has one entry, so
  `outputs.size() - 3` is computed in `size_t`, wraps to 2^64 - 2, and the
  read lands far past the end of the cache. With no samples, `m` is 0 and
  the mean and the division by `m` are 0/0.
- Utility.SplitXY: requires that the raw sizes before the last one add up to
  at most the number of rows. When they exceed it, the last size wraps and
  the copy loop reads outside the rows. `n - total` may still wrap, and
  WrapAround shows that the sum is then still exact. It also requires
  (SizeFits, through AllFit) that every product p·n is above -1 and below
  2^64: outside that range `static_cast<size_t>(p·n)` at
  `lib/Utility.cpp:85` is undefined behaviour.
- Propagation.AccuracyOf: with no columns the source computes `0/0`, which is
  NaN. The model returns `None` instead.
- FlexNN.NeuralNetwork.Train: the labels are a sequence of already truncated
  integers rather than a double vector, and the one-hot width is max label + 1
  over those truncated labels. The source computes `int(maxCoeff(Y) + 1)`
  on the doubles (`lib/FlexNN.cpp:31`). The two agree on integral labels
  but not on fractional ones in (-1, 0): for labels all -0.5 the source
  gets width 0 and the model width 1. The width must be at least 0, so
  labels are not all below -1. BasicNN.NeuralNetwork.Train is the same.
- Eigen's shape assertions appear as requires clauses of the network's
  methods. For forward, the input rows must match each layer's input size.
  For backward, the layers must chain and each cache entry must have its
  layer's sizes and one column per sample (CacheFits). For updateWeights,
  the gradients must fit each layer.
- Layers.Layer.Backward and the value-level functions in `Matrices` and
  `Layers` are total. Given shapes on which Eigen would assert, they still
  return a matrix; every caller in the model passes matching shapes.
- Each train loop body is its own method, `RunEpoch` (one epoch), wrapped
  by `TrainEpoch` (the epoch count so far), so that each proof stays small.
  `Rounds(epochs)` is the number of times the loop runs.
- Trained is defined as an iteration of a step that is total. On networks
  that cannot be trained, that step is the identity. `Train` is only called
  on trainable networks, so this extension is never reached.
- `include/Utility.h` holds only declarations. It declares the utilities in
  namespace `BasicNN`, while `lib/Utility.cpp` defines them in namespace
  `FlexNN`. The model has one utility module used by both classes.
- Network objects are modelled without aliasing between networks: each
  network owns fresh copies of its layers, as the C++ value semantics of
  `std::vector<Layer>` give.
