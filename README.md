# pv-mapping training pipeline: the data-arrangement rules, verified

This project models the data-arrangement rules in `src/train.py`. That
script trains a U-Net that segments solar panels in 256×256 satellite
patches. The rules it covers:

- **Augmentation** (`random_transform` and the single-input helpers).
  One uniform draw `x` chooses one of seven transforms: flip left-right,
  flip up-down, both flips, or a rotation by 90°, 180° or 270°. Each of
  the first six has a band of width 0.1 on [0, 0.6); the identity takes
  the rest. The chosen transform is applied to the data image and to the
  label image alike.
- **Tuple assembly** (`to_tuple`). The decoded planes are stacked in the
  order `R`, `G`, `B`, `label` and moved to channel-last layout. The
  result is split after the three bands. The complement `1 - label` is
  then appended as a second label channel.
- **Dataset doubling** (`get_dataset`). Every example is assembled and
  augmented. The augmented copies are appended after the untouched
  originals.
- **Metrics and loss**: `recall_m`, `precision_m`, `f1_m`, `dice_coef` and
  `dice_loss`.

Images are abstract grids (`Images.Image`): a height, a width, a channel
count, and rows of pixels, each pixel a sequence of `real` channel values.
The three `tf.image` operations the script uses are defined by index
formulas in `TfImage`:

- `flip_left_right` reverses the width axis.
- `flip_up_down` reverses the height axis.
- `rot90(k)` turns the image k quarter turns counter-clockwise, with k
  taken modulo 4.

Modules: `Images`, `TfImage`, `Augment`, `Tuples`, `Dataset` and
`Metrics`, one file each. `label` is a reserved word in Dafny, so the
label image is called `mask` wherever it is a parameter.

What is proved, in short:

- **Band table.** The draw selects exactly one transform. For x in [0, 1),
  the transform is the entry for the tenth that x falls in.
- **Alignment.** In every branch, data and label get the same transform.
  Output pixel (i, j) of both comes from the same input pixel.
- **Invariant.** The training-pair invariant (label channel 1 = 1 − label
  channel 0) holds for every pair `get_dataset` yields, augmented ones
  included.
- **Transform algebra.**
  - Both flips are involutions.
  - Flip-up-down followed by flip-left-right is `rot90(k=2)`. So
    `transpose_inputs` is a half turn, not a transpose, and the both-flips
    branch gives the same pair as the 180° branch.
  - Rotations add. Every transform has an inverse.
- **Metrics.** On values in [0, 1], precision, recall and F1 lie in [0, 1).
  Each of them is zero exactly when there is no true positive.
  On binary masks the counts are exact: the true positives are the
  overlap sum(t·p).
- **Dice.** The loss lies in [0, 1) for all real inputs. The coefficient
  lies in (0, 1] on [0, 1]. A binary mask compared with itself scores a
  coefficient of 1 and a loss of 0.

Two behaviours of the code shape the model:

- `dice_loss` sums over the last axis, which is the two-channel label
  axis, so it gives one loss per pixel. `Metrics.DiceLoss` returns one
  value per last-axis vector.
- `to_tuple` can fail. A missing feature leaves `None` in the list given
  to `tf.stack`, and planes of different shapes cannot be stacked.
  `Tuples.ToTuple` returns an error in those cases.

## Model

| member | source | states |
|---|---|---|
| `TfImage.FlipLeftRight` | src/train.py:105-106 | flip left-right keeps the height, the width and the channel count |
| `TfImage.FlipUpDown` | src/train.py:109-110 | flip up-down keeps the height, the width and the channel count |
| `TfImage.Rot90` | src/train.py:117-126 | rot90 keeps the channel count; an odd number of quarter turns swaps height and width, an even number keeps them |
| `TfImage.FlipLeftRightInvolution` | src/train.py:105-106 | flipping left-right twice gives back the image |
| `TfImage.FlipUpDownInvolution` | src/train.py:109-110 | flipping up-down twice gives back the image |
| `TfImage.FlipsAreHalfTurn` | src/train.py:113-122 | flip-up-down then flip-left-right, in either order, equals rot90(k=2) |
| `TfImage.QuarterTurnStep` | src/train.py:117-126 | one more quarter turn after k quarter turns is rot90(k + 1) |
| `TfImage.Rot90IsQuarterTurns` | src/train.py:117-126 | rot90(k) is k successive counter-clockwise quarter turns |
| `TfImage.Rot90Mod` | src/train.py:117-126 | rot90 depends only on the number of quarter turns modulo 4 |
| `TfImage.Rot90Add` | src/train.py:117-126 | rotations compose additively: rot90(rot90(img, k), j) = rot90(img, k + j) |
| `TfImage.Rot90Inverse` | src/train.py:117-126 | rot90 by k then by 4 − k (or by −k) gives back the image |
| `Augment.Select` | src/train.py:101-128 | the draw picks exactly one transform; on [0, 1) it is the table entry for the tenth that contains x; below 0 it is flip left-right, from 1 on the identity |
| `Augment.BandsPartition` | src/train.py:103-128 | each of the six non-identity transforms is chosen exactly on its band [n/10, (n+1)/10); the identity exactly on [0.6, 1) |
| `Augment.Apply` | src/train.py:103-130 | every transform keeps the channel count; rotations by 90° and 270° swap height and width, all others keep them |
| `Augment.ApplyAt` | src/train.py:103-128 | each output pixel of a transform is the input pixel its index formula names, which is in bounds |
| `Augment.ApplyInverse` | src/train.py:103-128 | every transform is undone by its inverse (the flips and the half turn by themselves, 90° by 270° and back) |
| `Augment.RandomTransform` | src/train.py:99-130 | the if/elif chain applies to data and to label the single transform that the band table selects for x |
| `Augment.RandomTransformAligned` | src/train.py:103-130 | when data and label share a shape, their outputs share a shape and output pixel (i, j) of both comes from the same input pixel |
| `Augment.SquarePatchKeepsShape` | src/train.py:100-130 | on square patches every branch keeps height, width and channel counts of data and label |
| `Augment.FlipBothBranchIsRot180Branch` | src/train.py:111-122 | the both-flips branch and the 180° branch produce the same pair |
| `Augment.FlipInputsUpDown` | src/train.py:133-135 | keeps the height and width, and flipping up-down again gives back the input |
| `Augment.FlipInputsLeftRight` | src/train.py:137-139 | keeps the height and width, and flipping left-right again gives back the input |
| `Augment.TransposeInputs` | src/train.py:141-145 | keeps the height and width and equals the half turn rot90(k=2) |
| `Augment.RotateInputs90` | src/train.py:147-149 | swaps height and width, and three more quarter turns give back the input |
| `Augment.RotateInputs180` | src/train.py:151-153 | keeps the height and width, and a second half turn gives back the input |
| `Augment.RotateInputs270` | src/train.py:155-157 | swaps height and width, and one more quarter turn gives back the input |
| `Augment.HelpersMatchTransforms` | src/train.py:133-157 | each single-input helper equals one transform of the table; transpose_inputs equals the 180° rotation |
| `Augment.TransposeInputsKeepsShape` | src/train.py:142-145 | transpose_inputs keeps an h×w image h×w; on a 1×2 image it swaps the two pixels; on a 2×2 image it moves pixel (0, 0) to (1, 1), where a transpose keeps the diagonal; so it is not a transpose |
| `Tuples.Gather` | src/train.py:189 | lookup succeeds exactly when every feature name is present; its i-th plane is the plane of the i-th name; a failure names a missing feature |
| `Tuples.StackChannelLast` | src/train.py:190-192 | stacking and transposing gives a channel-last image with one channel per plane and the planes' height and width |
| `Tuples.SliceChannels` | src/train.py:195 | a channel slice keeps height and width and has hi − lo channels |
| `Tuples.Complement` | src/train.py:198 | the complement keeps the shape |
| `Tuples.ConcatChannels` | src/train.py:201 | channel concatenation keeps height and width and adds the channel counts |
| `Tuples.WithComplement` | src/train.py:198-201 | appending the complement doubles the channel count and keeps height and width |
| `Tuples.SameShapeAssemblable` | src/train.py:189-190 | the gathered planes can be stacked (one shape) exactly when every feature is present with the shape of the first |
| `Tuples.AssembleLayout` | src/train.py:190-203 | after stacking, the first three channels of pixel (i, j) are the R, G, B planes at (i, j), label channel 0 is the label plane and channel 1 its complement |
| `Tuples.ToTuple` | src/train.py:181-203 | succeeds exactly when all four features are present with one shape; data has len(BANDS) = 3 channels holding the planes of R, G, B in order; label channel 0 is the label plane and the two label channels sum to 1 |
| `Dataset.MapToTuple` | src/train.py:217 | a successful stream has one pair per record, and its n-th pair is to_tuple of the n-th record |
| `Dataset.MapToTupleSucceeds` | src/train.py:217 | the stream of pairs exists exactly when every record can be assembled |
| `Dataset.MapToTupleValid` | src/train.py:217 | every pair of a successful stream consists of two well-formed images |
| `Dataset.MapRandomTransform` | src/train.py:220-221 | the augmented stream has the same length and its n-th pair is random_transform of the n-th pair with the n-th draw |
| `Dataset.GetDataset` | src/train.py:214-225 | the dataset has twice as many pairs as records; the first half is the assembled pairs unchanged and in order; element n + i is random_transform of element i |
| `Dataset.ToTupleIsTrainingPair` | src/train.py:189-203 | every assembled pair satisfies the training-pair invariant: same height and width, 3 data channels, label channel 1 = 1 − channel 0 |
| `Dataset.RandomTransformKeepsTrainingPair` | src/train.py:99-130 | augmentation preserves the training-pair invariant |
| `Dataset.GetDatasetTrainingPairs` | src/train.py:214-225 | every pair get_dataset yields, original or augmented, satisfies the training-pair invariant |
| `Dataset.GetDatasetKernelPatches` | src/train.py:60-65 | on records of the declared 256×256 schema get_dataset succeeds and every data and label image it yields is 256×256 |
| `Metrics.Clip` | src/train.py:69-70 | the clipped value lies in [lo, hi] and a value already in [lo, hi] is unchanged |
| `Metrics.Round` | src/train.py:69-70 | rounding gives the integer within 1/2 of its argument, ties going to the even integer |
| `Metrics.RoundClip` | src/train.py:69-70 | round(clip(v, 0, 1)) is 0 or 1 |
| `Metrics.Count` | src/train.py:69-70 | the summed round(clip(·)) counts elements, so it lies between 0 and the length |
| `Metrics.CountBinary` | src/train.py:69-70 | on a binary mask the count is exact: it equals the number of ones, the plain sum |
| `Metrics.TruePositives` | src/train.py:69 | the true positives lie between 0 and the length |
| `Metrics.TruePositivesBinary` | src/train.py:68-78 | on binary masks the true positives are the overlap sum(t·p), and the possible and predicted positives are sum(t) and sum(p) |
| `Metrics.TruePositivesBounded` | src/train.py:68-78 | on values in [0, 1] the true positives are at most the possible positives and at most the predicted positives |
| `Metrics.Recall` | src/train.py:68-72 | recall is non-negative and zero exactly when there is no true positive |
| `Metrics.Precision` | src/train.py:74-78 | precision is non-negative and zero exactly when there is no true positive |
| `Metrics.F1` | src/train.py:80-83 | F1 is non-negative and zero exactly when precision or recall is zero |
| `Metrics.RecallBounds` | src/train.py:68-72 | recall is non-negative and zero exactly when there is no true positive; on values in [0, 1] it is below 1 |
| `Metrics.PrecisionBounds` | src/train.py:74-78 | precision is non-negative and zero exactly when there is no true positive; on values in [0, 1] it is below 1 |
| `Metrics.F1Bounds` | src/train.py:80-83 | F1 is non-negative, zero exactly when precision or recall is zero (exactly when there is no true positive), and below 1 on values in [0, 1] |
| `Metrics.NoPredictionScoresZero` | src/train.py:68-83 | an all-zero prediction gives recall, precision and F1 of exactly 0 |
| `Metrics.DiceCoef` | src/train.py:85-89 | on values in [0, 1] the Dice coefficient lies in (0, 1] |
| `Metrics.OverlapBounded` | src/train.py:85-89 | on values in [0, 1], twice the intersection is at most sum(true) + sum(pred) |
| `Metrics.DiceCoefBounds` | src/train.py:85-89 | on values in [0, 1] the denominator is positive and the Dice coefficient lies in (0, 1] |
| `Metrics.AbsOverlapBounded` | src/train.py:91-95 | 2·Σ abs(t·p) ≤ Σ t² + Σ p² for all real vectors |
| `Metrics.DiceLossAt` | src/train.py:91-95 | the Dice loss of one last-axis vector lies in [0, 1) for all real inputs |
| `Metrics.DiceLoss` | src/train.py:91-95 | the loss has one value per last-axis vector |
| `Metrics.DiceLossBounds` | src/train.py:91-95 | for all real inputs every per-vector Dice loss lies in [0, 1) |
| `Metrics.DiceCoefPerfectMatch` | src/train.py:85-89 | a binary mask compared with itself has Dice coefficient exactly 1 |
| `Metrics.DiceLossPerfectMatch` | src/train.py:91-95 | every per-vector Dice loss of a binary mask compared with itself is exactly 0 |

## Left out

- Logging setup, the hard-coded cloud-storage paths and the GPU memory setting (src/train.py:15-46, 162-169). They configure the process and hold no logic.
- `parse_tfrecord`, file globbing and compressed record reading (src/train.py:170-178, 214-215). These are library I/O and schema decoding. The decoded examples are a parameter of `Dataset.GetDataset`.
- The random draw `tf.random.uniform` (src/train.py:101). It is a parameter: `x` for one example, and one draw per example for the dataset.
- Shuffling, batching and parallel mapping (src/train.py:216-221, 234). Library randomness and parallel execution are not modelled, so the model's dataset is the stream before shuffling.
- The U-Net builder, the command-line driver, callbacks, `model.fit` and `model.save` (src/train.py:240-372). These are a declarative layer graph and the training loop.
- `categorical_accuracy` (src/train.py:97). Its source is not part of this model.
- Float32 arithmetic. Values are exact reals. The backend epsilon is fixed at its default, 1e-7.
- `Metrics.DiceCoef`: a zero denominator gives an IEEE infinity or NaN in the source. The model requires the denominator to be non-zero instead. On values in [0, 1] it is always positive (`Metrics.DiceCoefBounds`).
- Tensor shape and batch axes. The metrics that reduce over every axis take the tensor as a flat sequence. The loss takes the sequence of last-axis vectors. Keras's averaging of per-pixel losses is not modelled.
- Lazy errors. In the source, a record that cannot be assembled raises an error only when the stream reaches it, after the earlier pairs were yielded. The model returns the error for the whole dataset.
- Ragged tensors. Feature planes are assumed rectangular (`Tuples.AllValid`), as every tensor is.
- Element-wise shapes. The metrics require inputs of equal length, where the source's tensors would broadcast or fail.
