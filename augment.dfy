/**
 * The augmentation stage: one uniform draw x picks one of seven geometric
 * transforms by probability bands of width 0.1, and the chosen transform is
 * applied to both the data image and the mask image of an example. The
 * draw is a parameter here; the random source is not modelled.
 */
module Augment {
  import opened Images
  import TfImage

  datatype Transform = Identity | FlipLR | FlipUD | FlipBoth | Rot90 | Rot180 | Rot270

  /** The band table, written as the source's chain of comparisons on x. */
  function Select(x: real): (t: Transform)
    ensures 0.0 <= x < 1.0 ==> t == Band((x * 10.0).Floor)
    ensures x < 0.0 ==> t == FlipLR
    ensures x >= 1.0 ==> t == Identity
  {
    if x < 0.10 then FlipLR
    else if x >= 0.10 && x < 0.20 then FlipUD
    else if x >= 0.20 && x < 0.30 then FlipBoth
    else if x >= 0.30 && x < 0.40 then Rot90
    else if x >= 0.40 && x < 0.50 then Rot180
    else if x >= 0.50 && x < 0.60 then Rot270
    else Identity
  }

  /** Reference table: the n-th tenth of [0, 1) selects the n-th transform, the last four the identity. */
  function Band(n: int): Transform {
    match n
    case 0 => FlipLR
    case 1 => FlipUD
    case 2 => FlipBoth
    case 3 => Rot90
    case 4 => Rot180
    case 5 => Rot270
    case _ => Identity
  }

  /** Each non-identity transform is chosen on exactly one band of width 0.1 in [0, 1). */
  lemma {:induction false} BandsPartition(x: real, n: int)
    requires 0.0 <= x < 1.0 && 0 <= n < 6
    ensures Select(x) == Band(n) <==> n as real / 10.0 <= x < (n + 1) as real / 10.0
    ensures Select(x) == Identity <==> x >= 0.6
  {
  }

  /** Rotations swap height and width; every other transform keeps the shape. */
  predicate Transposes(t: Transform) {
    t == Rot90 || t == Rot270
  }

  function Apply(t: Transform, img: Image): (r: Image)
    requires img.Valid()
    ensures r.Valid() && r.channels == img.channels
    ensures if Transposes(t) then r.height == img.width && r.width == img.height
            else r.height == img.height && r.width == img.width
  {
    match t
    case Identity => img
    case FlipLR => TfImage.FlipLeftRight(img)
    case FlipUD => TfImage.FlipUpDown(img)
    case FlipBoth => TfImage.FlipLeftRight(TfImage.FlipUpDown(img))
    case Rot90 => TfImage.Rot90(img, 1)
    case Rot180 => TfImage.Rot90(img, 2)
    case Rot270 => TfImage.Rot90(img, 3)
  }

  /**
   * Where output pixel (i, j) of an h×w image comes from, for each transform.
   * This is the only thing a transform does: move whole pixels.
   */
  function Source(t: Transform, h: nat, w: nat, i: nat, j: nat): (nat, nat)
    requires if Transposes(t) then i < w && j < h else i < h && j < w
  {
    match t
    case Identity => (i, j)
    case FlipLR => (i, w - 1 - j)
    case FlipUD => (h - 1 - i, j)
    case FlipBoth => (h - 1 - i, w - 1 - j)
    case Rot90 => (j, w - 1 - i)
    case Rot180 => (h - 1 - i, w - 1 - j)
    case Rot270 => (h - 1 - j, i)
  }

  /** Every output pixel of a transform is an input pixel, the one Source names. */
  lemma {:induction false} ApplyAt(t: Transform, img: Image, i: nat, j: nat)
    requires img.Valid()
    requires if Transposes(t) then i < img.width && j < img.height else i < img.height && j < img.width
    ensures var (si, sj) := Source(t, img.height, img.width, i, j);
      si < img.height && sj < img.width && Apply(t, img).At(i, j) == img.At(si, sj)
  {
    if t == FlipBoth {
      var u := TfImage.FlipUpDown(img);
      assert TfImage.FlipLeftRight(u).At(i, j) == u.At(i, img.width - 1 - j);
    }
  }

  /** The transform that undoes t. */
  function Inverse(t: Transform): Transform {
    match t
    case Rot90 => Rot270
    case Rot270 => Rot90
    case _ => t
  }

  lemma {:induction false} ApplyInverse(t: Transform, img: Image)
    requires img.Valid()
    ensures Apply(Inverse(t), Apply(t, img)) == img
  {
    match t
    case Identity =>
    case FlipLR => TfImage.FlipLeftRightInvolution(img);
    case FlipUD => TfImage.FlipUpDownInvolution(img);
    case FlipBoth =>
      var once := Apply(FlipBoth, img);
      TfImage.FlipsAreHalfTurn(img);
      TfImage.FlipsAreHalfTurn(once);
      TfImage.Rot90Inverse(img, 2);
    case Rot90 => TfImage.Rot90Inverse(img, 1);
    case Rot180 => TfImage.Rot90Inverse(img, 2);
    case Rot270 => TfImage.Rot90Inverse(img, 3);
  }

  /**
   * random_transform: the if/elif chain of the source, each branch applying
   * its transform to data and to mask separately.
   */
  function RandomTransform(x: real, data: Image, mask: Image): (r: Pair)
    requires data.Valid() && mask.Valid()
    ensures r.0 == Apply(Select(x), data) && r.1 == Apply(Select(x), mask)
  {
    if x < 0.10 then
      (TfImage.FlipLeftRight(data), TfImage.FlipLeftRight(mask))
    else if x >= 0.10 && x < 0.20 then
      (TfImage.FlipUpDown(data), TfImage.FlipUpDown(mask))
    else if x >= 0.20 && x < 0.30 then
      (TfImage.FlipLeftRight(TfImage.FlipUpDown(data)), TfImage.FlipLeftRight(TfImage.FlipUpDown(mask)))
    else if x >= 0.30 && x < 0.40 then
      (TfImage.Rot90(data, 1), TfImage.Rot90(mask, 1))
    else if x >= 0.40 && x < 0.50 then
      (TfImage.Rot90(data, 2), TfImage.Rot90(mask, 2))
    else if x >= 0.50 && x < 0.60 then
      (TfImage.Rot90(data, 3), TfImage.Rot90(mask, 3))
    else
      (data, mask)
  }

  /**
   * Data and mask stay aligned: when they share a shape, their outputs share
   * a shape, and output pixel (i, j) of both comes from the same input pixel.
   */
  lemma {:induction false} RandomTransformAligned(x: real, data: Image, mask: Image, i: nat, j: nat)
    requires data.Valid() && mask.Valid()
    requires data.height == mask.height && data.width == mask.width
    requires var r := RandomTransform(x, data, mask); i < r.0.height && j < r.0.width
    ensures var r := RandomTransform(x, data, mask);
      && r.1.height == r.0.height && r.1.width == r.0.width
      && var (si, sj) := Source(Select(x), data.height, data.width, i, j);
         si < data.height && sj < data.width
         && r.0.At(i, j) == data.At(si, sj) && r.1.At(i, j) == mask.At(si, sj)
  {
    var t := Select(x);
    ApplyAt(t, data, i, j);
    ApplyAt(t, mask, i, j);
  }

  /** On a square patch (such as the 256×256 patches of training) every branch keeps the shape. */
  lemma {:induction false} SquarePatchKeepsShape(x: real, data: Image, mask: Image, size: nat)
    requires data.Valid() && mask.Valid()
    requires data.height == data.width == size && mask.height == mask.width == size
    ensures var r := RandomTransform(x, data, mask);
      && r.0.height == r.0.width == size && r.0.channels == data.channels
      && r.1.height == r.1.width == size && r.1.channels == mask.channels
  {
  }

  /** The both-flips branch and the half-turn branch produce the same pair. */
  lemma {:induction false} FlipBothBranchIsRot180Branch(x: real, y: real, data: Image, mask: Image)
    requires data.Valid() && mask.Valid()
    requires 0.20 <= x < 0.30 && 0.40 <= y < 0.50
    ensures RandomTransform(x, data, mask) == RandomTransform(y, data, mask)
  {
    TfImage.FlipsAreHalfTurn(data);
    TfImage.FlipsAreHalfTurn(mask);
  }

  // The single-input helpers.

  /** Keeps the shape; flipping up-down again restores the input. */
  function FlipInputsUpDown(inputs: Image): (r: Image)
    requires inputs.Valid()
    ensures r.Valid() && r.height == inputs.height && r.width == inputs.width
    ensures TfImage.FlipUpDown(r) == inputs
  {
    TfImage.FlipUpDownInvolution(inputs);
    TfImage.FlipUpDown(inputs)
  }

  /** Keeps the shape; flipping left-right again restores the input. */
  function FlipInputsLeftRight(inputs: Image): (r: Image)
    requires inputs.Valid()
    ensures r.Valid() && r.height == inputs.height && r.width == inputs.width
    ensures TfImage.FlipLeftRight(r) == inputs
  {
    TfImage.FlipLeftRightInvolution(inputs);
    TfImage.FlipLeftRight(inputs)
  }

  /** Despite its name, flip up-down followed by flip left-right: a half turn, not a transpose. */
  function TransposeInputs(inputs: Image): (r: Image)
    requires inputs.Valid()
    ensures r.Valid() && r.height == inputs.height && r.width == inputs.width
    ensures r == TfImage.Rot90(inputs, 2)
  {
    TfImage.FlipsAreHalfTurn(inputs);
    TfImage.FlipLeftRight(TfImage.FlipUpDown(inputs))
  }

  /** A quarter turn swaps height and width; three more quarter turns restore the input. */
  function RotateInputs90(inputs: Image): (r: Image)
    requires inputs.Valid()
    ensures r.Valid() && r.height == inputs.width && r.width == inputs.height
    ensures TfImage.Rot90(r, 3) == inputs
  {
    TfImage.Rot90Inverse(inputs, 1);
    TfImage.Rot90(inputs, 1)
  }

  /** A half turn keeps the shape; a second half turn restores the input. */
  function RotateInputs180(inputs: Image): (r: Image)
    requires inputs.Valid()
    ensures r.Valid() && r.height == inputs.height && r.width == inputs.width
    ensures TfImage.Rot90(r, 2) == inputs
  {
    TfImage.Rot90Inverse(inputs, 2);
    TfImage.Rot90(inputs, 2)
  }

  /** A three-quarter turn swaps height and width; one more quarter turn restores the input. */
  function RotateInputs270(inputs: Image): (r: Image)
    requires inputs.Valid()
    ensures r.Valid() && r.height == inputs.width && r.width == inputs.height
    ensures TfImage.Rot90(r, 1) == inputs
  {
    TfImage.Rot90Inverse(inputs, 3);
    TfImage.Rot90(inputs, 3)
  }

  /** Each helper is the matching branch of the augmentation applied to one image. */
  lemma {:induction false} HelpersMatchTransforms(inputs: Image)
    requires inputs.Valid()
    ensures FlipInputsUpDown(inputs) == Apply(FlipUD, inputs)
    ensures FlipInputsLeftRight(inputs) == Apply(FlipLR, inputs)
    ensures TransposeInputs(inputs) == Apply(Rot180, inputs)
    ensures RotateInputs90(inputs) == Apply(Rot90, inputs)
    ensures RotateInputs180(inputs) == Apply(Rot180, inputs)
    ensures RotateInputs270(inputs) == Apply(Rot270, inputs)
  {
    TfImage.FlipsAreHalfTurn(inputs);
  }

  /**
   * transpose_inputs is not a transpose: it keeps an h×w image h×w; on a 1×2
   * image it swaps the two pixels where a transpose would give a 2×1 image;
   * and on a 2×2 image it moves pixel (0, 0) to (1, 1), where a transpose
   * keeps the diagonal in place.
   */
  lemma {:induction false} TransposeInputsKeepsShape(inputs: Image)
    requires inputs.Valid()
    ensures TransposeInputs(inputs).height == inputs.height
    ensures TransposeInputs(inputs).width == inputs.width
    ensures inputs.height == 1 && inputs.width == 2 ==>
      TransposeInputs(inputs).rows == [[inputs.rows[0][1], inputs.rows[0][0]]]
    ensures inputs.height == 2 && inputs.width == 2 ==>
      TransposeInputs(inputs).rows ==
        [[inputs.rows[1][1], inputs.rows[1][0]], [inputs.rows[0][1], inputs.rows[0][0]]]
    ensures inputs.height == 2 && inputs.width == 2 && inputs.rows[0][0] != inputs.rows[1][1] ==>
      TransposeInputs(inputs).rows[0][0] != inputs.rows[0][0]
  {
    var r := TransposeInputs(inputs);
    if inputs.height == 1 && inputs.width == 2 {
      assert r.rows[0] == [inputs.rows[0][1], inputs.rows[0][0]];
    }
    if inputs.height == 2 && inputs.width == 2 {
      assert r.rows[0] == [inputs.rows[1][1], inputs.rows[1][0]];
      assert r.rows[1] == [inputs.rows[0][1], inputs.rows[0][0]];
    }
  }
}
