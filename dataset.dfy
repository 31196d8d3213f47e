/**
 * The dataset stage: every decoded example is assembled into a (data, label)
 * pair, every pair is augmented with its own draw, and the augmented pairs are
 * appended after the untouched ones, doubling the dataset. Reading files,
 * decoding records, shuffling and batching are not modelled; the decoded
 * examples and the draws are parameters.
 */
module Dataset {
  import opened Images
  import opened Tuples
  import Augment

  /** Patch side of the training data: every feature is a 256×256 plane. */
  const KERNEL_SIZE: nat := 256

  /** The shape invariant every pair of the pipeline keeps. */
  predicate TrainingPair(p: Pair) {
    && p.0.Valid() && p.1.Valid()
    && p.0.height == p.1.height && p.0.width == p.1.width
    && p.0.channels == |BANDS|
    && ComplementLabel(p.1)
  }

  predicate AllRecordsValid(records: seq<Features>) {
    forall n :: 0 <= n < |records| ==> AllValid(records[n])
  }

  predicate ValidImages(pairs: seq<Pair>) {
    forall n :: 0 <= n < |pairs| ==> pairs[n].0.Valid() && pairs[n].1.Valid()
  }

  /** dataset.map(to_tuple): the first record that cannot be assembled fails the whole stream. */
  function MapToTuple(records: seq<Features>): (r: Result<seq<Pair>>)
    requires AllRecordsValid(records)
    ensures r.Ok? ==> |r.value| == |records|
    ensures r.Ok? ==> forall n :: 0 <= n < |records| ==> ToTuple(records[n]) == Ok(r.value[n])
  {
    if records == [] then Ok([])
    else
      var head, tail := ToTuple(records[0]), MapToTuple(records[1..]);
      assert forall n :: 1 <= n < |records| ==> records[n] == records[1..][n - 1];
      if head.Err? then Err(head.error)
      else if tail.Err? then Err(tail.error)
      else Ok([head.value] + tail.value)
  }

  /** The stream of pairs exists exactly when every record can be assembled. */
  lemma {:induction false} MapToTupleSucceeds(records: seq<Features>)
    requires AllRecordsValid(records)
    ensures MapToTuple(records).Ok? <==> forall n :: 0 <= n < |records| ==> Assemblable(records[n])
  {
    if records != [] {
      MapToTupleSucceeds(records[1..]);
      assert forall n :: 1 <= n < |records| ==> records[n] == records[1..][n - 1];
    }
  }

  /** dataset.map(random_transform), the n-th pair drawing draws[n]. */
  function MapRandomTransform(pairs: seq<Pair>, draws: seq<real>): (r: seq<Pair>)
    requires |draws| == |pairs| && ValidImages(pairs)
    ensures |r| == |pairs|
    ensures forall n :: 0 <= n < |pairs| ==>
      r[n] == Augment.RandomTransform(draws[n], pairs[n].0, pairs[n].1)
  {
    if pairs == [] then []
    else [Augment.RandomTransform(draws[0], pairs[0].0, pairs[0].1)]
         + MapRandomTransform(pairs[1..], draws[1..])
  }

  /** get_dataset: the assembled pairs followed by their augmented copies. */
  function GetDataset(records: seq<Features>, draws: seq<real>): (r: Result<seq<Pair>>)
    requires |draws| == |records| && AllRecordsValid(records)
    ensures r.Ok? <==> forall n :: 0 <= n < |records| ==> Assemblable(records[n])
    ensures r.Ok? ==> |r.value| == 2 * |records| && ValidImages(r.value)
    ensures r.Ok? ==> forall n :: 0 <= n < |records| ==> ToTuple(records[n]) == Ok(r.value[n])
    ensures r.Ok? ==> forall n :: 0 <= n < |records| ==>
      r.value[|records| + n] == Augment.RandomTransform(draws[n], r.value[n].0, r.value[n].1)
  {
    MapToTupleSucceeds(records);
    match MapToTuple(records)
    case Err(e) => Err(e)
    case Ok(pairs) =>
      MapToTupleValid(records);
      Ok(pairs + MapRandomTransform(pairs, draws))
  }

  /** Every assembled pair consists of two well-formed images. */
  lemma {:induction false} MapToTupleValid(records: seq<Features>)
    requires AllRecordsValid(records)
    ensures MapToTuple(records).Ok? ==> ValidImages(MapToTuple(records).value)
  {
    var r := MapToTuple(records);
    if r.Ok? {
      forall n | 0 <= n < |r.value|
        ensures r.value[n].0.Valid() && r.value[n].1.Valid()
      {
        assert ToTuple(records[n]) == Ok(r.value[n]);
      }
    }
  }

  /** Every assembled pair is a training pair. */
  lemma {:induction false} ToTupleIsTrainingPair(inputs: Features)
    requires AllValid(inputs) && Assemblable(inputs)
    ensures ToTuple(inputs).Ok? && TrainingPair(ToTuple(inputs).value)
  {
  }

  /** Augmentation keeps the training-pair invariant: the label and its complement move together. */
  lemma {:induction false} RandomTransformKeepsTrainingPair(x: real, p: Pair)
    requires TrainingPair(p)
    ensures TrainingPair(Augment.RandomTransform(x, p.0, p.1))
  {
    var r := Augment.RandomTransform(x, p.0, p.1);
    forall i, j | 0 <= i < r.1.height && 0 <= j < r.1.width
      ensures r.1.At(i, j)[0] + r.1.At(i, j)[1] == 1.0
    {
      Augment.RandomTransformAligned(x, p.0, p.1, i, j);
    }
  }

  /** Every pair get_dataset produces, original or augmented, is a training pair. */
  lemma {:induction false} GetDatasetTrainingPairs(records: seq<Features>, draws: seq<real>)
    requires |draws| == |records| && AllRecordsValid(records)
    ensures var r := GetDataset(records, draws);
      r.Ok? ==> forall n :: 0 <= n < |r.value| ==> TrainingPair(r.value[n])
  {
    var r := GetDataset(records, draws);
    if r.Ok? {
      forall n | 0 <= n < |r.value|
        ensures TrainingPair(r.value[n])
      {
        var m := if n < |records| then n else n - |records|;
        ToTupleIsTrainingPair(records[m]);
        if n >= |records| {
          RandomTransformKeepsTrainingPair(draws[m], r.value[m]);
        }
      }
    }
  }

  /** Every feature of the record is a KERNEL_SIZE × KERNEL_SIZE plane. */
  predicate KernelRecord(inputs: Features) {
    forall k :: k in FEATURES ==>
      k in inputs && inputs[k].height == KERNEL_SIZE && inputs[k].width == KERNEL_SIZE
  }

  /** On records of the declared schema get_dataset succeeds, and every pair is a 256×256 patch. */
  lemma {:induction false} GetDatasetKernelPatches(records: seq<Features>, draws: seq<real>)
    requires |draws| == |records| && AllRecordsValid(records)
    requires forall n :: 0 <= n < |records| ==> KernelRecord(records[n])
    ensures GetDataset(records, draws).Ok?
    ensures var pairs := GetDataset(records, draws).value;
      forall n :: 0 <= n < |pairs| ==>
        && pairs[n].0.height == pairs[n].0.width == KERNEL_SIZE
        && pairs[n].1.height == pairs[n].1.width == KERNEL_SIZE
  {
    assert forall n :: 0 <= n < |records| ==> Assemblable(records[n]);
    var pairs := GetDataset(records, draws).value;
    forall n | 0 <= n < |pairs|
      ensures pairs[n].0.height == pairs[n].0.width == KERNEL_SIZE
      ensures pairs[n].1.height == pairs[n].1.width == KERNEL_SIZE
    {
      if n >= |records| {
        var m := n - |records|;
        Augment.SquarePatchKeepsShape(draws[m], pairs[m].0, pairs[m].1, KERNEL_SIZE);
      }
    }
  }
}
