/**
 * Tuple assembly: a decoded example is a map from feature name to an H×W
 * plane. The planes are stacked in feature order (the three colour bands,
 * then the label), moved to channel-last layout and split after the bands;
 * the label part gets its complement 1 - label appended as a second channel.
 */
module Tuples {
  import opened Images

  /** One decoded feature: a rectangular H×W array of values. */
  datatype Plane = Plane(height: nat, width: nat, values: seq<seq<real>>)
  {
    predicate Valid() {
      |values| == height && forall i :: 0 <= i < height ==> |values[i]| == width
    }
  }

  type Features = map<string, Plane>

  const BANDS: seq<string> := ["R", "G", "B"]
  const RESPONSE: seq<string> := ["label"]
  const FEATURES: seq<string> := BANDS + RESPONSE

  /** Stacking fails when a feature is absent or when the planes differ in shape. */
  datatype TupleError = MissingFeature(name: string) | ShapeMismatch

  datatype Result<T> = Ok(value: T) | Err(error: TupleError)

  predicate AllValid(inputs: Features) {
    forall k :: k in inputs ==> inputs[k].Valid()
  }

  predicate SameShape(planes: seq<Plane>) {
    forall c :: 0 <= c < |planes| ==>
      planes[c].height == planes[0].height && planes[c].width == planes[0].width
  }

  /** Looking every key up; a failure names a key that is absent. */
  function Gather(inputs: Features, keys: seq<string>): (r: Result<seq<Plane>>)
    ensures r.Ok? <==> forall k :: k in keys ==> k in inputs
    ensures r.Ok? ==> |r.value| == |keys| && forall c :: 0 <= c < |keys| ==> r.value[c] == inputs[keys[c]]
    ensures r.Err? ==> r.error.MissingFeature? && r.error.name in keys && r.error.name !in inputs
  {
    if keys == [] then Ok([])
    else if keys[0] !in inputs then Err(MissingFeature(keys[0]))
    else
      match Gather(inputs, keys[1..])
      case Err(e) => Err(e)
      case Ok(rest) => Ok([inputs[keys[0]]] + rest)
  }

  /** Stack along a new leading channel axis, then transpose channels to the last axis. */
  function StackChannelLast(planes: seq<Plane>): (r: Image)
    requires |planes| > 0 && SameShape(planes)
    requires forall c :: 0 <= c < |planes| ==> planes[c].Valid()
    ensures r.Valid() && r.channels == |planes|
    ensures r.height == planes[0].height && r.width == planes[0].width
  {
    var h, w := planes[0].height, planes[0].width;
    Image(h, w, |planes|,
      seq(h, i requires 0 <= i < h =>
        seq(w, j requires 0 <= j < w =>
          seq(|planes|, c requires 0 <= c < |planes| =>
            assert planes[c].Valid() && planes[c].height == h; planes[c].values[i][j]))))
  }

  /** The channels lo..hi of every pixel. */
  function SliceChannels(img: Image, lo: nat, hi: nat): (r: Image)
    requires img.Valid() && lo <= hi <= img.channels
    ensures r.Valid() && r.channels == hi - lo
    ensures r.height == img.height && r.width == img.width
  {
    Image(img.height, img.width, hi - lo,
      seq(img.height, i requires 0 <= i < img.height =>
        seq(img.width, j requires 0 <= j < img.width => img.rows[i][j][lo..hi])))
  }

  /** 1 - v for every value. */
  function Complement(img: Image): (r: Image)
    requires img.Valid()
    ensures r.Valid() && r.channels == img.channels
    ensures r.height == img.height && r.width == img.width
  {
    Image(img.height, img.width, img.channels,
      seq(img.height, i requires 0 <= i < img.height =>
        seq(img.width, j requires 0 <= j < img.width =>
          seq(img.channels, c requires 0 <= c < img.channels => 1.0 - img.rows[i][j][c]))))
  }

  /** Concatenation along the channel axis. */
  function ConcatChannels(a: Image, b: Image): (r: Image)
    requires a.Valid() && b.Valid() && a.height == b.height && a.width == b.width
    ensures r.Valid() && r.channels == a.channels + b.channels
    ensures r.height == a.height && r.width == a.width
  {
    Image(a.height, a.width, a.channels + b.channels,
      seq(a.height, i requires 0 <= i < a.height =>
        seq(a.width, j requires 0 <= j < a.width => a.rows[i][j] + b.rows[i][j])))
  }

  /** All features are present and share one shape. */
  predicate Assemblable(inputs: Features) {
    && (forall k :: k in FEATURES ==> k in inputs)
    && (forall k :: k in FEATURES ==>
          inputs[k].height == inputs[FEATURES[0]].height && inputs[k].width == inputs[FEATURES[0]].width)
  }

  /** A label image of two channels whose second channel is the complement of the first. */
  predicate ComplementLabel(lbl: Image) {
    && lbl.Valid() && lbl.channels == 2
    && forall i, j :: 0 <= i < lbl.height && 0 <= j < lbl.width ==>
         lbl.At(i, j)[0] + lbl.At(i, j)[1] == 1.0
  }

  /**
   * The layout of an assembled pair: data holds the band planes in order as
   * its channels, label channel 0 holds the label plane, and label channel 1
   * its complement.
   */
  predicate Assembled(inputs: Features, data: Image, lbl: Image)
    requires AllValid(inputs) && Assemblable(inputs)
  {
    var shape := inputs[FEATURES[0]];
    && data.Valid() && lbl.Valid()
    && data.channels == |BANDS| && lbl.channels == 2
    && data.height == lbl.height == shape.height && data.width == lbl.width == shape.width
    && (forall i, j, c :: 0 <= i < data.height && 0 <= j < data.width && 0 <= c < |BANDS| ==>
          data.At(i, j)[c] == inputs[BANDS[c]].values[i][j])
    && (forall i, j :: 0 <= i < lbl.height && 0 <= j < lbl.width ==>
          lbl.At(i, j)[0] == inputs[RESPONSE[0]].values[i][j])
    && ComplementLabel(lbl)
  }

  /** The label channels followed by their complements. */
  function WithComplement(lbl: Image): (r: Image)
    requires lbl.Valid()
    ensures r.Valid() && r.channels == 2 * lbl.channels
    ensures r.height == lbl.height && r.width == lbl.width
  {
    ConcatChannels(lbl, Complement(lbl))
  }

  /** The planes gathered for FEATURES, in order. */
  predicate GatheredFeatures(inputs: Features, planes: seq<Plane>) {
    && |planes| == |FEATURES|
    && forall c :: 0 <= c < |FEATURES| ==> FEATURES[c] in inputs && planes[c] == inputs[FEATURES[c]]
  }

  lemma {:induction false} SameShapeAssemblable(inputs: Features, planes: seq<Plane>)
    requires GatheredFeatures(inputs, planes)
    ensures SameShape(planes) <==> Assemblable(inputs)
  {
    if SameShape(planes) {
      forall k | k in FEATURES
        ensures inputs[k].height == inputs[FEATURES[0]].height && inputs[k].width == inputs[FEATURES[0]].width
      {
        var c :| 0 <= c < |FEATURES| && FEATURES[c] == k;
        assert planes[c] == inputs[k];
      }
    }
    if Assemblable(inputs) {
      forall c | 0 <= c < |planes|
        ensures planes[c].height == planes[0].height && planes[c].width == planes[0].width
      {
        assert FEATURES[c] in FEATURES;
      }
    }
  }

  lemma {:induction false} AssembleLayout(inputs: Features, planes: seq<Plane>, stacked: Image)
    requires AllValid(inputs) && Assemblable(inputs)
    requires GatheredFeatures(inputs, planes) && SameShape(planes)
    requires stacked == StackChannelLast(planes)
    ensures Assembled(inputs, SliceChannels(stacked, 0, |BANDS|),
                      WithComplement(SliceChannels(stacked, |BANDS|, stacked.channels)))
  {
    var data := SliceChannels(stacked, 0, |BANDS|);
    forall i, j, c | 0 <= i < data.height && 0 <= j < data.width && 0 <= c < |BANDS|
      ensures data.At(i, j)[c] == inputs[BANDS[c]].values[i][j]
    {
      assert data.At(i, j)[c] == stacked.rows[i][j][c];
      assert FEATURES[c] == BANDS[c];
    }
    var response := SliceChannels(stacked, |BANDS|, stacked.channels);
    var lbl := WithComplement(response);
    forall i, j | 0 <= i < lbl.height && 0 <= j < lbl.width
      ensures lbl.At(i, j)[0] == inputs[RESPONSE[0]].values[i][j]
      ensures lbl.At(i, j)[0] + lbl.At(i, j)[1] == 1.0
    {
      var v := stacked.rows[i][j][|BANDS|];
      assert response.At(i, j) == [v];
      assert Complement(response).At(i, j) == [1.0 - v];
      assert lbl.At(i, j) == [v, 1.0 - v];
      assert FEATURES[|BANDS|] == RESPONSE[0];
    }
  }

  /** to_tuple: (the band channels, the label and its complement). */
  function ToTuple(inputs: Features): (r: Result<Pair>)
    requires AllValid(inputs)
    ensures r.Ok? <==> Assemblable(inputs)
    ensures r.Err? && r.error.MissingFeature? ==> r.error.name in FEATURES && r.error.name !in inputs
    ensures r.Ok? ==> r.value.0.Valid() && r.value.1.Valid()
    ensures r.Ok? ==> Assembled(inputs, r.value.0, r.value.1)
  {
    match Gather(inputs, FEATURES)
    case Err(e) => Err(e)
    case Ok(planes) =>
      SameShapeAssemblable(inputs, planes);
      if !SameShape(planes) then Err(ShapeMismatch)
      else
        var stacked := StackChannelLast(planes);
        AssembleLayout(inputs, planes, stacked);
        Ok((SliceChannels(stacked, 0, |BANDS|), WithComplement(SliceChannels(stacked, |BANDS|, stacked.channels))))
  }
}
