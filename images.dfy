/**
 * Images as abstract grids: an H×W grid of pixels stored row by row (the
 * height-width-channels layout of a single training example), each pixel a
 * sequence of channel values. The shape is kept explicitly so that an image
 * of height zero still has a width, as a tensor does.
 */
module Images {

  type Pixel = seq<real>

  datatype Image = Image(height: nat, width: nat, channels: nat, rows: seq<seq<Pixel>>)
  {
    /** The rows form a rectangular height×width×channels array. */
    predicate Valid() {
      && |rows| == height
      && (forall i :: 0 <= i < height ==> |rows[i]| == width)
      && (forall i, j :: 0 <= i < height && 0 <= j < width ==> |rows[i][j]| == channels)
    }

    function At(i: nat, j: nat): (p: Pixel)
      requires Valid() && i < height && j < width
      ensures |p| == channels
    {
      rows[i][j]
    }
  }

  /** A (data, label) training example. */
  type Pair = (Image, Image)

  /** Two valid images of the same shape are equal when they agree at every pixel. */
  lemma {:induction false} Extensionality(a: Image, b: Image)
    requires a.Valid() && b.Valid()
    requires a.height == b.height && a.width == b.width && a.channels == b.channels
    requires forall i, j :: 0 <= i < a.height && 0 <= j < a.width ==> a.rows[i][j] == b.rows[i][j]
    ensures a == b
  {
    forall i | 0 <= i < a.height
      ensures a.rows[i] == b.rows[i]
    {
      assert |a.rows[i]| == |b.rows[i]|;
    }
    assert a.rows == b.rows;
  }
}
