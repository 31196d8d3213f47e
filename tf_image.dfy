/**
 * The three geometric image operations that the augmentation stage calls,
 * defined by index formulas on a single height×width×channels image:
 * flip_left_right reverses the width axis, flip_up_down reverses the height
 * axis, and rot90(k) rotates counter-clockwise k quarter turns, taking k
 * modulo 4 and choosing among the identity, a quarter turn (reverse the
 * width, then transpose), a half turn (reverse both axes) and a three-quarter
 * turn (transpose, then reverse the width).
 */
module TfImage {
  import opened Images

  function FlipLeftRight(img: Image): (r: Image)
    requires img.Valid()
    ensures r.Valid()
    ensures r.height == img.height && r.width == img.width && r.channels == img.channels
  {
    var h, w := img.height, img.width;
    Image(h, w, img.channels,
      seq(h, i requires 0 <= i < h =>
        seq(w, j requires 0 <= j < w => img.rows[i][w - 1 - j])))
  }

  function FlipUpDown(img: Image): (r: Image)
    requires img.Valid()
    ensures r.Valid()
    ensures r.height == img.height && r.width == img.width && r.channels == img.channels
  {
    var h, w := img.height, img.width;
    Image(h, w, img.channels,
      seq(h, i requires 0 <= i < h =>
        seq(w, j requires 0 <= j < w => img.rows[h - 1 - i][j])))
  }

  /** Shape of the result of rotating an h×w image by k quarter turns. */
  predicate Swaps(k: int) {
    k % 4 == 1 || k % 4 == 3
  }

  function Rot90(img: Image, k: int): (r: Image)
    requires img.Valid()
    ensures r.Valid() && r.channels == img.channels
    ensures Swaps(k) ==> r.height == img.width && r.width == img.height
    ensures !Swaps(k) ==> r.height == img.height && r.width == img.width
  {
    var h, w := img.height, img.width;
    if k % 4 == 1 then
      Image(w, h, img.channels,
        seq(w, i requires 0 <= i < w =>
          seq(h, j requires 0 <= j < h => img.rows[j][w - 1 - i])))
    else if k % 4 == 2 then
      Image(h, w, img.channels,
        seq(h, i requires 0 <= i < h =>
          seq(w, j requires 0 <= j < w => img.rows[h - 1 - i][w - 1 - j])))
    else if k % 4 == 3 then
      Image(w, h, img.channels,
        seq(w, i requires 0 <= i < w =>
          seq(h, j requires 0 <= j < h => img.rows[h - 1 - j][i])))
    else
      img
  }

  /** Rotating by one quarter turn, n times over. */
  function QuarterTurns(img: Image, n: nat): (r: Image)
    requires img.Valid()
    ensures r.Valid() && r.channels == img.channels
  {
    if n == 0 then img else Rot90(QuarterTurns(img, n - 1), 1)
  }

  lemma {:induction false} FlipLeftRightInvolution(img: Image)
    requires img.Valid()
    ensures FlipLeftRight(FlipLeftRight(img)) == img
  {
    Extensionality(FlipLeftRight(FlipLeftRight(img)), img);
  }

  lemma {:induction false} FlipUpDownInvolution(img: Image)
    requires img.Valid()
    ensures FlipUpDown(FlipUpDown(img)) == img
  {
    Extensionality(FlipUpDown(FlipUpDown(img)), img);
  }

  /** The two flips commute, and together they are the half turn rot90(k=2). */
  lemma {:induction false} FlipsAreHalfTurn(img: Image)
    requires img.Valid()
    ensures FlipLeftRight(FlipUpDown(img)) == Rot90(img, 2)
    ensures FlipUpDown(FlipLeftRight(img)) == Rot90(img, 2)
  {
    Extensionality(FlipLeftRight(FlipUpDown(img)), Rot90(img, 2));
    Extensionality(FlipUpDown(FlipLeftRight(img)), Rot90(img, 2));
  }

  /** One more quarter turn after k quarter turns is k + 1 quarter turns. */
  lemma {:induction false} QuarterTurnStep(img: Image, k: int)
    requires img.Valid()
    ensures Rot90(Rot90(img, k), 1) == Rot90(img, k + 1)
  {
    var a := Rot90(img, k);
    if k % 4 == 0 {
      assert a == img;
    } else {
      Extensionality(Rot90(a, 1), Rot90(img, k + 1));
    }
  }

  /** rot90(k) is exactly k counter-clockwise quarter turns. */
  lemma {:induction false} Rot90IsQuarterTurns(img: Image, n: nat)
    requires img.Valid()
    ensures QuarterTurns(img, n) == Rot90(img, n)
  {
    if n == 0 {
      assert Rot90(img, 0) == img;
    } else {
      Rot90IsQuarterTurns(img, n - 1);
      QuarterTurnStep(img, n - 1);
    }
  }

  lemma {:induction false} QuarterTurnsAdd(img: Image, a: nat, b: nat)
    requires img.Valid()
    ensures QuarterTurns(QuarterTurns(img, a), b) == QuarterTurns(img, a + b)
  {
    if b > 0 {
      QuarterTurnsAdd(img, a, b - 1);
    }
  }

  /** Only the number of quarter turns modulo 4 matters. */
  lemma {:induction false} Rot90Mod(img: Image, k: int, n: int)
    requires img.Valid() && k % 4 == n % 4
    ensures Rot90(img, k) == Rot90(img, n)
  {
  }

  /** Rotations compose additively: rot90(rot90(img, k), j) == rot90(img, k + j). */
  lemma {:induction false} Rot90Add(img: Image, k: int, j: int)
    requires img.Valid()
    ensures Rot90(Rot90(img, k), j) == Rot90(img, k + j)
  {
    var a: nat, b: nat := k % 4, j % 4;
    var mid := Rot90(img, k);
    Rot90Mod(img, k, a);
    Rot90Mod(mid, j, b);
    Rot90Mod(img, k + j, a + b);
    calc {
      Rot90(mid, j);
      Rot90(mid, b);
      { Rot90IsQuarterTurns(mid, b); }
      QuarterTurns(mid, b);
      { Rot90IsQuarterTurns(img, a); }
      QuarterTurns(QuarterTurns(img, a), b);
      { QuarterTurnsAdd(img, a, b); }
      QuarterTurns(img, a + b);
      { Rot90IsQuarterTurns(img, a + b); }
      Rot90(img, a + b);
    }
  }

  /** Four quarter turns restore the image; a quarter turn and a three-quarter turn undo each other. */
  lemma {:induction false} Rot90Inverse(img: Image, k: int)
    requires img.Valid()
    ensures Rot90(Rot90(img, k), 4 - k) == img
    ensures Rot90(Rot90(img, k), -k) == img
  {
    Rot90Add(img, k, 4 - k);
    Rot90Add(img, k, -k);
    assert Rot90(img, 4) == img;
    assert Rot90(img, 0) == img;
  }
}
