/**
  The geometry metric of the drowsiness detector: the eye aspect ratio (EAR)
  of one eye and the combined EAR of a face.

  An eye is the six-point contour p0..p5 of the 68-point landmark scheme.
  The metric only ever looks at three Euclidean distances between those
  points, so an eye is modelled by those three distances:
    a = |p1 - p5|, b = |p2 - p4|   (the two vertical lid openings)
    c = |p0 - p3|                  (the horizontal corner-to-corner width)
  Computing the distances themselves (a square root on pixel coordinates)
  is not part of this model.

  The detector divides by the width without a guard. In its floating-point
  arithmetic a zero width gives infinity or NaN rather than an error, and
  that value flows on into the combined EAR and the threshold test.
 */
module EyeGeometry {

  /** The three landmark distances of one eye. */
  datatype Eye = Eye(a: real, b: real, c: real)

  /** Euclidean distances are never negative. */
  predicate WellFormed(e: Eye) {
    e.a >= 0.0 && e.b >= 0.0 && e.c >= 0.0
  }

  /** Both eye corners were placed on the same point. */
  predicate Degenerate(e: Eye) {
    e.c == 0.0
  }

  /** An EAR as the detector computes it: a number, or the non-finite value
      (infinity or NaN) produced by dividing by a zero eye width. */
  datatype Ear = Finite(value: real) | NonFinite

  /** The floating-point comparison `ear < thresh`: false for infinity and
      for NaN. */
  predicate Below(ear: Ear, thresh: real) {
    ear.Finite? && ear.value < thresh
  }

  /** eye_aspect_ratio: (A + B) / (2 C). For a proper eye the result is the
      unique ratio that, scaled by twice the eye width, gives the summed lid
      openings; a degenerate eye gives a non-finite value. */
  function EyeAspectRatio(e: Eye): (ear: Ear)
    ensures ear.Finite? <==> !Degenerate(e)
    ensures ear.Finite? ==> ear.value * (2.0 * e.c) == e.a + e.b
    ensures WellFormed(e) && ear.Finite? ==> ear.value >= 0.0
    ensures WellFormed(e) ==> (ear == Finite(0.0) <==> !Degenerate(e) && e.a == 0.0 && e.b == 0.0)
  {
    if e.c == 0.0 then NonFinite else Finite((e.a + e.b) / (2.0 * e.c))
  }

  /** A symmetric lens-shaped eye (both lid openings equal to v, width h)
      has aspect ratio v / h. */
  lemma LensRatio(v: real, h: real)
    requires v >= 0.0 && h > 0.0
    ensures EyeAspectRatio(Eye(v, v, h)) == Finite(v / h)
  {
    var ear := EyeAspectRatio(Eye(v, v, h)).value;
    assert ear * (2.0 * h) == 2.0 * v;
    assert ear * h == v;
  }

  /** Scaling the whole eye (for instance by resizing the frame) leaves its
      aspect ratio unchanged. */
  lemma ScaleInvariant(e: Eye, k: real)
    requires k > 0.0
    ensures EyeAspectRatio(Eye(k * e.a, k * e.b, k * e.c)) == EyeAspectRatio(e)
  {
    var e' := Eye(k * e.a, k * e.b, k * e.c);
    if e.c != 0.0 {
      var r, r' := EyeAspectRatio(e).value, EyeAspectRatio(e').value;
      assert r' * (2.0 * e.c) * k == (e.a + e.b) * k;
      assert r' * (2.0 * e.c) == e.a + e.b;
      assert (r' - r) * (2.0 * e.c) == 0.0;
    }
  }

  /** Closing the lids (smaller openings, same width) never raises the ratio. */
  lemma ClosingLowersRatio(e: Eye, e': Eye)
    requires WellFormed(e) && WellFormed(e')
    requires e'.c == e.c && e'.a <= e.a && e'.b <= e.b
    ensures EyeAspectRatio(e').Finite? == EyeAspectRatio(e).Finite?
    ensures EyeAspectRatio(e).Finite? ==> EyeAspectRatio(e').value <= EyeAspectRatio(e).value
  {
    if e.c != 0.0 {
      var r, r' := EyeAspectRatio(e).value, EyeAspectRatio(e').value;
      assert r - r' == ((e.a + e.b) - (e'.a + e'.b)) / (2.0 * e.c);
    }
  }

  /** A detected face: its left and right eye. */
  datatype Face = Face(left: Eye, right: Eye)

  predicate WellFormedFace(f: Face) {
    WellFormed(f.left) && WellFormed(f.right)
  }

  /** The combined EAR of a face: the arithmetic mean of both eyes' ratios,
      i.e. the point equidistant from the two, lying between them. A
      non-finite ratio on either side makes the mean non-finite. */
  function CombinedEar(leftEar: Ear, rightEar: Ear): (ear: Ear)
    ensures ear.Finite? <==> leftEar.Finite? && rightEar.Finite?
    ensures ear.Finite? ==> ear.value - leftEar.value == rightEar.value - ear.value
    ensures ear.Finite? && leftEar.value <= rightEar.value ==>
              leftEar.value <= ear.value <= rightEar.value
    ensures ear.Finite? && rightEar.value <= leftEar.value ==>
              rightEar.value <= ear.value <= leftEar.value
  {
    if leftEar.Finite? && rightEar.Finite? then
      Finite((leftEar.value + rightEar.value) / 2.0)
    else
      NonFinite
  }

  /** The combined EAR of a detected face. */
  function FaceEar(f: Face): (ear: Ear)
    ensures ear.Finite? <==> !Degenerate(f.left) && !Degenerate(f.right)
    ensures WellFormedFace(f) && ear.Finite? ==> ear.value >= 0.0
    ensures ear.Finite? ==>
              ear.value - EyeAspectRatio(f.left).value == EyeAspectRatio(f.right).value - ear.value
  {
    CombinedEar(EyeAspectRatio(f.left), EyeAspectRatio(f.right))
  }

  /** When both eyes agree on which side of a threshold they lie, the
      combined EAR lies on that side too. */
  lemma CombinedAgreesWithBothEyes(leftEar: Ear, rightEar: Ear, thresh: real)
    ensures Below(leftEar, thresh) && Below(rightEar, thresh) ==>
              Below(CombinedEar(leftEar, rightEar), thresh)
    ensures !Below(leftEar, thresh) && !Below(rightEar, thresh) ==>
              !Below(CombinedEar(leftEar, rightEar), thresh)
  {
  }

  /** A face with a degenerate eye never compares below any threshold. */
  lemma DegenerateFaceNeverBelow(f: Face, thresh: real)
    requires Degenerate(f.left) || Degenerate(f.right)
    ensures !Below(FaceEar(f), thresh)
  {
  }
}
