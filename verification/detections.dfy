/** Target-class counting over one detector result. The detector itself
    (the YOLO model) is outside the model: its output for an image or frame
    is given as a sequence of `Detection` rows. */
module Detections {

  /** One row of the detector's box table: corners, confidence and class id.
      The class id is a floating-point column in the source, so it is `real`. */
  datatype Detection = Detection(x1: real, y1: real, x2: real, y2: real, confidence: real, classId: real)

  /** The class id counted as plastic litter. */
  const PlasticClass: real := 0.0

  /** The class-id column of the detection table (empty when there are no rows). */
  function Classes(ds: seq<Detection>): (cs: seq<real>)
    ensures |cs| == |ds|
    ensures forall i :: 0 <= i < |ds| ==> cs[i] == ds[i].classId
  {
    seq(|ds|, i requires 0 <= i < |ds| => ds[i].classId)
  }

  /** Number of entries of `xs` equal to `target`. */
  function CountEqual(xs: seq<real>, target: real): (n: nat)
    ensures n <= |xs|
  {
    if xs == [] then 0
    else (if xs[0] == target then 1 else 0) + CountEqual(xs[1..], target)
  }

  /** The plastic count of one detector result: how many rows have class 0. */
  function PlasticCount(ds: seq<Detection>): (n: nat)
    ensures n <= |ds|
    ensures ds == [] ==> n == 0
  {
    CountEqual(Classes(ds), PlasticClass)
  }

  /** The count agrees with the multiplicity of `target` in `xs`. */
  lemma {:induction false} CountIsMultiplicity(xs: seq<real>, target: real)
    ensures CountEqual(xs, target) == multiset(xs)[target]
  {
    if xs != [] {
      CountIsMultiplicity(xs[1..], target);
      assert xs == [xs[0]] + xs[1..];
      assert multiset(xs) == multiset([xs[0]]) + multiset(xs[1..]);
    }
  }

  /** The count is zero exactly when no entry equals `target`. */
  lemma {:induction false} CountZeroIff(xs: seq<real>, target: real)
    ensures CountEqual(xs, target) == 0 <==> forall i :: 0 <= i < |xs| ==> xs[i] != target
  {
    if xs != [] {
      CountZeroIff(xs[1..], target);
      assert forall i :: 1 <= i < |xs| ==> xs[i] == xs[1..][i - 1];
    }
  }

  /** The count reaches the length exactly when every entry equals `target`. */
  lemma {:induction false} CountFullIff(xs: seq<real>, target: real)
    ensures CountEqual(xs, target) == |xs| <==> forall i :: 0 <= i < |xs| ==> xs[i] == target
  {
    if xs != [] {
      CountFullIff(xs[1..], target);
      assert forall i :: 1 <= i < |xs| ==> xs[i] == xs[1..][i - 1];
    }
  }

  /** The plastic count is the number of rows whose class id is 0, counted
      as the multiplicity of 0 in the class column; it is zero exactly when
      no row has class 0. */
  lemma PlasticCountSpec(ds: seq<Detection>)
    ensures PlasticCount(ds) == multiset(Classes(ds))[PlasticClass]
    ensures PlasticCount(ds) == 0 <==> forall i :: 0 <= i < |ds| ==> ds[i].classId != PlasticClass
    ensures PlasticCount(ds) == |ds| <==> forall i :: 0 <= i < |ds| ==> ds[i].classId == PlasticClass
  {
    CountIsMultiplicity(Classes(ds), PlasticClass);
    CountZeroIff(Classes(ds), PlasticClass);
    CountFullIff(Classes(ds), PlasticClass);
  }
}
