/** The width/height rule the compressor applies before drawing onto the
    canvas. Bounds are positive naturals; `None` is the default bound,
    positive infinity, which no side exceeds. */
module TargetSize {
  import opened Wrappers

  datatype Dims = Dims(width: nat, height: nat)

  /** A bound the rule can divide by: infinite, or a positive number. */
  predicate ValidBound(bound: Option<nat>) {
    bound.Some? ==> bound.value > 0
  }

  /** `side > bound`, where an infinite bound is never exceeded. */
  predicate Exceeds(side: nat, bound: Option<nat>) {
    bound.Some? && side > bound.value
  }

  /** The smaller of `side` and `bound`: the reference for a clamp. */
  function Clamp(side: nat, bound: Option<nat>): (clamped: nat) {
    match bound
    case None => side
    case Some(m) => if m < side then m else side
  }

  /** `side *= numerator / denominator` on exact rationals, truncated to a
      whole number of pixels as the canvas does when the size is assigned. */
  function Rescale(side: nat, numerator: nat, denominator: nat): (r: nat)
    requires denominator > 0
    ensures numerator == denominator ==> r == side
  {
    var factor := numerator as real / denominator as real;
    assert factor * denominator as real == numerator as real;
    assert factor >= 0.0;
    var scaled := side as real * factor;
    assert scaled >= 0.0;
    assert numerator == denominator ==> factor == 1.0 && scaled == side as real;
    scaled.Floor
  }

  /** The target size computed in `compressed.onload`: the dominant side is
      assigned its bound when it exceeds it, and the other side is then
      multiplied by `bound / side` with `side` already equal to the bound. */
  function TargetDims(source: Dims, maxWidth: Option<nat>, maxHeight: Option<nat>): (r: Dims)
    requires ValidBound(maxWidth) && ValidBound(maxHeight)
    ensures source.width > source.height ==> r == Dims(Clamp(source.width, maxWidth), source.height)
    ensures source.width <= source.height ==> r == Dims(source.width, Clamp(source.height, maxHeight))
  {
    if source.width > source.height then
      if Exceeds(source.width, maxWidth) then
        var width := maxWidth.value;
        Dims(width, Rescale(source.height, maxWidth.value, width))
      else
        source
    else
      if Exceeds(source.height, maxHeight) then
        var height := maxHeight.value;
        Dims(Rescale(source.width, maxHeight.value, height), height)
      else
        source
  }

  /** Neither side ever grows. */
  lemma TargetDimsNoLarger(source: Dims, maxWidth: Option<nat>, maxHeight: Option<nat>)
    requires ValidBound(maxWidth) && ValidBound(maxHeight)
    ensures TargetDims(source, maxWidth, maxHeight).width <= source.width
    ensures TargetDims(source, maxWidth, maxHeight).height <= source.height
  {
  }

  /** The dominant side (width when strictly wider, height otherwise) ends
      within its own bound. */
  lemma DominantSideWithinBound(source: Dims, maxWidth: Option<nat>, maxHeight: Option<nat>)
    requires ValidBound(maxWidth) && ValidBound(maxHeight)
    ensures source.width > source.height && maxWidth.Some? ==>
      TargetDims(source, maxWidth, maxHeight).width <= maxWidth.value
    ensures source.width <= source.height && maxHeight.Some? ==>
      TargetDims(source, maxWidth, maxHeight).height <= maxHeight.value
  {
  }

  /** An image whose dominant side is within its bound is left as it is;
      so is every image when both bounds are left at infinity. */
  lemma WithinBoundUnchanged(source: Dims, maxWidth: Option<nat>, maxHeight: Option<nat>)
    requires ValidBound(maxWidth) && ValidBound(maxHeight)
    requires source.width > source.height ==> !Exceeds(source.width, maxWidth)
    requires source.width <= source.height ==> !Exceeds(source.height, maxHeight)
    ensures TargetDims(source, maxWidth, maxHeight) == source
  {
  }

  /** Only the dominant side is clamped: the other one can stay above its
      own bound. */
  lemma NonDominantSideMayExceedBound()
    ensures TargetDims(Dims(2000, 1500), Some(1000), Some(1000)) == Dims(1000, 1500)
  {
  }

  /** The aspect ratio is not kept: 2000x1000 becomes 1000x1000, not 1000x500. */
  lemma AspectRatioNotPreserved()
    ensures TargetDims(Dims(2000, 1000), Some(1000), Some(1000)) == Dims(1000, 1000)
  {
  }

  /** Whenever the rule shrinks a picture of non-zero size, the width to
      height ratio of the result differs from that of the source. */
  lemma ShrinkingChangesAspectRatio(source: Dims, maxWidth: Option<nat>, maxHeight: Option<nat>)
    requires ValidBound(maxWidth) && ValidBound(maxHeight)
    requires source.width > 0 && source.height > 0
    requires TargetDims(source, maxWidth, maxHeight) != source
    ensures var r := TargetDims(source, maxWidth, maxHeight);
            r.width * source.height != source.width * r.height
  {
  }

  /** A second pass with the same bounds can shrink the image again. */
  lemma SecondPassMayShrinkAgain()
    ensures var once := TargetDims(Dims(2000, 1500), Some(1000), Some(1000));
            TargetDims(once, Some(1000), Some(1000)) == Dims(1000, 1000) != once
  {
  }
}
