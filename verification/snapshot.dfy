/**
 * The snapshot size of MapTileDownloader: the largest size with the
 * requested aspect ratio that fits the padded screen, filling its width or
 * its height.
 */
module Snapshot {

  datatype Size = Size(width: real, height: real)
  /** A requested aspect ratio, as a width and a height. */
  datatype AspectRatio = AspectRatio(width: real, height: real)
  /** Padding taken off the screen, horizontally and vertically. */
  datatype Offset = Offset(horizontal: real, vertical: real)

  /** The screen less its padding. */
  function PaddedScreen(bounds: Size, padding: Offset): Size {
    Size(bounds.width - padding.horizontal, bounds.height - padding.vertical)
  }

  /**
   * `highQualityImageSize(for:padding:)`: a ratio wider than the screen
   * takes the full width, any other the full height; the other side
   * follows from the ratio. Zero denominators are excluded.
   */
  function HighQualityImageSize(ratio: AspectRatio, bounds: Size, padding: Offset): (r: Size)
    requires PaddedScreen(bounds, padding).height != 0.0 && ratio.height != 0.0 && ratio.width != 0.0
    ensures
      var screen := PaddedScreen(bounds, padding);
      var target := ratio.width / ratio.height;
      && (target > screen.width / screen.height ==> r.width == screen.width && r.height * target == r.width)
      && (target <= screen.width / screen.height ==> r.height == screen.height && r.width == r.height * target)
  {
    var screen := PaddedScreen(bounds, padding);
    var screenAspectRatio := screen.width / screen.height;
    var targetAspectRatio := ratio.width / ratio.height;
    if targetAspectRatio > screenAspectRatio then
      var width := screen.width;
      Size(width, width / targetAspectRatio)
    else
      var height := screen.height;
      Size(height * targetAspectRatio, height)
  }

  /**
   * For a positive ratio and a padded screen of positive size, the
   * snapshot keeps the ratio, is positive, and fits the padded screen.
   */
  lemma SnapshotFits(ratio: AspectRatio, bounds: Size, padding: Offset)
    requires PaddedScreen(bounds, padding).width > 0.0 && PaddedScreen(bounds, padding).height > 0.0
    requires ratio.width > 0.0 && ratio.height > 0.0
    ensures
      var r := HighQualityImageSize(ratio, bounds, padding);
      && r.width > 0.0 && r.height > 0.0
      && r.width * ratio.height == r.height * ratio.width
      && r.width <= PaddedScreen(bounds, padding).width
      && r.height <= PaddedScreen(bounds, padding).height
  {
    var screen := PaddedScreen(bounds, padding);
    var r := HighQualityImageSize(ratio, bounds, padding);
    var target := ratio.width / ratio.height;
    var screenAspect := screen.width / screen.height;
    assert target * ratio.height == ratio.width;
    assert screenAspect * screen.height == screen.width;
    if target > screenAspect {
      WideFits(r.height, target, screenAspect, screen.height, screen.width);
    } else {
      TallFits(r.width, target, screenAspect, screen.height, screen.width);
    }
    RatioKept(r.width, r.height, target, ratio.width, ratio.height);
  }

  /** A ratio wider than the screen: the height `w / target` stays below the screen height. */
  lemma WideFits(height: real, target: real, screenAspect: real, h: real, w: real)
    requires h > 0.0 && w > 0.0 && target > screenAspect
    requires height * target == w && screenAspect * h == w
    ensures 0.0 < height < h
  {
    assert screenAspect > 0.0 by { PositiveFactor(screenAspect, h, w); }
    assert height > 0.0 by { PositiveFactor(height, target, w); }
    assert screenAspect * h < target * h;
    assert height * target < h * target;
    ProductOrder(height, h, target);
  }

  /** Any other ratio: the width `h·target` stays within the screen width. */
  lemma TallFits(width: real, target: real, screenAspect: real, h: real, w: real)
    requires h > 0.0 && target > 0.0 && target <= screenAspect
    requires width == h * target && screenAspect * h == w
    ensures 0.0 < width <= w
  {
    assert h * target <= h * screenAspect;
  }

  /** Dividing out a positive factor keeps a strict order. */
  lemma ProductOrder(x: real, y: real, k: real)
    requires k > 0.0 && x * k < y * k
    ensures x < y
  {
    assert (y - x) * k > 0.0;
  }

  /** A product with one positive factor is positive only when the other one is. */
  lemma PositiveFactor(x: real, k: real, w: real)
    requires k > 0.0 && w > 0.0 && x * k == w
    ensures x > 0.0
  {
  }

  /** A width and height in ratio `target = rw / rh` satisfy `width·rh = height·rw`. */
  lemma RatioKept(width: real, height: real, target: real, rw: real, rh: real)
    requires rh > 0.0 && target * rh == rw
    requires height * target == width
    ensures width * rh == height * rw
  {
    assert width * rh == height * target * rh;
  }
}
