/**
 * Tissue thresholding and mask bookkeeping (utils/mask_utils.py): a global
 * intensity threshold by Otsu's method or by a two-component Gaussian mixture,
 * floored at a configured minimum, and the binary tissue mask with its area
 * metadata. Otsu's method, the mixture fit, the Gaussian intersection, the
 * per-pixel median and the two morphology operations are library numerics and
 * enter as function-typed parameters.
 */
module MaskUtils {
  import opened Common

  // ---------------------------------------------------------------------------
  // Thresholds
  // ---------------------------------------------------------------------------

  /** Means, standard deviations and weights of the two mixture components. */
  datatype GmmFit = GmmFit(means: (real, real), stds: (real, real), weights: (real, real))

  datatype Estimators = Estimators(
    otsu: seq<real> -> real,
    /** The mixture fit with a random seed; None when it raises ConvergenceWarning or ValueError. */
    gmmFit: (seq<real>, int) -> Option<GmmFit>,
    /** `find_gaussian_intersection(m0, s0, w0, m1, s1, w1)`. */
    intersection: (real, real, real, real, real, real) -> real,
    /** `np.median` of the channel values at one pixel. */
    median: seq<real> -> real)

  /** The configuration entries the thresholds read; absent entries are None. */
  datatype ThresholdConfig = ThresholdConfig(minTissueThreshold: Option<real>, seed: Option<int>)

  /** The threshold metadata record; `gmm` holds the sorted fit on the mixture path. */
  datatype ThresholdMeta = ThresholdMeta(methodName: string, threshold: real, minThreshold: real, gmm: Option<GmmFit>)

  /** `preprocessing.min_tissue_threshold`, 0 when absent. */
  function MinTissueThreshold(cfg: ThresholdConfig): real
  {
    OrElse(cfg.minTissueThreshold, 0.0)
  }

  /** `seed`, 42 when absent. */
  function Seed(cfg: ThresholdConfig): int
  {
    OrElse(cfg.seed, 42)
  }

  /** `max(threshold, floor)`: the larger of the two. */
  function Floored(t: real, floor: real): (r: real)
    ensures r >= t && r >= floor
    ensures r == t || r == floor
  {
    if floor > t then floor else t
  }

  /** Every intensity of every channel, channel after channel. */
  function AllValues(chs: seq<Channel>): (r: seq<real>)
    ensures forall c, y, x :: 0 <= c < |chs| && InGrid(chs[c].plane, y, x) ==> chs[c].plane[y][x] in r
  {
    if |chs| == 0 then []
    else
      var front := AllValues(chs[..|chs| - 1]);
      var last := chs[|chs| - 1].plane;
      assert forall y, x :: InGrid(last, y, x) ==> last[y][x] in Flatten(last) by {
        forall y, x | InGrid(last, y, x) ensures last[y][x] in Flatten(last) {
          FlattenContains(last, y, x);
        }
      }
      front + Flatten(last)
  }

  /** Otsu's threshold on the given values, floored, with its metadata. */
  function OtsuThreshold(values: seq<real>, cfg: ThresholdConfig, est: Estimators): (r: (real, ThresholdMeta))
    ensures r.0 >= MinTissueThreshold(cfg) && r.0 >= est.otsu(values)
    ensures r.0 == est.otsu(values) || r.0 == MinTissueThreshold(cfg)
    ensures r.1 == ThresholdMeta("otsu", r.0, MinTissueThreshold(cfg), None)
  {
    var t := Floored(est.otsu(values), MinTissueThreshold(cfg));
    (t, ThresholdMeta("otsu", t, MinTissueThreshold(cfg), None))
  }

  /** `determine_otsu_tissue_threshold` on a multi-channel composite. */
  function DetermineOtsuThreshold(composite: Image, cfg: ThresholdConfig, est: Estimators): (r: (real, ThresholdMeta))
    ensures r == OtsuThreshold(AllValues(composite.channels), cfg, est)
    ensures r.0 >= MinTissueThreshold(cfg) && r.1.methodName == "otsu" && r.1.threshold == r.0
  {
    OtsuThreshold(AllValues(composite.channels), cfg, est)
  }

  /** The channel values at pixel (y, x). */
  function PixelValues(chs: seq<Channel>, y: int, x: int): (r: seq<real>)
    ensures |r| == |chs| && forall c :: 0 <= c < |chs| ==> r[c] == Get(chs[c].plane, y, x)
  {
    seq(|chs|, c requires 0 <= c < |chs| => Get(chs[c].plane, y, x))
  }

  /** `np.median(composite, axis = 0)`: the per-pixel median over the channels. */
  function MedianComposite(img: Image, est: Estimators): (r: Grid)
    ensures HasShape(r, img.height, img.width)
    ensures forall y, x :: 0 <= y < img.height && 0 <= x < img.width ==>
              r[y][x] == est.median(PixelValues(img.channels, y, x))
  {
    seq(img.height, y requires 0 <= y < img.height =>
      seq(img.width, x requires 0 <= x < img.width => est.median(PixelValues(img.channels, y, x))))
  }

  /** The fit with its two components exchanged, in all three arrays alike. */
  function Swapped(fit: GmmFit): GmmFit
  {
    GmmFit((fit.means.1, fit.means.0), (fit.stds.1, fit.stds.0), (fit.weights.1, fit.weights.0))
  }

  /**
   * Reindexing by `np.argsort(means)`: the components in ascending order of
   * mean. Equal means keep their order.
   */
  function SortedByMean(fit: GmmFit): (r: GmmFit)
    ensures r.means.0 <= r.means.1
    ensures r == fit || r == Swapped(fit)
    ensures fit.means.0 <= fit.means.1 ==> r == fit
  {
    if fit.means.1 < fit.means.0 then Swapped(fit) else fit
  }

  /** `determine_gmm_tissue_threshold`. */
  function DetermineGmmThreshold(composite: Image, cfg: ThresholdConfig, est: Estimators): (r: (real, ThresholdMeta))
    ensures r.0 >= MinTissueThreshold(cfg)
    ensures r.1.threshold == r.0 && r.1.minThreshold == MinTissueThreshold(cfg)
    ensures r.1.methodName == "gmm" <==> est.gmmFit(Flatten(MedianComposite(composite, est)), Seed(cfg)).Some?
  {
    var median := MedianComposite(composite, est);
    var pixels := Flatten(median);
    match est.gmmFit(pixels, Seed(cfg))
    case None => OtsuThreshold(pixels, cfg, est)
    case Some(fit) =>
      var s := SortedByMean(fit);
      var t := est.intersection(s.means.0, s.stds.0, s.weights.0, s.means.1, s.stds.1, s.weights.1);
      var floored := Floored(t, MinTissueThreshold(cfg));
      (floored, ThresholdMeta("gmm", floored, MinTissueThreshold(cfg), Some(s)))
  }

  /** A failed fit falls back to Otsu's threshold on the median-aggregated pixels. */
  lemma GmmFallback(composite: Image, cfg: ThresholdConfig, est: Estimators)
    requires est.gmmFit(Flatten(MedianComposite(composite, est)), Seed(cfg)).None?
    ensures DetermineGmmThreshold(composite, cfg, est)
            == OtsuThreshold(Flatten(MedianComposite(composite, est)), cfg, est)
    ensures DetermineGmmThreshold(composite, cfg, est).1.methodName == "otsu"
  {
  }

  /**
   * On success the recorded components are the fitted ones permuted into
   * ascending order of mean, and the threshold is their intersection floored.
   */
  lemma GmmSuccess(composite: Image, cfg: ThresholdConfig, est: Estimators, fit: GmmFit)
    requires est.gmmFit(Flatten(MedianComposite(composite, est)), Seed(cfg)) == Some(fit)
    ensures var r := DetermineGmmThreshold(composite, cfg, est);
            r.1.gmm.Some? && (r.1.gmm.value == fit || r.1.gmm.value == Swapped(fit)) &&
            r.1.gmm.value.means.0 <= r.1.gmm.value.means.1
    ensures var r := DetermineGmmThreshold(composite, cfg, est);
            var s := r.1.gmm.value;
            var t := est.intersection(s.means.0, s.stds.0, s.weights.0, s.means.1, s.stds.1, s.weights.1);
            r.0 >= t && (r.0 == t || r.0 == MinTissueThreshold(cfg))
  {
  }

  // ---------------------------------------------------------------------------
  // The tissue mask and its metadata
  // ---------------------------------------------------------------------------

  datatype Morphology = Morphology(
    removeSmallObjects: (Mask, int) -> Mask,
    removeSmallHoles: (Mask, int) -> Mask)

  /**
   * The `tissue_mask` section: `small_object_threshold` and
   * `small_hole_threshold`, None when the entry is absent.
   */
  datatype MaskConfig = MaskConfig(smallObjectThreshold: Option<int>, smallHoleThreshold: Option<int>)

  /**
   * Failures, in the order the source meets them: no `tissue_mask` section
   * (`.get` on None), an enabled cleaning step whose threshold is absent (the
   * cleaner compares sizes with None), a total that was never assigned
   * because its step was switched off, and the division by a zero image area.
   */
  datatype MaskError =
    | MissingMaskSection
    | NoObjectThreshold
    | NoHoleThreshold
    | UndefinedRemovedArea
    | UndefinedFilledArea
    | ZeroImageArea

  datatype MaskMeta = MaskMeta(
    rawMaskArea: int,
    cleanMaskArea: int,
    fullImgArea: int,
    removedObjectsArea: int,
    filledHolesArea: int,
    maskCoveragePercent: int,
    cleaningAreaChange: int,
    cleaningAreaChangePercent: real)

  /** Whether some channel strictly exceeds the threshold at (y, x). */
  predicate AnyAbove(chs: seq<Channel>, y: int, x: int, t: real)
    ensures AnyAbove(chs, y, x, t) <==> exists c :: 0 <= c < |chs| && Get(chs[c].plane, y, x) > t
  {
    if |chs| == 0 then false
    else
      var n := |chs| - 1;
      assert forall c :: 0 <= c < n ==> chs[..n][c] == chs[c];
      AnyAbove(chs[..n], y, x, t) || Get(chs[n].plane, y, x) > t
  }

  /** `(composite > threshold).any(channel)`: the raw H x W tissue mask. */
  function RawMask(img: Image, t: real): (r: Mask)
    ensures HasShape(r, img.height, img.width)
    ensures forall y, x :: 0 <= y < img.height && 0 <= x < img.width ==>
              (r[y][x] <==> exists c :: 0 <= c < |img.channels| && Get(img.channels[c].plane, y, x) > t)
  {
    seq(img.height, y requires 0 <= y < img.height =>
      seq(img.width, x requires 0 <= x < img.width => AnyAbove(img.channels, y, x, t)))
  }

  /** The metadata dictionary for a raw, a de-speckled and a final mask over a full area. */
  function Metadata(raw: Mask, objects: Mask, final: Mask, full: nat): MaskMeta
    requires full > 0
  {
    var orig := Count(raw);
    var clean := Count(final);
    MaskMeta(
      orig, clean, full,
      Count(AndNot(raw, objects)),
      Count(AndNot(final, raw)),
      clean / full,
      clean - orig,
      if orig > 0 then (clean - orig) as real / orig as real * 100.0 else 0.0)
  }

  /** `generate_tissue_mask` as a value: the final mask and its metadata, or the first failure. */
  function TissueMask(composite: Image, threshold: real, removeObjects: bool, fillHoles: bool,
                      cfg: Option<MaskConfig>, morph: Morphology): Result<(Mask, MaskMeta), MaskError>
  {
    var raw := RawMask(composite, threshold);
    if cfg.None? then Err(MissingMaskSection)
    else if removeObjects && cfg.value.smallObjectThreshold.None? then Err(NoObjectThreshold)
    else if fillHoles && cfg.value.smallHoleThreshold.None? then Err(NoHoleThreshold)
    else if !removeObjects then Err(UndefinedRemovedArea)
    else if !fillHoles then Err(UndefinedFilledArea)
    else if composite.height * composite.width == 0 then Err(ZeroImageArea)
    else
      var objects := morph.removeSmallObjects(raw, cfg.value.smallObjectThreshold.value);
      var final := morph.removeSmallHoles(objects, cfg.value.smallHoleThreshold.value);
      Ok((final, Metadata(raw, objects, final, composite.height * composite.width)))
  }

  /** A configuration section with both thresholds present. */
  predicate Complete(cfg: Option<MaskConfig>)
  {
    cfg.Some? && cfg.value.smallObjectThreshold.Some? && cfg.value.smallHoleThreshold.Some?
  }

  /**
   * The configuration is read, the mask is thresholded, then cleaned step by
   * step; each enabled step records its area total, and the metadata is
   * assembled at the end.
   */
  method GenerateTissueMask(composite: Image, threshold: real, removeObjects: bool, fillHoles: bool,
                            cfg: Option<MaskConfig>, morph: Morphology)
    returns (r: Result<(Mask, MaskMeta), MaskError>)
    ensures r == TissueMask(composite, threshold, removeObjects, fillHoles, cfg, morph)
    ensures r.Ok? <==> Complete(cfg) && removeObjects && fillHoles && composite.height * composite.width > 0
  {
    if cfg.None? {
      return Err(MissingMaskSection);
    }
    var objectThreshold := cfg.value.smallObjectThreshold;
    var holeThreshold := cfg.value.smallHoleThreshold;
    var mask := RawMask(composite, threshold);
    var origArea: int := Count(mask);
    var original := mask;
    var objects := mask;
    var removedArea: Option<nat> := None;
    if removeObjects {
      if objectThreshold.None? {
        return Err(NoObjectThreshold);
      }
      mask := morph.removeSmallObjects(mask, objectThreshold.value);
      objects := mask;
      removedArea := Some(Count(AndNot(original, mask)));
    }
    var filledArea: Option<nat> := None;
    if fillHoles {
      if holeThreshold.None? {
        return Err(NoHoleThreshold);
      }
      mask := morph.removeSmallHoles(mask, holeThreshold.value);
      filledArea := Some(Count(AndNot(mask, original)));
    }
    var finalArea: int := Count(mask);
    var imgArea := composite.height * composite.width;
    if removedArea.None? {
      return Err(UndefinedRemovedArea);
    }
    if filledArea.None? {
      return Err(UndefinedFilledArea);
    }
    if imgArea == 0 {
      return Err(ZeroImageArea);
    }
    var changePercent := if origArea > 0 then (finalArea - origArea) as real / origArea as real * 100.0 else 0.0;
    var meta := MaskMeta(origArea, finalArea, imgArea, removedArea.value, filledArea.value,
                         finalArea / imgArea, finalArea - origArea, changePercent);
    r := Ok((mask, meta));
  }

  /** The raw area counts exactly the pixels where some channel exceeds the threshold. */
  lemma RawAreaCountsAbove(composite: Image, threshold: real, objectThreshold: int, holeThreshold: int,
                           morph: Morphology)
    requires composite.height * composite.width > 0
    ensures var r := TissueMask(composite, threshold, true, true,
                                Some(MaskConfig(Some(objectThreshold), Some(holeThreshold))), morph);
            r.Ok? && r.value.1.rawMaskArea == Count(RawMask(composite, threshold)) &&
            r.value.1.fullImgArea == composite.height * composite.width &&
            r.value.1.cleanMaskArea == Count(r.value.0) &&
            r.value.1.cleaningAreaChange == r.value.1.cleanMaskArea - r.value.1.rawMaskArea
  {
  }

  /**
   * Removed objects are raw tissue pixels and filled holes are final-mask
   * pixels, so neither total exceeds its mask's area; all areas are non-negative.
   */
  lemma AreaTotalsBounded(raw: Mask, objects: Mask, final: Mask, full: nat)
    requires full > 0
    ensures var m := Metadata(raw, objects, final, full);
            0 <= m.removedObjectsArea <= m.rawMaskArea &&
            0 <= m.filledHolesArea <= m.cleanMaskArea
  {
    assert Within(AndNot(raw, objects), raw);
    CountWithin(AndNot(raw, objects), raw);
    assert Within(AndNot(final, raw), final);
    CountWithin(AndNot(final, raw), final);
  }

  /**
   * For an H x W final mask the clean area is at most the image area, and the
   * coverage field (the integer part of their ratio) is 1 exactly when every
   * pixel is tissue and 0 otherwise.
   */
  lemma CoverageIsWholeOrNothing(raw: Mask, objects: Mask, final: Mask, h: nat, w: nat)
    requires h * w > 0 && HasShape(final, h, w)
    ensures var m := Metadata(raw, objects, final, h * w);
            0 <= m.cleanMaskArea <= m.fullImgArea &&
            (m.maskCoveragePercent == 1 <==> forall y, x :: 0 <= y < h && 0 <= x < w ==> final[y][x]) &&
            (m.maskCoveragePercent == 0 || m.maskCoveragePercent == 1)
  {
    CountFull(final, h, w);
    WholeOrNothing(Count(final), h * w);
  }

  /** Cleaners that keep the shape of every h x w mask, as scikit-image's do. */
  ghost predicate ShapePreserving(morph: Morphology, h: nat, w: nat)
  {
    KeepsShape(morph.removeSmallObjects, h, w) && KeepsShape(morph.removeSmallHoles, h, w)
  }

  ghost predicate KeepsShape(clean: (Mask, int) -> Mask, h: nat, w: nat)
  {
    forall m: Mask, t: int {:trigger clean(m, t)} :: HasShape(m, h, w) ==> HasShape(clean(m, t), h, w)
  }

  lemma KeptShape(clean: (Mask, int) -> Mask, h: nat, w: nat, m: Mask, t: int)
    requires KeepsShape(clean, h, w) && HasShape(m, h, w)
    ensures HasShape(clean(m, t), h, w)
  {
  }

  /**
   * For shape-preserving cleaners the mask generate_tissue_mask returns is
   * H x W, its area is at most the image's, and its coverage field is 1
   * exactly when every pixel is tissue and 0 otherwise.
   */
  lemma TissueMaskCoverage(composite: Image, threshold: real, removeObjects: bool, fillHoles: bool,
                           cfg: Option<MaskConfig>, morph: Morphology)
    requires ShapePreserving(morph, composite.height, composite.width)
    requires TissueMask(composite, threshold, removeObjects, fillHoles, cfg, morph).Ok?
    ensures var r := TissueMask(composite, threshold, removeObjects, fillHoles, cfg, morph).value;
            HasShape(r.0, composite.height, composite.width) &&
            0 <= r.1.cleanMaskArea <= r.1.fullImgArea &&
            (r.1.maskCoveragePercent == 1 <==>
               forall y, x :: 0 <= y < composite.height && 0 <= x < composite.width ==> r.0[y][x]) &&
            (r.1.maskCoveragePercent == 0 || r.1.maskCoveragePercent == 1)
  {
    var h, w := composite.height, composite.width;
    var raw := RawMask(composite, threshold);
    var objects := morph.removeSmallObjects(raw, cfg.value.smallObjectThreshold.value);
    var final := morph.removeSmallHoles(objects, cfg.value.smallHoleThreshold.value);
    KeptShape(morph.removeSmallObjects, h, w, raw, cfg.value.smallObjectThreshold.value);
    KeptShape(morph.removeSmallHoles, h, w, objects, cfg.value.smallHoleThreshold.value);
    CoverageIsWholeOrNothing(raw, objects, final, h, w);
  }

  /** The integer part of a ratio c / n with c at most n: 1 when c is n, else 0. */
  lemma WholeOrNothing(c: nat, n: nat)
    requires 0 < n && c <= n
    ensures c / n == if c == n then 1 else 0
  {
    if c < n {
      assert c / n == 0;
    }
  }

  /** The percentage change is 0 from an empty raw mask and otherwise has the sign of the change. */
  lemma ChangePercentSign(raw: Mask, objects: Mask, final: Mask, full: nat)
    requires full > 0
    ensures var m := Metadata(raw, objects, final, full);
            (m.rawMaskArea == 0 ==> m.cleaningAreaChangePercent == 0.0) &&
            (m.rawMaskArea > 0 ==>
               (m.cleaningAreaChangePercent > 0.0 <==> m.cleanMaskArea > m.rawMaskArea) &&
               (m.cleaningAreaChangePercent == 0.0 <==> m.cleanMaskArea == m.rawMaskArea))
  {
    var m := Metadata(raw, objects, final, full);
    if m.rawMaskArea > 0 {
      var d := (m.cleanMaskArea - m.rawMaskArea) as real;
      var o := m.rawMaskArea as real;
      assert m.cleaningAreaChangePercent == d / o * 100.0;
      RatioSign(d, o);
    }
  }

  lemma RatioSign(d: real, o: real)
    requires o > 0.0
    ensures d / o * 100.0 > 0.0 <==> d > 0.0
    ensures d / o * 100.0 == 0.0 <==> d == 0.0
  {
    assert d / o * o == d;
  }

  /**
   * When object removal only removes pixels, hole filling only adds pixels, and
   * no removed pixel is filled again, the area change is the filled area minus
   * the removed area.
   */
  lemma AreaChangeBalance(raw: Mask, objects: Mask, final: Mask, full: nat)
    requires full > 0
    requires Within(objects, raw) && Within(objects, final)
    requires forall y, x :: 0 <= y < |raw| && 0 <= x < |raw[y]| && raw[y][x] && !objects[y][x] ==> !final[y][x]
    ensures var m := Metadata(raw, objects, final, full);
            m.cleaningAreaChange == m.filledHolesArea - m.removedObjectsArea
  {
    CountSplit(final, raw);
    CountSplit(raw, objects);
    KeptPixelsAgree(raw, objects, final);
  }

  /** Under those conditions the final tissue inside the raw mask is exactly the kept objects. */
  lemma KeptPixelsAgree(raw: Mask, objects: Mask, final: Mask)
    requires Within(objects, raw) && Within(objects, final)
    requires forall y, x :: 0 <= y < |raw| && 0 <= x < |raw[y]| && raw[y][x] && !objects[y][x] ==> !final[y][x]
    ensures And(final, raw) == And(raw, objects)
  {
    forall y | 0 <= y < |raw| ensures And(final, raw)[y] == And(raw, objects)[y] {
      assert forall x :: 0 <= x < |raw[y]| ==> And(final, raw)[y][x] == And(raw, objects)[y][x];
    }
  }

  /**
   * The filled total is measured against the raw mask, so a removed object that
   * hole filling restores is counted as removed but not as filled, and the
   * area change then differs from filled minus removed.
   */
  lemma RefilledObjectUncounted()
    ensures var m := Metadata([[true]], [[false]], [[true]], 1);
            m.removedObjectsArea == 1 && m.filledHolesArea == 0 && m.cleaningAreaChange == 0
  {
    assert AndNot([[true]], [[false]])[0] == [true];
    assert AndNot([[true]], [[true]])[0] == [false];
  }
}
