/**
 * Sliding-window patch extraction (utils/patch_utils.py): a strided grid of
 * patch origins over an H x W image, keeping only windows that fit inside it,
 * a tissue-coverage screen on the image's mask, and the per-image counters
 * that are folded into the caller's statistics dictionary. Loading the image,
 * the optional preprocessing and reading the mask file are left to the caller:
 * the image and its mask arrive as values.
 */
module PatchUtils {
  import opened Common

  // ---------------------------------------------------------------------------
  // Python arithmetic and slicing
  // ---------------------------------------------------------------------------

  /** `int(v)` of a float: truncation toward zero. */
  function Trunc(v: real): (r: int)
    ensures v >= 0.0 ==> r >= 0 && r as real <= v < r as real + 1.0
    ensures v < 0.0 ==> r <= 0 && r as real - 1.0 < v <= r as real
  {
    if v >= 0.0 then v.Floor else -((-v).Floor)
  }

  /** `len(range(0, stop, step))` for a positive step. */
  function RangeLen(stop: int, step: nat): nat
    requires step > 0
  {
    if stop <= 0 then 0 else (stop - 1) / step + 1
  }

  lemma RangeLenBounds(stop: int, step: nat)
    requires step > 0
    ensures forall k :: 0 <= k < RangeLen(stop, step) ==> k * step < stop
    ensures RangeLen(stop, step) * step >= stop
  {
    if stop > 0 {
      var q := (stop - 1) / step;
      assert q * step <= stop - 1 < (q + 1) * step;
      forall k | 0 <= k < RangeLen(stop, step) ensures k * step < stop {
        assert k <= q;
        MulMonotone(k, q, step);
      }
    }
  }

  lemma NextMultiple(j: int, step: int)
    ensures j * step + step == (j + 1) * step
  {
  }

  lemma MulMonotone(a: int, b: int, c: nat)
    requires a <= b
    ensures a * c <= b * c
  {
    assert b * c - a * c == (b - a) * c;
  }

  /** A non-negative k indexes `range(0, stop, step)` exactly when k * step is below stop. */
  lemma RangeMembership(stop: int, step: nat, k: nat)
    requires step > 0
    ensures k < RangeLen(stop, step) <==> k * step < stop
  {
    RangeLenBounds(stop, step);
    if k >= RangeLen(stop, step) {
      MulMonotone(RangeLen(stop, step), k, step);
    }
  }

  /** `range(0, stop, step)` for a positive step: the multiples of `step` below `stop`. */
  function Range(stop: int, step: nat): (r: seq<int>)
    requires step > 0
    ensures |r| == RangeLen(stop, step)
    ensures forall k :: 0 <= k < |r| ==> r[k] == k * step && 0 <= r[k] < stop
    ensures |r| * step >= stop
  {
    RangeLenBounds(stop, step);
    seq(RangeLen(stop, step), k requires 0 <= k < RangeLen(stop, step) => k * step)
  }

  /**
   * The `[y:y+ph, x:x+pw]` window of a 2-D array, for a window inside it (the
   * only windows the grid visits, so Python's clamping of slice bounds never
   * comes into play).
   */
  function Window<T>(g: seq<seq<T>>, y: nat, x: nat, ph: nat, pw: nat): seq<seq<T>>
    requires y + ph <= |g| && forall i :: y <= i < y + ph ==> x + pw <= |g[i]|
  {
    seq(ph, i requires 0 <= i < ph => g[y + i][x..x + pw])
  }

  lemma WindowShape<T>(g: seq<seq<T>>, h: nat, w: nat, y: nat, x: nat, ph: nat, pw: nat)
    requires HasShape(g, h, w) && y + ph <= h && x + pw <= w
    ensures HasShape(Window(g, y, x, ph, pw), ph, pw)
    ensures forall i, j :: 0 <= i < ph && 0 <= j < pw ==> Window(g, y, x, ph, pw)[i][j] == g[y + i][x + j]
  {
  }

  // ---------------------------------------------------------------------------
  // Configuration and the window grid
  // ---------------------------------------------------------------------------

  /** The `patch_extraction` entries; absent entries are None. */
  datatype PatchConfig = PatchConfig(patchSize: Option<(nat, nat)>, minCoverage: Option<real>, stride: Option<real>)

  /** `patch_size`, [0, 0] when absent. */
  function PatchSize(cfg: PatchConfig): (nat, nat)
  {
    OrElse(cfg.patchSize, (0, 0))
  }

  /** `min_tissue_coverage`, 0 when absent. */
  function MinCoverage(cfg: PatchConfig): real
  {
    OrElse(cfg.minCoverage, 0.0)
  }

  /** `stride` as a fraction of the patch size, 1.0 when absent. */
  function StrideFraction(cfg: PatchConfig): real
  {
    OrElse(cfg.stride, 1.0)
  }

  /** `int(patch_size[i] * stride)`: the step in pixels along one axis. */
  function StepOf(p: nat, stride: real): (r: nat)
    requires stride >= 0.0
    ensures r > 0 ==> p > 0
  {
    var v := p as real * stride;
    if p == 0 then assert v == 0.0; 0 else Trunc(v)
  }

  /** The origins of one grid row: `(y, x)` for every `x`, in order. */
  function Row(y: int, xs: seq<int>): (r: seq<(int, int)>)
    ensures |r| == |xs| && forall j :: 0 <= j < |xs| ==> r[j] == (y, xs[j])
  {
    seq(|xs|, j requires 0 <= j < |xs| => (y, xs[j]))
  }

  /** Every origin, row-major: y outer, x inner. */
  function Origins(ys: seq<int>, xs: seq<int>): (r: seq<(int, int)>)
  {
    if |ys| == 0 then [] else Origins(ys[..|ys| - 1], xs) + Row(ys[|ys| - 1], xs)
  }

  lemma {:induction false} OriginsLength(ys: seq<int>, xs: seq<int>)
    ensures |Origins(ys, xs)| == |ys| * |xs|
  {
    if |ys| > 0 {
      OriginsLength(ys[..|ys| - 1], xs);
      assert (|ys| - 1) * |xs| + |xs| == |ys| * |xs|;
    }
  }

  lemma RowIndexBound(i: nat, j: nat, n: nat, m: nat)
    requires i < n && j < m
    ensures i * m + j < n * m
  {
    MulMonotone(i + 1, n, m);
    assert (i + 1) * m == i * m + m;
  }

  /** The i-th row's j-th origin sits at position i * |xs| + j: y outer, x inner. */
  lemma {:induction false} OriginsRowMajor(ys: seq<int>, xs: seq<int>, i: nat, j: nat)
    requires i < |ys| && j < |xs|
    ensures i * |xs| + j < |Origins(ys, xs)|
    ensures Origins(ys, xs)[i * |xs| + j] == (ys[i], xs[j])
  {
    var n := |ys| - 1;
    var m := |xs|;
    OriginsLength(ys, xs);
    OriginsLength(ys[..n], xs);
    RowIndexBound(i, j, |ys|, m);
    if i < n {
      OriginsRowMajor(ys[..n], xs, i, j);
      assert ys[..n][i] == ys[i];
    } else {
      assert Origins(ys, xs)[n * m + j] == Row(ys[n], xs)[j];
    }
  }

  /** Every origin is drawn from the two axes. */
  lemma {:induction false} OriginsFrom(ys: seq<int>, xs: seq<int>, k: int)
    requires 0 <= k < |Origins(ys, xs)|
    ensures Origins(ys, xs)[k].0 in ys && Origins(ys, xs)[k].1 in xs
  {
    var n := |ys| - 1;
    var front := Origins(ys[..n], xs);
    if k < |front| {
      OriginsFrom(ys[..n], xs, k);
    } else {
      assert Origins(ys, xs)[k] == Row(ys[n], xs)[k - |front|];
    }
  }

  // ---------------------------------------------------------------------------
  // Screening
  // ---------------------------------------------------------------------------

  /** The metadata record of one yielded patch. */
  datatype PatchMeta = PatchMeta(
    wsiId: string, y: int, x: int, stride: real,
    channels: nat, height: nat, width: nat, coverage: real)

  datatype Patch = Patch(image: Image, mask: Mask, meta: PatchMeta)

  /** `np.mean` of a 0/1 mask: the fraction of its cells that are tissue. */
  function Mean(m: Mask): (r: real)
    requires Cells(m) > 0
    ensures 0.0 <= r <= 1.0
  {
    CountAtMostCells(m);
    Count(m) as real / Cells(m) as real
  }

  /** The part of the image under a window, channel by channel: a C x ph x pw array. */
  function Crop(img: Image, y: nat, x: nat, ph: nat, pw: nat): (r: Image)
    requires Valid(img) && y + ph <= img.height && x + pw <= img.width
    ensures Valid(r) && r.height == ph && r.width == pw && |r.channels| == |img.channels|
    ensures forall c :: 0 <= c < |img.channels| ==> r.channels[c].tag == img.channels[c].tag
  {
    var r := Image(ph, pw, seq(|img.channels|, c requires 0 <= c < |img.channels| =>
                     img.channels[c].(plane := Window(img.channels[c].plane, y, x, ph, pw))));
    assert forall c :: 0 <= c < |img.channels| ==> HasShape(r.channels[c].plane, ph, pw) by {
      forall c | 0 <= c < |img.channels| ensures HasShape(r.channels[c].plane, ph, pw) {
        WindowShape(img.channels[c].plane, img.height, img.width, y, x, ph, pw);
      }
    }
    r
  }

  /** The patch, its mask window and the metadata yielded for the window at (y, x). */
  function MakePatch(img: Image, mask: Mask, wsiId: string, stride: real, ph: nat, pw: nat, y: nat, x: nat): Patch
    requires Valid(img) && HasShape(mask, img.height, img.width)
    requires ph > 0 && pw > 0 && y + ph <= img.height && x + pw <= img.width
  {
    var patch := Crop(img, y, x, ph, pw);
    var patchMask := Window(mask, y, x, ph, pw);
    WindowShape(mask, img.height, img.width, y, x, ph, pw);
    CellsOfShape(patchMask, ph, pw);
    Patch(patch, patchMask,
          PatchMeta(wsiId, y, x, stride, |patch.channels|, patch.height, patch.width, Mean(patchMask)))
  }

  /** The parameters shared by every window of one image. */
  datatype Scan = Scan(img: Image, mask: Mask, wsiId: string, stride: real, ph: nat, pw: nat, minCoverage: real)

  /** A window that lies inside the image and whose patch size is not empty. */
  predicate Fits(s: Scan, o: (int, int))
  {
    s.ph > 0 && s.pw > 0 && 0 <= o.0 && o.0 + s.ph <= s.img.height && 0 <= o.1 && o.1 + s.pw <= s.img.width
  }

  /** The image is a C x H x W array and the mask an H x W one. */
  predicate MaskMatches(s: Scan)
  {
    Valid(s.img) && HasShape(s.mask, s.img.height, s.img.width)
  }

  lemma FitsHasCells(s: Scan, o: (int, int))
    requires MaskMatches(s) && Fits(s, o)
    ensures Cells(Window(s.mask, o.0, o.1, s.ph, s.pw)) == s.ph * s.pw > 0
  {
    WindowShape(s.mask, s.img.height, s.img.width, o.0, o.1, s.ph, s.pw);
    CellsOfShape(Window(s.mask, o.0, o.1, s.ph, s.pw), s.ph, s.pw);
  }

  /** The coverage of the mask under the window at o. */
  function CoverageAt(s: Scan, o: (int, int)): real
    requires MaskMatches(s) && Fits(s, o)
  {
    FitsHasCells(s, o);
    Mean(Window(s.mask, o.0, o.1, s.ph, s.pw))
  }

  function PatchAt(s: Scan, o: (int, int)): (p: Patch)
    requires MaskMatches(s) && Fits(s, o)
    ensures p.meta == PatchMeta(s.wsiId, o.0, o.1, s.stride, |s.img.channels|, s.ph, s.pw, CoverageAt(s, o))
    ensures p.mask == Window(s.mask, o.0, o.1, s.ph, s.pw)
  {
    FitsHasCells(s, o);
    var r := MakePatch(s.img, s.mask, s.wsiId, s.stride, s.ph, s.pw, o.0, o.1);
    r
  }

  /** A window's patch together with the coverage that decides whether it is yielded. */
  datatype Candidate = Candidate(patch: Patch, coverage: real)

  /** The patches of the candidates whose coverage is not below the floor, in order. */
  function Keep(cs: seq<Candidate>, floor: real): seq<Patch>
  {
    if |cs| == 0 then []
    else
      var n := |cs| - 1;
      Keep(cs[..n], floor) + (if cs[n].coverage < floor then [] else [cs[n].patch])
  }

  /** Every kept patch comes from a candidate whose coverage reaches the floor. */
  lemma {:induction false} KeptFrom(cs: seq<Candidate>, floor: real, p: Patch) returns (k: nat)
    requires p in Keep(cs, floor)
    ensures k < |cs| && cs[k].coverage >= floor && cs[k].patch == p
  {
    var n := |cs| - 1;
    if p in Keep(cs[..n], floor) {
      k := KeptFrom(cs[..n], floor, p);
      assert cs[..n][k] == cs[k];
    } else {
      k := n;
    }
  }

  /** Every candidate whose coverage reaches the floor is kept. */
  lemma {:induction false} KeptComplete(cs: seq<Candidate>, floor: real, k: nat)
    requires k < |cs| && cs[k].coverage >= floor
    ensures cs[k].patch in Keep(cs, floor)
  {
    var n := |cs| - 1;
    if k < n {
      assert cs[..n][k] == cs[k];
      KeptComplete(cs[..n], floor, k);
    }
  }

  lemma KeepSingleton(c: Candidate, floor: real)
    ensures Keep([c], floor) == if c.coverage < floor then [] else [c.patch]
  {
    assert [c][..0] == [];
  }

  lemma {:induction false} KeptLength(cs: seq<Candidate>, floor: real)
    ensures |Keep(cs, floor)| <= |cs|
  {
    if |cs| > 0 {
      KeptLength(cs[..|cs| - 1], floor);
    }
  }

  lemma {:induction false} KeepAppend(a: seq<Candidate>, b: seq<Candidate>, floor: real)
    ensures Keep(a + b, floor) == Keep(a, floor) + Keep(b, floor)
  {
    if |b| == 0 {
      assert a + b == a;
    } else {
      var n := |b| - 1;
      assert (a + b)[..|a| + n] == a + b[..n];
      KeepAppend(a, b[..n], floor);
    }
  }

  function CandidateAt(s: Scan, o: (int, int)): Candidate
    requires MaskMatches(s) && Fits(s, o)
  {
    Candidate(PatchAt(s, o), CoverageAt(s, o))
  }

  predicate AllFit(s: Scan, os: seq<(int, int)>)
  {
    forall k :: 0 <= k < |os| ==> Fits(s, os[k])
  }

  function Candidates(s: Scan, os: seq<(int, int)>): (r: seq<Candidate>)
    requires MaskMatches(s) && AllFit(s, os)
    ensures |r| == |os| && forall k :: 0 <= k < |os| ==> r[k] == CandidateAt(s, os[k])
  {
    seq(|os|, k requires 0 <= k < |os| => CandidateAt(s, os[k]))
  }

  /** The patches yielded for a list of origins: those with enough coverage, in order. */
  function Screen(s: Scan, os: seq<(int, int)>): seq<Patch>
    requires MaskMatches(s) && AllFit(s, os)
  {
    Keep(Candidates(s, os), s.minCoverage)
  }

  /** Screening a concatenation screens each part. */
  lemma ScreenAppend(s: Scan, a: seq<(int, int)>, b: seq<(int, int)>)
    requires MaskMatches(s) && AllFit(s, a) && AllFit(s, b)
    ensures AllFit(s, a + b)
    ensures Screen(s, a + b) == Screen(s, a) + Screen(s, b)
  {
    assert AllFit(s, a + b) by {
      forall k | 0 <= k < |a + b| ensures Fits(s, (a + b)[k]) {
        if k < |a| { assert (a + b)[k] == a[k]; } else { assert (a + b)[k] == b[k - |a|]; }
      }
    }
    assert Candidates(s, a + b) == Candidates(s, a) + Candidates(s, b);
    KeepAppend(Candidates(s, a), Candidates(s, b), s.minCoverage);
  }

  /** Failures of the enumeration: `range` with a zero step raises ValueError. */
  datatype PatchError = ZeroRowStride | ZeroColumnStride

  /** The outcome of one image: the yielded patches and the two counters. */
  datatype Screening = Screening(patches: seq<Patch>, attempted: nat, valid: nat)

  /** The parameters shared by every window of one image are well formed. */
  predicate WellFormed(s: Scan)
  {
    MaskMatches(s) && s.stride >= 0.0
  }

  /** The row step `int(patch_size[0] * stride)` and the column step. */
  function RowStep(s: Scan): nat
    requires s.stride >= 0.0
  {
    StepOf(s.ph, s.stride)
  }

  function ColumnStep(s: Scan): nat
    requires s.stride >= 0.0
  {
    StepOf(s.pw, s.stride)
  }

  /** The row origins `range(0, H - ph + 1, sH)`. */
  function Ys(s: Scan): (r: seq<int>)
    requires s.stride >= 0.0 && RowStep(s) > 0
    ensures forall k :: 0 <= k < |r| ==> 0 <= r[k] && r[k] + s.ph <= s.img.height
  {
    Range(s.img.height - s.ph + 1, RowStep(s))
  }

  /** The column origins `range(0, W - pw + 1, sW)`. */
  function Xs(s: Scan): (r: seq<int>)
    requires s.stride >= 0.0 && ColumnStep(s) > 0
    ensures forall k :: 0 <= k < |r| ==> 0 <= r[k] && r[k] + s.pw <= s.img.width
  {
    Range(s.img.width - s.pw + 1, ColumnStep(s))
  }

  /** Origins drawn from axes of fitting rows and columns all fit. */
  lemma AxesFit(s: Scan, ys: seq<int>, xs: seq<int>)
    requires s.ph > 0 && (|xs| > 0 ==> s.pw > 0)
    requires forall k :: 0 <= k < |ys| ==> 0 <= ys[k] && ys[k] + s.ph <= s.img.height
    requires forall k :: 0 <= k < |xs| ==> 0 <= xs[k] && xs[k] + s.pw <= s.img.width
    ensures AllFit(s, Origins(ys, xs))
  {
    forall k | 0 <= k < |Origins(ys, xs)| ensures Fits(s, Origins(ys, xs)[k]) {
      OriginsFrom(ys, xs, k);
    }
  }

  /** The origins of the columns, or none when that step is zero. */
  function XsOrNone(s: Scan): seq<int>
    requires s.stride >= 0.0
  {
    if ColumnStep(s) > 0 then Xs(s) else []
  }

  lemma GridFits(s: Scan)
    requires s.stride >= 0.0 && RowStep(s) > 0
    ensures AllFit(s, Origins(Ys(s), XsOrNone(s)))
  {
    AxesFit(s, Ys(s), XsOrNone(s));
  }

  /** What scanning one image yields, as a value. */
  function Screened(s: Scan): Result<Screening, PatchError>
    requires WellFormed(s)
  {
    if RowStep(s) == 0 then Err(ZeroRowStride)
    else if |Ys(s)| > 0 && ColumnStep(s) == 0 then Err(ZeroColumnStride)
    else
      var os := Origins(Ys(s), XsOrNone(s));
      GridFits(s);
      var patches := Screen(s, os);
      Ok(Screening(patches, |os|, |patches|))
  }

  /** Appending one origin screens it on its own. */
  lemma ScreenSnoc(s: Scan, os: seq<(int, int)>, o: (int, int))
    requires MaskMatches(s) && AllFit(s, os) && Fits(s, o)
    ensures AllFit(s, os + [o])
    ensures Screen(s, os + [o]) == Screen(s, os) + (if CoverageAt(s, o) < s.minCoverage then [] else [PatchAt(s, o)])
  {
    ScreenAppend(s, os, [o]);
    assert Candidates(s, [o]) == [CandidateAt(s, o)];
    KeepSingleton(CandidateAt(s, o), s.minCoverage);
  }

  /** A single window is screened on its own: kept exactly when its coverage reaches the floor. */
  lemma ScreenOne(s: Scan, o: (int, int))
    requires MaskMatches(s) && Fits(s, o)
    ensures AllFit(s, [o])
    ensures Screen(s, [o]) == if CoverageAt(s, o) < s.minCoverage then [] else [PatchAt(s, o)]
  {
    assert [] + [o] == [o];
    ScreenSnoc(s, [], o);
  }

  /** One more column of row y: what was yielded so far followed by that window's screening. */
  lemma ScreenRowStep(s: Scan, y: int, xs: seq<int>, j: int, patches: seq<Patch>, done: seq<Patch>)
    requires MaskMatches(s) && 0 <= j < |xs| && AllFit(s, Row(y, xs))
    requires done == patches + Screen(s, Row(y, xs[..j]))
    ensures Fits(s, (y, xs[j])) && AllFit(s, [(y, xs[j])])
    ensures done + Screen(s, [(y, xs[j])]) == patches + Screen(s, Row(y, xs[..j + 1]))
  {
    var o := (y, xs[j]);
    assert Row(y, xs[..j + 1]) == Row(y, xs[..j]) + [o];
    assert Row(y, xs)[j] == o;
    assert forall k :: 0 <= k < j ==> Row(y, xs[..j])[k] == Row(y, xs)[k];
    ScreenAppend(s, Row(y, xs[..j]), [o]);
    ScreenOne(s, o);
  }

  /**
   * The body of the inner loop: the window at o is cut out, its mask coverage
   * computed, and its patch appended and counted when the coverage is enough.
   */
  method ExamineWindow(s: Scan, o: (int, int), patches: seq<Patch>, valid: nat)
    returns (patches': seq<Patch>, valid': nat)
    requires MaskMatches(s) && Fits(s, o)
    ensures AllFit(s, [o])
    ensures patches' == patches + Screen(s, [o])
    ensures valid' == valid + |Screen(s, [o])|
  {
    FitsHasCells(s, o);
    ScreenOne(s, o);
    var coverage := Mean(Window(s.mask, o.0, o.1, s.ph, s.pw));
    patches', valid' := patches, valid;
    if coverage >= s.minCoverage {
      valid' := valid' + 1;
      patches' := patches' + [MakePatch(s.img, s.mask, s.wsiId, s.stride, s.ph, s.pw, o.0, o.1)];
    }
  }

  /**
   * The inner loop at row y: every column origin is attempted, and the patch of
   * each window with enough coverage is appended to what earlier rows yielded.
   */
  method ScreenRow(s: Scan, y: int, patches: seq<Patch>, attempted: nat, valid: nat)
    returns (patches': seq<Patch>, attempted': nat, valid': nat)
    requires WellFormed(s) && ColumnStep(s) > 0 && s.ph > 0
    requires 0 <= y && y + s.ph <= s.img.height
    ensures AllFit(s, Row(y, Xs(s)))
    ensures patches' == patches + Screen(s, Row(y, Xs(s)))
    ensures attempted' == attempted + |Xs(s)|
    ensures valid' == valid + |Screen(s, Row(y, Xs(s)))|
  {
    var sW := StepOf(s.pw, s.stride);
    var stopX := s.img.width - s.pw + 1;
    ghost var xs := Xs(s);
    assert AllFit(s, Row(y, xs));
    patches', attempted', valid' := patches, attempted, valid;
    var x := 0;
    ghost var j := 0;
    while x < stopX
      invariant 0 <= j <= |xs| && x == j * sW
      invariant patches' == patches + Screen(s, Row(y, xs[..j]))
      invariant attempted' == attempted + j
      invariant valid' - valid == |patches'| - |patches|
      decreases stopX - x
    {
      RangeMembership(stopX, sW, j);
      assert xs[j] == x;
      attempted' := attempted' + 1;
      ScreenRowStep(s, y, xs, j, patches, patches');
      patches', valid' := ExamineWindow(s, (y, x), patches', valid');
      NextMultiple(j, sW);
      x := x + sW;
      j := j + 1;
    }
    RangeMembership(stopX, sW, j);
    assert xs[..j] == xs;
  }

  /** One more row of the grid: the origins so far followed by that row's. */
  lemma GridStep(s: Scan, ys: seq<int>, xs: seq<int>, i: int)
    requires MaskMatches(s) && 0 <= i < |ys|
    requires AllFit(s, Origins(ys[..i], xs)) && AllFit(s, Row(ys[i], xs))
    ensures AllFit(s, Origins(ys[..i + 1], xs))
    ensures Screen(s, Origins(ys[..i + 1], xs)) == Screen(s, Origins(ys[..i], xs)) + Screen(s, Row(ys[i], xs))
    ensures |Origins(ys[..i + 1], xs)| == |Origins(ys[..i], xs)| + |xs|
  {
    assert ys[..i + 1][..i] == ys[..i];
    assert Origins(ys[..i + 1], xs) == Origins(ys[..i], xs) + Row(ys[i], xs);
    ScreenAppend(s, Origins(ys[..i], xs), Row(ys[i], xs));
  }

  /**
   * The nested loops of the sliding window: y outer, x inner, counting every
   * window examined and every window yielded.
   */
  method ScreenWindows(s: Scan) returns (r: Result<Screening, PatchError>)
    requires WellFormed(s)
    ensures r == Screened(s)
  {
    var sH := StepOf(s.ph, s.stride);
    var sW := StepOf(s.pw, s.stride);
    if sH == 0 {
      return Err(ZeroRowStride);
    }
    var stopY := s.img.height - s.ph + 1;
    ghost var ys := Ys(s);
    ghost var xs := XsOrNone(s);
    var attempted, valid := 0, 0;
    var patches: seq<Patch> := [];
    var y := 0;
    ghost var i := 0;
    while y < stopY
      invariant 0 <= i <= |ys| && y == i * sH
      invariant i > 0 ==> sW > 0
      invariant AllFit(s, Origins(ys[..i], xs))
      invariant patches == Screen(s, Origins(ys[..i], xs))
      invariant attempted == |Origins(ys[..i], xs)| && valid == |patches|
      decreases stopY - y
    {
      RangeMembership(stopY, sH, i);
      if sW == 0 {
        return Err(ZeroColumnStride);
      }
      assert ys[i] == y;
      patches, attempted, valid := ScreenRow(s, y, patches, attempted, valid);
      GridStep(s, ys, xs, i);
      NextMultiple(i, sH);
      y := y + sH;
      i := i + 1;
    }
    RangeMembership(stopY, sH, i);
    assert ys[..i] == ys;
    r := Ok(Screening(patches, attempted, valid));
  }

  // ---------------------------------------------------------------------------
  // Properties of the screening
  // ---------------------------------------------------------------------------

  /**
   * Every yielded patch lies inside the image, at an origin that is a multiple of
   * the steps, with the patch size as its height and width, one channel per
   * image channel, and coverage at least the floor.
   */
  lemma YieldedPatchFits(s: Scan, p: Patch)
    requires WellFormed(s) && Screened(s).Ok? && p in Screened(s).value.patches
    ensures 0 <= p.meta.y && p.meta.y + s.ph <= s.img.height
    ensures 0 <= p.meta.x && p.meta.x + s.pw <= s.img.width
    ensures exists i :: 0 <= i < |Ys(s)| && p.meta.y == i * RowStep(s)
    ensures exists j :: 0 <= j < |XsOrNone(s)| && p.meta.x == j * ColumnStep(s)
    ensures p.meta.height == s.ph && p.meta.width == s.pw
    ensures p.meta.channels == |s.img.channels| && p.meta.wsiId == s.wsiId
    ensures s.minCoverage <= p.meta.coverage <= 1.0
    ensures Cells(p.mask) == s.ph * s.pw > 0 && p.meta.coverage == Mean(p.mask)
  {
    var os := Origins(Ys(s), XsOrNone(s));
    GridFits(s);
    var k := KeptFrom(Candidates(s, os), s.minCoverage, p);
    OriginsFrom(Ys(s), XsOrNone(s), k);
    var iy :| 0 <= iy < |Ys(s)| && Ys(s)[iy] == os[k].0;
    var ix :| 0 <= ix < |Xs(s)| && Xs(s)[ix] == os[k].1;
    FitsHasCells(s, os[k]);
  }

  /**
   * The counters: every grid position is attempted, one per row and column
   * origin, and the valid count is the number of yielded patches, never more
   * than the attempts.
   */
  lemma CountersAgree(s: Scan)
    requires WellFormed(s) && Screened(s).Ok?
    ensures var sc := Screened(s).value;
            sc.attempted == |Ys(s)| * |XsOrNone(s)| &&
            sc.valid == |sc.patches| <= sc.attempted
  {
    var os := Origins(Ys(s), XsOrNone(s));
    OriginsLength(Ys(s), XsOrNone(s));
    GridFits(s);
    KeptLength(Candidates(s, os), s.minCoverage);
  }

  /**
   * The grid position (i, j) is the origin (i * sH, j * sW), and its window is
   * yielded exactly when its coverage reaches the floor.
   */
  lemma YieldedIffCovered(s: Scan, i: nat, j: nat)
    requires WellFormed(s) && Screened(s).Ok?
    requires i < |Ys(s)| && j < |XsOrNone(s)|
    ensures var o := (i * RowStep(s), j * ColumnStep(s));
            var os := Origins(Ys(s), XsOrNone(s));
            i * |XsOrNone(s)| + j < |os| && os[i * |XsOrNone(s)| + j] == o && Fits(s, o) &&
            (PatchAt(s, o) in Screened(s).value.patches <==> CoverageAt(s, o) >= s.minCoverage)
  {
    var os := Origins(Ys(s), XsOrNone(s));
    OriginsRowMajor(Ys(s), XsOrNone(s), i, j);
    GridFits(s);
    var k := i * |XsOrNone(s)| + j;
    var o := os[k];
    if CoverageAt(s, o) >= s.minCoverage {
      KeptComplete(Candidates(s, os), s.minCoverage, k);
    }
    if PatchAt(s, o) in Screened(s).value.patches {
      var l := KeptFrom(Candidates(s, os), s.minCoverage, PatchAt(s, o));
      assert PatchAt(s, o).meta == PatchAt(s, os[l]).meta;
    }
  }

  // ---------------------------------------------------------------------------
  // The statistics dictionary and the whole extraction
  // ---------------------------------------------------------------------------

  const AttemptedKey := "total_attempted"
  const ValidKey := "total_valid"

  /** The caller's mutable `stats` dictionary. */
  class Stats {
    var counts: map<string, int>

    /** `{'total_attempted': 0, 'total_valid': 0}`. */
    constructor ()
      ensures counts == map[AttemptedKey := 0, ValidKey := 0]
    {
      counts := map[AttemptedKey := 0, ValidKey := 0];
    }

    /**
     * `stats['total_attempted'] += attempted` then `stats['total_valid'] += valid`;
     * a missing key raises KeyError at its own statement, after the earlier one took effect.
     */
    method Accumulate(attempted: int, valid: int) returns (missing: Option<string>)
      modifies this
      ensures AttemptedKey !in old(counts) ==> missing == Some(AttemptedKey) && counts == old(counts)
      ensures AttemptedKey in old(counts) && ValidKey !in old(counts) ==>
                missing == Some(ValidKey) && counts == old(counts)[AttemptedKey := old(counts)[AttemptedKey] + attempted]
      ensures AttemptedKey in old(counts) && ValidKey in old(counts) ==>
                missing == None &&
                counts == old(counts)[AttemptedKey := old(counts)[AttemptedKey] + attempted]
                                     [ValidKey := old(counts)[ValidKey] + valid]
    {
      if AttemptedKey !in counts {
        return Some(AttemptedKey);
      }
      counts := counts[AttemptedKey := counts[AttemptedKey] + attempted];
      if ValidKey !in counts {
        return Some(ValidKey);
      }
      counts := counts[ValidKey := counts[ValidKey] + valid];
      missing := None;
    }
  }

  /** Failures of `extract_patches`. */
  datatype ExtractError = BadStride(cause: PatchError) | MissingStatsKey(key: string)

  /** The scan parameters an image, its mask and the configuration determine. */
  function ScanOf(img: Image, mask: Mask, wsiId: string, cfg: PatchConfig): Scan
  {
    var size := PatchSize(cfg);
    Scan(img, mask, wsiId, StrideFraction(cfg), size.0, size.1, MinCoverage(cfg))
  }

  /**
   * `extract_patches` run to exhaustion: every yielded patch in order, with the
   * per-image counters folded into `stats` at the end. A zero step fails before
   * anything is counted.
   */
  method ExtractPatches(img: Image, mask: Mask, wsiId: string, cfg: PatchConfig, stats: Stats)
    returns (r: Result<seq<Patch>, ExtractError>)
    requires WellFormed(ScanOf(img, mask, wsiId, cfg))
    modifies stats
    ensures var sc := Screened(ScanOf(img, mask, wsiId, cfg));
            if sc.Err? then r == Err(BadStride(sc.error)) && stats.counts == old(stats.counts)
            else if AttemptedKey in old(stats.counts) && ValidKey in old(stats.counts) then
              r == Ok(sc.value.patches) &&
              stats.counts == old(stats.counts)[AttemptedKey := old(stats.counts)[AttemptedKey] + sc.value.attempted]
                                              [ValidKey := old(stats.counts)[ValidKey] + sc.value.valid]
            else if AttemptedKey !in old(stats.counts) then
              r == Err(MissingStatsKey(AttemptedKey)) && stats.counts == old(stats.counts)
            else
              r == Err(MissingStatsKey(ValidKey)) &&
              stats.counts == old(stats.counts)[AttemptedKey := old(stats.counts)[AttemptedKey] + sc.value.attempted]
  {
    var s := ScanOf(img, mask, wsiId, cfg);
    var screening := ScreenWindows(s);
    if screening.Err? {
      return Err(BadStride(screening.error));
    }
    var missing := stats.Accumulate(screening.value.attempted, screening.value.valid);
    if missing.Some? {
      return Err(MissingStatsKey(missing.value));
    }
    r := Ok(screening.value.patches);
  }
}
