/**
 * The seven-stage preprocessing pipeline of utils/preprocessing.py.
 *
 * Each stage that the source writes as a loop over channels filling a
 * preallocated buffer is a method with that loop, proved equal to a
 * specification function of the input image; the pipeline itself is a method
 * that rebinds the image stage by stage. Library numerics (scipy's
 * median_filter, numpy's percentile, the arcsinh transform and scipy's
 * winsorize) are the function-valued fields of `Numerics`.
 */
module Preprocessing {
  import opened Common

  datatype PreprocError =
    | LabelNotFound(stain: string)              // xarray's drop_sel: KeyError
    | InvalidStripingDirection(direction: string) // ValueError of remove_striping_artifacts
    | InvalidFilterSize(rows: int, cols: int)   // median_filter rejects a window side below 1
    | EmptyChannel(channel: nat)               // MinMaxScaler rejects 0 samples
    | UnboundConfig                            // UnboundLocalError of preprocess_image as written

  /** The numerical library routines the stages call, as opaque total functions. */
  datatype Numerics = Numerics(
    medianFilter: (Grid, int, int) -> Grid,  // median_filter(plane, size=(rows, cols)), mode "reflect"
    denoise: (Grid, real) -> Grid,           // arcsinh(plane / cofactor)
    percentile: (Grid, real) -> real,        // np.percentile(plane, p)
    winsorize: (Grid, real, real) -> Grid)   // scipy winsorize(flat, limits=(lo, hi)), reshaped

  // ---------------------------------------------------------------------------
  // Stage 1: background-stain removal
  // ---------------------------------------------------------------------------

  /** The indices of the channels whose label is not a stain, ascending. */
  function KeptIndices(labels: seq<string>, stains: seq<string>): (r: seq<nat>)
    ensures forall k :: 0 <= k < |r| ==> r[k] < |labels| && labels[r[k]] !in stains
    ensures forall i :: 0 <= i < |labels| && labels[i] !in stains ==> i in r
    ensures forall k, l :: 0 <= k < l < |r| ==> r[k] < r[l]
  {
    if |labels| == 0 then []
    else
      var front := KeptIndices(labels[..|labels| - 1], stains);
      if labels[|labels| - 1] in stains then front else front + [|labels| - 1]
  }

  /** A stain that is not the label of any channel, if there is one. */
  function MissingLabel(labels: seq<string>, stains: seq<string>): (r: Option<string>)
    ensures r.None? <==> forall s :: s in stains ==> s in labels
    ensures r.Some? ==> r.value in stains && r.value !in labels
  {
    if |stains| == 0 then None
    else if stains[0] !in labels then Some(stains[0])
    else MissingLabel(labels, stains[1..])
  }

  /** The image restricted to the channels `KeptIndices` selects. */
  function DropChannels(img: Image, stains: seq<string>): Image
  {
    var keep := KeptIndices(Tags(img.channels), stains);
    img.(channels := seq(|keep|, k requires 0 <= k < |keep| => img.channels[keep[k]]))
  }

  /** Dropping keeps exactly the labels that are not stains. */
  lemma DropChannelsTags(img: Image, stains: seq<string>, l: string)
    ensures l in Tags(DropChannels(img, stains).channels) <==> l in Tags(img.channels) && l !in stains
  {
    var r := DropChannels(img, stains);
    var tags := Tags(img.channels);
    var keep := KeptIndices(tags, stains);
    if l in tags && l !in stains {
      var i :| 0 <= i < |tags| && tags[i] == l;
      var k :| 0 <= k < |keep| && keep[k] == i;
      assert Tags(r.channels)[k] == l;
    }
    if l in Tags(r.channels) {
      var k :| 0 <= k < |r.channels| && Tags(r.channels)[k] == l;
      assert tags[keep[k]] == l;
    }
  }

  /** `image.drop_sel(metal_tag = background_stains)`. */
  function RemoveBackgroundStains(img: Image, stains: seq<string>): (r: Result<Image, PreprocError>)
    ensures r.Ok? <==> forall s :: s in stains ==> s in Tags(img.channels)
    ensures r.Err? ==> r.error.LabelNotFound? && r.error.stain in stains && r.error.stain !in Tags(img.channels)
    ensures r.Ok? ==> r.value.height == img.height && r.value.width == img.width
    ensures r.Ok? ==> forall l :: l in Tags(r.value.channels) <==> l in Tags(img.channels) && l !in stains
  {
    match MissingLabel(Tags(img.channels), stains)
    case Some(s) => Err(LabelNotFound(s))
    case None =>
      forall l ensures l in Tags(DropChannels(img, stains).channels) <==> l in Tags(img.channels) && l !in stains {
        DropChannelsTags(img, stains, l);
      }
      Ok(DropChannels(img, stains))
  }

  /**
   * The kept channels are exactly those whose label is not a stain, with
   * their planes, in the original order.
   */
  lemma StainRemovalKeepsOrder(img: Image, stains: seq<string>)
    requires RemoveBackgroundStains(img, stains).Ok?
    ensures var r := RemoveBackgroundStains(img, stains).value;
            var keep := KeptIndices(Tags(img.channels), stains);
            |r.channels| == |keep| &&
            (forall k :: 0 <= k < |keep| ==> r.channels[k] == img.channels[keep[k]]) &&
            (forall k, l :: 0 <= k < l < |keep| ==> keep[k] < keep[l])
  {
  }

  /** Removal keeps a well-formed image well formed. */
  lemma StainRemovalValid(img: Image, stains: seq<string>)
    requires Valid(img)
    requires RemoveBackgroundStains(img, stains).Ok?
    ensures Valid(RemoveBackgroundStains(img, stains).value)
  {
    var r := RemoveBackgroundStains(img, stains).value;
    var keep := KeptIndices(Tags(img.channels), stains);
    forall c | 0 <= c < |r.channels| ensures HasShape(r.channels[c].plane, r.height, r.width) {
      assert r.channels[c] == img.channels[keep[c]];
    }
  }

  /** With no stain listed, every channel is kept. */
  lemma {:induction false} NoStainKeepsAll(labels: seq<string>)
    ensures KeptIndices(labels, []) == seq(|labels|, i requires 0 <= i < |labels| => i)
  {
    if |labels| > 0 {
      NoStainKeepsAll(labels[..|labels| - 1]);
    }
  }

  // ---------------------------------------------------------------------------
  // Stage 2: hot-pixel removal
  // ---------------------------------------------------------------------------

  /** What `local_mad[local_mad == 0] = 1e-6` substitutes for a zero MAD. */
  const MadEpsilon: real := 0.000001

  function PaddedMad(mad: real): (r: real)
    ensures r != 0.0
  {
    if mad == 0.0 then MadEpsilon else mad
  }

  /** How many (padded) MADs a value lies from its local median; always defined. */
  function ZScore(v: real, median: real, mad: real): real
  {
    (v - median) / PaddedMad(mad)
  }

  /** `|channel - local_median|`, the residual whose local median is the MAD. */
  function AbsResidual(ch: Grid, median: Grid): Grid
  {
    seq(|ch|, y requires 0 <= y < |ch| =>
      seq(|ch[y]|, x requires 0 <= x < |ch[y]| => Abs(ch[y][x] - Get(median, y, x))))
  }

  /** `np.abs(z_score) > z_score_threshold`. */
  function CandidateMask(ch: Grid, median: Grid, mad: Grid, threshold: real): Mask
  {
    seq(|ch|, y requires 0 <= y < |ch| =>
      seq(|ch[y]|, x requires 0 <= x < |ch[y]| =>
        Abs(ZScore(ch[y][x], Get(median, y, x), Get(mad, y, x))) > threshold))
  }

  /**
   * `binary_erosion(m, generate_binary_structure(2, 1))`: the structuring
   * element is the 4-connected cross (the source's comment says 8-connected),
   * and cells outside the plane count as false.
   */
  function Erode(m: Mask): Mask
  {
    seq(|m|, y requires 0 <= y < |m| =>
      seq(|m[y]|, x requires 0 <= x < |m[y]| =>
        m[y][x] && MaskAt(m, y - 1, x) && MaskAt(m, y + 1, x) && MaskAt(m, y, x - 1) && MaskAt(m, y, x + 1)))
  }

  /** `hot_pixel_mask & ~binary_erosion(hot_pixel_mask, structure)`. */
  function IsolatedMask(m: Mask): Mask
  {
    var e := Erode(m);
    seq(|m|, y requires 0 <= y < |m| =>
      seq(|m[y]|, x requires 0 <= x < |m[y]| => m[y][x] && !e[y][x]))
  }

  /** `clean_channel[isolated_mask] = local_median[isolated_mask]`. */
  function ReplaceMasked(ch: Grid, median: Grid, isolated: Mask): Grid
  {
    seq(|ch|, y requires 0 <= y < |ch| =>
      seq(|ch[y]|, x requires 0 <= x < |ch[y]| =>
        if MaskAt(isolated, y, x) then Get(median, y, x) else ch[y][x]))
  }

  /** One channel of remove_hot_pixels, with its local median and MAD given. */
  function CorrectHotPixels(ch: Grid, median: Grid, mad: Grid, threshold: real): Grid
  {
    ReplaceMasked(ch, median, IsolatedMask(CandidateMask(ch, median, mad, threshold)))
  }

  /** One channel of remove_hot_pixels, with the median filter applied. */
  function CleanChannel(ch: Grid, window: int, threshold: real, num: Numerics): Grid
  {
    var median := num.medianFilter(ch, window, window);
    var mad := num.medianFilter(AbsResidual(ch, median), window, window);
    CorrectHotPixels(ch, median, mad, threshold)
  }

  /** A pixel is a candidate when its z-score exceeds the threshold in magnitude. */
  predicate Candidate(ch: Grid, median: Grid, mad: Grid, threshold: real, y: int, x: int)
    requires InGrid(ch, y, x)
  {
    Abs(ZScore(ch[y][x], Get(median, y, x), Get(mad, y, x))) > threshold
  }

  /** A candidate survives the cross erosion when all four orthogonal neighbours are candidates. */
  predicate CrossOfCandidates(ch: Grid, median: Grid, mad: Grid, threshold: real, y: int, x: int)
  {
    && InGrid(ch, y - 1, x) && Candidate(ch, median, mad, threshold, y - 1, x)
    && InGrid(ch, y + 1, x) && Candidate(ch, median, mad, threshold, y + 1, x)
    && InGrid(ch, y, x - 1) && Candidate(ch, median, mad, threshold, y, x - 1)
    && InGrid(ch, y, x + 1) && Candidate(ch, median, mad, threshold, y, x + 1)
  }

  /**
   * The hot-pixel rule pixel by pixel: the plane keeps its shape; a pixel takes
   * its local median exactly when it is a candidate and not the centre of a
   * cross of candidates, and keeps its value otherwise.
   */
  lemma HotPixelRule(ch: Grid, median: Grid, mad: Grid, threshold: real, y: int, x: int)
    requires InGrid(ch, y, x)
    ensures var r := CorrectHotPixels(ch, median, mad, threshold);
            |r| == |ch| && |r[y]| == |ch[y]| &&
            r[y][x] == if Candidate(ch, median, mad, threshold, y, x) &&
                          !CrossOfCandidates(ch, median, mad, threshold, y, x)
                       then Get(median, y, x) else ch[y][x]
  {
    var c := CandidateMask(ch, median, mad, threshold);
    var e := Erode(c);
    assert c[y][x] == Candidate(ch, median, mad, threshold, y, x);
    assert MaskAt(c, y - 1, x) == (InGrid(ch, y - 1, x) && Candidate(ch, median, mad, threshold, y - 1, x));
    assert MaskAt(c, y + 1, x) == (InGrid(ch, y + 1, x) && Candidate(ch, median, mad, threshold, y + 1, x));
    assert MaskAt(c, y, x - 1) == (InGrid(ch, y, x - 1) && Candidate(ch, median, mad, threshold, y, x - 1));
    assert MaskAt(c, y, x + 1) == (InGrid(ch, y, x + 1) && Candidate(ch, median, mad, threshold, y, x + 1));
  }

  /** A candidate at the centre of a cross of candidates is left unchanged. */
  lemma CrossCentreUnchanged(ch: Grid, median: Grid, mad: Grid, threshold: real, y: int, x: int)
    requires InGrid(ch, y, x)
    requires CrossOfCandidates(ch, median, mad, threshold, y, x)
    ensures CorrectHotPixels(ch, median, mad, threshold)[y][x] == ch[y][x]
  {
    HotPixelRule(ch, median, mad, threshold, y, x);
  }

  /** A pixel that is not a candidate keeps its value. */
  lemma NonCandidateUnchanged(ch: Grid, median: Grid, mad: Grid, threshold: real, y: int, x: int)
    requires InGrid(ch, y, x)
    requires !Candidate(ch, median, mad, threshold, y, x)
    ensures CorrectHotPixels(ch, median, mad, threshold)[y][x] == ch[y][x]
  {
    HotPixelRule(ch, median, mad, threshold, y, x);
  }

  /**
   * A candidate with an orthogonal neighbour that is not a candidate, or that
   * lies outside the plane (the erosion's border counts as background), is
   * replaced by its local median: only the centre of a full cross survives.
   */
  lemma CandidateBesideBackgroundReplaced(ch: Grid, median: Grid, mad: Grid, threshold: real,
                                          y: int, x: int, ny: int, nx: int)
    requires InGrid(ch, y, x) && Candidate(ch, median, mad, threshold, y, x)
    requires (ny == y && (nx == x - 1 || nx == x + 1)) || (nx == x && (ny == y - 1 || ny == y + 1))
    requires !InGrid(ch, ny, nx) || !Candidate(ch, median, mad, threshold, ny, nx)
    ensures CorrectHotPixels(ch, median, mad, threshold)[y][x] == Get(median, y, x)
  {
    HotPixelRule(ch, median, mad, threshold, y, x);
  }

  /**
   * Two horizontally adjacent candidates in the middle of a quiet plane are
   * both replaced: each has a background neighbour above it, so the cross
   * erosion keeps neither, and a two-pixel cluster is not preserved by the
   * code as written (its comment speaks of keeping small clusters).
   */
  lemma AdjacentPairReplaced()
    ensures var r := CorrectHotPixels([[0.0, 0.0, 0.0, 0.0], [0.0, 10.0, 10.0, 0.0], [0.0, 0.0, 0.0, 0.0]],
                                      [[0.0, 0.0, 0.0, 0.0], [0.0, 0.0, 0.0, 0.0], [0.0, 0.0, 0.0, 0.0]],
                                      [[1.0, 1.0, 1.0, 1.0], [1.0, 1.0, 1.0, 1.0], [1.0, 1.0, 1.0, 1.0]], 1.0);
            r[1][1] == 0.0 && r[1][2] == 0.0
  {
    var ch: Grid := [[0.0, 0.0, 0.0, 0.0], [0.0, 10.0, 10.0, 0.0], [0.0, 0.0, 0.0, 0.0]];
    var med: Grid := [[0.0, 0.0, 0.0, 0.0], [0.0, 0.0, 0.0, 0.0], [0.0, 0.0, 0.0, 0.0]];
    var mad: Grid := [[1.0, 1.0, 1.0, 1.0], [1.0, 1.0, 1.0, 1.0], [1.0, 1.0, 1.0, 1.0]];
    assert Candidate(ch, med, mad, 1.0, 1, 1) && Candidate(ch, med, mad, 1.0, 1, 2);
    assert !Candidate(ch, med, mad, 1.0, 0, 1) && !Candidate(ch, med, mad, 1.0, 0, 2);
    CandidateBesideBackgroundReplaced(ch, med, mad, 1.0, 1, 1, 0, 1);
    CandidateBesideBackgroundReplaced(ch, med, mad, 1.0, 1, 2, 0, 2);
  }

  /** A median-filter window scipy refuses: one of its sides is below 1. */
  predicate BadWindow(rows: int, cols: int)
  {
    rows <= 0 || cols <= 0
  }

  /** Every channel with its plane cleaned of hot pixels. */
  function CleanedChannels(img: Image, window: int, threshold: real, num: Numerics): seq<Channel>
  {
    seq(|img.channels|, c requires 0 <= c < |img.channels| =>
          img.channels[c].(plane := CleanChannel(img.channels[c].plane, window, threshold, num)))
  }

  /**
   * The image after hot-pixel removal; the first channel's median filter
   * fails on a window below 1, so only an image without channels gets
   * through such a window.
   */
  function HotPixelsRemoved(img: Image, window: int, threshold: real, num: Numerics): Result<Image, PreprocError>
  {
    if |img.channels| > 0 && BadWindow(window, window) then Err(InvalidFilterSize(window, window))
    else Ok(img.(channels := CleanedChannels(img, window, threshold, num)))
  }

  method RemoveHotPixels(img: Image, window: int, threshold: real, num: Numerics)
    returns (r: Result<Image, PreprocError>)
    ensures r == HotPixelsRemoved(img, window, threshold, num)
  {
    var buf := new Channel[|img.channels|];
    for c := 0 to |img.channels|
      invariant c > 0 ==> !BadWindow(window, window)
      invariant forall k :: 0 <= k < c ==>
        buf[k] == img.channels[k].(plane := CleanChannel(img.channels[k].plane, window, threshold, num))
    {
      if BadWindow(window, window) {
        return Err(InvalidFilterSize(window, window));
      }
      var channel := img.channels[c];
      buf[c] := channel.(plane := CleanChannel(channel.plane, window, threshold, num));
    }
    assert buf[..] == CleanedChannels(img, window, threshold, num);
    r := Ok(img.(channels := buf[..]));
  }

  /** Hot-pixel removal fails exactly on a bad window over at least one channel, and keeps everything but the planes. */
  lemma HotPixelsOutcome(img: Image, window: int, threshold: real, num: Numerics)
    ensures var r := HotPixelsRemoved(img, window, threshold, num);
            (r.Err? <==> |img.channels| > 0 && (window <= 0)) &&
            (r.Ok? ==> r.value.height == img.height && r.value.width == img.width &&
                       Tags(r.value.channels) == Tags(img.channels))
  {
    var r := HotPixelsRemoved(img, window, threshold, num);
    if r.Ok? {
      assert Tags(r.value.channels) == Tags(img.channels);
    }
  }

  // ---------------------------------------------------------------------------
  // Stage 3: striping-artifact removal
  // ---------------------------------------------------------------------------

  /** The median-filter window (rows, cols) for a striping direction. */
  function StripingWindow(direction: string, size: int): (r: Result<(int, int), PreprocError>)
    ensures r.Ok? <==> direction == "row" || direction == "column"
    ensures r.Err? ==> r.error == InvalidStripingDirection(direction)
    ensures direction == "row" ==> r == Ok((1, size))
    ensures direction == "column" ==> r == Ok((size, 1))
  {
    if direction == "row" then Ok((1, size))
    else if direction == "column" then Ok((size, 1))
    else Err(InvalidStripingDirection(direction))
  }

  /** Every channel median-filtered with the window (rows, cols). */
  function FilteredChannels(img: Image, rows: int, cols: int, num: Numerics): seq<Channel>
  {
    seq(|img.channels|, c requires 0 <= c < |img.channels| =>
          img.channels[c].(plane := num.medianFilter(img.channels[c].plane, rows, cols)))
  }

  function StripingRemoved(img: Image, direction: string, size: int, num: Numerics): Result<Image, PreprocError>
  {
    match StripingWindow(direction, size)
    case Err(e) => Err(e)
    case Ok(win) =>
      if |img.channels| > 0 && BadWindow(win.0, win.1) then Err(InvalidFilterSize(win.0, win.1))
      else Ok(img.(channels := FilteredChannels(img, win.0, win.1, num)))
  }

  method RemoveStripingArtifacts(img: Image, direction: string, size: int, num: Numerics)
    returns (r: Result<Image, PreprocError>)
    ensures r == StripingRemoved(img, direction, size, num)
  {
    var win;
    if direction == "row" {
      win := (1, size);
    } else if direction == "column" {
      win := (size, 1);
    } else {
      assert StripingWindow(direction, size).Err?;
      return Err(InvalidStripingDirection(direction));
    }
    assert StripingWindow(direction, size) == Ok(win);
    var buf := new Channel[|img.channels|];
    for c := 0 to |img.channels|
      invariant c > 0 ==> !BadWindow(win.0, win.1)
      invariant forall k :: 0 <= k < c ==>
        buf[k] == img.channels[k].(plane := num.medianFilter(img.channels[k].plane, win.0, win.1))
    {
      if BadWindow(win.0, win.1) {
        return Err(InvalidFilterSize(win.0, win.1));
      }
      var channel := img.channels[c];
      buf[c] := channel.(plane := num.medianFilter(channel.plane, win.0, win.1));
    }
    assert buf[..] == FilteredChannels(img, win.0, win.1, num);
    r := Ok(img.(channels := buf[..]));
  }

  /**
   * Striping removal fails on a direction other than "row" or "column";
   * otherwise it fails exactly when there is a channel and the size is below 1,
   * and on success it keeps everything but the planes.
   */
  lemma StripingOutcome(img: Image, direction: string, size: int, num: Numerics)
    ensures var r := StripingRemoved(img, direction, size, num);
            (direction != "row" && direction != "column" ==> r == Err(InvalidStripingDirection(direction))) &&
            (direction == "row" || direction == "column" ==>
               (r.Err? <==> |img.channels| > 0 && size <= 0) &&
               (r.Err? ==> r.error == if direction == "row" then InvalidFilterSize(1, size) else InvalidFilterSize(size, 1))) &&
            (r.Ok? ==> r.value.height == img.height && r.value.width == img.width &&
                       Tags(r.value.channels) == Tags(img.channels))
  {
    var r := StripingRemoved(img, direction, size, num);
    if r.Ok? {
      assert Tags(r.value.channels) == Tags(img.channels);
    }
  }

  // ---------------------------------------------------------------------------
  // Stage 4: shot-noise denoising (arcsinh variance stabilisation)
  // ---------------------------------------------------------------------------

  function Denoised(img: Image, cofactor: real, num: Numerics): Image
  {
    img.(channels := seq(|img.channels|, c requires 0 <= c < |img.channels| =>
                           img.channels[c].(plane := num.denoise(img.channels[c].plane, cofactor))))
  }

  method Denoise(img: Image, cofactor: real, num: Numerics) returns (out: Image)
    ensures out == Denoised(img, cofactor, num)
  {
    var buf := new Channel[|img.channels|];
    for c := 0 to |img.channels|
      invariant forall k :: 0 <= k < c ==> buf[k] == img.channels[k].(plane := num.denoise(img.channels[k].plane, cofactor))
    {
      var channel := img.channels[c];
      buf[c] := channel.(plane := num.denoise(channel.plane, cofactor));
    }
    out := img.(channels := buf[..]);
  }

  // ---------------------------------------------------------------------------
  // Stage 5: background subtraction
  // ---------------------------------------------------------------------------

  /** `np.clip(plane - level, a_min = 0)`. */
  function ClipSubtract(g: Grid, level: real): Grid
  {
    seq(|g|, y requires 0 <= y < |g| =>
      seq(|g[y]|, x requires 0 <= x < |g[y]| => Max0(g[y][x] - level)))
  }

  function BackgroundSubtracted(img: Image, percentile: real, num: Numerics): Image
  {
    img.(channels := seq(|img.channels|, c requires 0 <= c < |img.channels| =>
                           var ch := img.channels[c].plane;
                           img.channels[c].(plane := ClipSubtract(ch, num.percentile(ch, percentile)))))
  }

  method SubtractBackground(img: Image, percentile: real, num: Numerics) returns (out: Image)
    ensures out == BackgroundSubtracted(img, percentile, num)
  {
    var buf := new Channel[|img.channels|];
    for c := 0 to |img.channels|
      invariant forall k :: 0 <= k < c ==>
        buf[k] == img.channels[k].(plane := ClipSubtract(img.channels[k].plane,
                                                         num.percentile(img.channels[k].plane, percentile)))
    {
      var channel := img.channels[c];
      var level := num.percentile(channel.plane, percentile);
      buf[c] := channel.(plane := ClipSubtract(channel.plane, level));
    }
    out := img.(channels := buf[..]);
  }

  /**
   * Each output value is the input value minus its channel's percentile level,
   * clipped at zero; no output value is negative and planes keep their shape.
   */
  lemma BackgroundSubtractionExact(img: Image, percentile: real, num: Numerics, c: int, y: int, x: int)
    requires 0 <= c < |img.channels| && InGrid(img.channels[c].plane, y, x)
    ensures var out := BackgroundSubtracted(img, percentile, num);
            var before := img.channels[c].plane;
            var level := num.percentile(before, percentile);
            |out.channels| == |img.channels| && out.channels[c].tag == img.channels[c].tag &&
            var after := out.channels[c].plane;
            |after| == |before| && |after[y]| == |before[y]| &&
            after[y][x] >= 0.0 &&
            (after[y][x] == before[y][x] - level || after[y][x] == 0.0) &&
            (before[y][x] >= level ==> after[y][x] == before[y][x] - level) &&
            (before[y][x] <= level ==> after[y][x] == 0.0)
  {
  }

  // ---------------------------------------------------------------------------
  // Stage 6: winsorization
  // ---------------------------------------------------------------------------

  function Winsorized(img: Image, lower: real, upper: real, num: Numerics): Image
  {
    img.(channels := seq(|img.channels|, c requires 0 <= c < |img.channels| =>
                           img.channels[c].(plane := num.winsorize(img.channels[c].plane, lower, upper))))
  }

  method Winsorize(img: Image, lower: real, upper: real, num: Numerics) returns (out: Image)
    ensures out == Winsorized(img, lower, upper, num)
  {
    var buf := new Channel[|img.channels|];
    for c := 0 to |img.channels|
      invariant forall k :: 0 <= k < c ==>
        buf[k] == img.channels[k].(plane := num.winsorize(img.channels[k].plane, lower, upper))
    {
      var channel := img.channels[c];
      buf[c] := channel.(plane := num.winsorize(channel.plane, lower, upper));
    }
    out := img.(channels := buf[..]);
  }

  // ---------------------------------------------------------------------------
  // Stage 7: per-channel min-max scaling
  // ---------------------------------------------------------------------------

  function SeqMin(s: seq<real>): (m: real)
    requires |s| > 0
    ensures forall i :: 0 <= i < |s| ==> m <= s[i]
    ensures exists i :: 0 <= i < |s| && s[i] == m
  {
    if |s| == 1 then s[0]
    else
      var m := SeqMin(s[..|s| - 1]);
      if s[|s| - 1] < m then s[|s| - 1] else m
  }

  function SeqMax(s: seq<real>): (m: real)
    requires |s| > 0
    ensures forall i :: 0 <= i < |s| ==> s[i] <= m
    ensures exists i :: 0 <= i < |s| && s[i] == m
  {
    if |s| == 1 then s[0]
    else
      var m := SeqMax(s[..|s| - 1]);
      if s[|s| - 1] > m then s[|s| - 1] else m
  }

  /**
   * MinMaxScaler with feature_range (0, 1): (v - min) / (max - min); a constant
   * feature has its range replaced by 1, so it maps to 0.
   */
  function ScaleValue(v: real, lo: real, hi: real): real
  {
    if hi > lo then (v - lo) / (hi - lo) else 0.0
  }

  function ScaleChannel(g: Grid): Grid
    requires |Flatten(g)| > 0
  {
    var lo := SeqMin(Flatten(g));
    var hi := SeqMax(Flatten(g));
    seq(|g|, y requires 0 <= y < |g| =>
      seq(|g[y]|, x requires 0 <= x < |g[y]| => ScaleValue(g[y][x], lo, hi)))
  }

  /** The first channel that has no pixel, if any. */
  function FirstEmpty(chs: seq<Channel>): (r: Option<nat>)
    ensures r.Some? ==> r.value < |chs| && |Flatten(chs[r.value].plane)| == 0 &&
                        forall c :: 0 <= c < r.value ==> |Flatten(chs[c].plane)| > 0
    ensures r.None? ==> forall c :: 0 <= c < |chs| ==> |Flatten(chs[c].plane)| > 0
  {
    if |chs| == 0 then None
    else
      match FirstEmpty(chs[..|chs| - 1])
      case Some(i) => Some(i)
      case None => if |Flatten(chs[|chs| - 1].plane)| == 0 then Some(|chs| - 1) else None
  }

  lemma FirstEmptyIs(chs: seq<Channel>, c: nat)
    requires c < |chs| && |Flatten(chs[c].plane)| == 0
    requires forall k :: 0 <= k < c ==> |Flatten(chs[k].plane)| > 0
    ensures FirstEmpty(chs) == Some(c)
  {
    var r := FirstEmpty(chs);
    if r.Some? {
      assert !(r.value < c) && !(c < r.value);
    }
  }

  function Scaled(img: Image): Result<Image, PreprocError>
  {
    match FirstEmpty(img.channels)
    case Some(c) => Err(EmptyChannel(c))
    case None =>
      Ok(img.(channels := seq(|img.channels|, c requires 0 <= c < |img.channels| =>
                                img.channels[c].(plane := ScaleChannel(img.channels[c].plane)))))
  }

  method Scale(img: Image) returns (r: Result<Image, PreprocError>)
    ensures r == Scaled(img)
  {
    var buf := new Channel[|img.channels|];
    for c := 0 to |img.channels|
      invariant forall k :: 0 <= k < c ==> |Flatten(img.channels[k].plane)| > 0
      invariant forall k :: 0 <= k < c ==>
        (|Flatten(img.channels[k].plane)| > 0 &&
         buf[k] == img.channels[k].(plane := ScaleChannel(img.channels[k].plane)))
    {
      var channel := img.channels[c];
      if |Flatten(channel.plane)| == 0 {
        FirstEmptyIs(img.channels, c);
        return Err(EmptyChannel(c));
      }
      buf[c] := channel.(plane := ScaleChannel(channel.plane));
    }
    assert FirstEmpty(img.channels) == None;
    assert buf[..] == seq(|img.channels|, c requires 0 <= c < |img.channels| =>
                            img.channels[c].(plane := ScaleChannel(img.channels[c].plane)));
    r := Ok(img.(channels := buf[..]));
  }

  lemma DivUnit(a: real, b: real)
    requires 0.0 <= a <= b && b > 0.0
    ensures 0.0 <= a / b <= 1.0
  {
    assert a / b * b == a;
  }

  lemma SelfRatio(d: real)
    requires d > 0.0
    ensures d / d == 1.0
  {
  }

  /** Every scaled value lies in [0, 1], and the plane keeps its shape. */
  lemma ScaleChannelInUnit(g: Grid, y: int, x: int)
    requires |Flatten(g)| > 0 && InGrid(g, y, x)
    ensures |ScaleChannel(g)| == |g| && |ScaleChannel(g)[y]| == |g[y]|
    ensures 0.0 <= ScaleChannel(g)[y][x] <= 1.0
  {
    var f := Flatten(g);
    var lo, hi := SeqMin(f), SeqMax(f);
    FlattenContains(g, y, x);
    if hi > lo {
      DivUnit(g[y][x] - lo, hi - lo);
    }
  }

  /** Some pixel of a non-empty plane holds its minimum, and some its maximum. */
  lemma ExtremesAttained(g: Grid) returns (y0: int, x0: int, y1: int, x1: int)
    requires |Flatten(g)| > 0
    ensures InGrid(g, y0, x0) && g[y0][x0] == SeqMin(Flatten(g))
    ensures InGrid(g, y1, x1) && g[y1][x1] == SeqMax(Flatten(g))
  {
    var f := Flatten(g);
    var i :| 0 <= i < |f| && f[i] == SeqMin(f);
    FlattenElement(g, i);
    y0, x0 :| InGrid(g, y0, x0) && g[y0][x0] == f[i];
    var j :| 0 <= j < |f| && f[j] == SeqMax(f);
    FlattenElement(g, j);
    y1, x1 :| InGrid(g, y1, x1) && g[y1][x1] == f[j];
  }

  /** The scaled pixel at (y, x) is its value rescaled by the plane's own range. */
  lemma ScaleChannelAt(g: Grid, y: int, x: int)
    requires |Flatten(g)| > 0 && InGrid(g, y, x)
    ensures InGrid(ScaleChannel(g), y, x)
    ensures ScaleChannel(g)[y][x] == ScaleValue(g[y][x], SeqMin(Flatten(g)), SeqMax(Flatten(g)))
  {
  }

  /** In a non-constant channel the minimum maps to 0 and the maximum to 1. */
  lemma ScaleChannelExtremes(g: Grid)
    requires |Flatten(g)| > 0
    requires SeqMin(Flatten(g)) < SeqMax(Flatten(g))
    ensures exists y, x :: InGrid(g, y, x) && ScaleChannel(g)[y][x] == 0.0
    ensures exists y, x :: InGrid(g, y, x) && ScaleChannel(g)[y][x] == 1.0
  {
    var lo, hi := SeqMin(Flatten(g)), SeqMax(Flatten(g));
    var y0, x0, y1, x1 := ExtremesAttained(g);
    ScaleChannelAt(g, y0, x0);
    ScaleChannelAt(g, y1, x1);
    SelfRatio(hi - lo);
    assert ScaleValue(g[y0][x0], lo, hi) == 0.0;
    assert ScaleValue(g[y1][x1], lo, hi) == 1.0;
  }

  /** A constant channel scales to 0 everywhere. */
  lemma ScaleChannelConstant(g: Grid, y: int, x: int)
    requires |Flatten(g)| > 0 && InGrid(g, y, x)
    requires SeqMin(Flatten(g)) == SeqMax(Flatten(g))
    ensures ScaleChannel(g)[y][x] == 0.0
  {
  }

  // ---------------------------------------------------------------------------
  // The pipeline
  // ---------------------------------------------------------------------------

  /** The `preprocessing` section of the configuration; absent entries are None. */
  datatype PreprocConfig = PreprocConfig(
    toggles: map<string, bool>,
    backgroundStains: Option<seq<string>>,
    hotPixelWindow: Option<int>,
    zScoreThreshold: Option<real>,
    stripingDirection: Option<string>,
    stripingSize: Option<int>,
    cofactor: Option<real>,
    percentile: Option<real>,
    winsorLimits: Option<(real, real)>)

  /** A configuration without any entry. */
  const EmptyConfig := PreprocConfig(map[], None, None, None, None, None, None, None, None)

  datatype Stage =
    | StainRemoval | HotPixelRemoval | StripingRemoval | Denoising
    | BackgroundSubtraction | Winsorization | MinMaxScaling

  /** The fixed order in which the stages run. */
  const StageOrder: seq<Stage> :=
    [StainRemoval, HotPixelRemoval, StripingRemoval, Denoising,
     BackgroundSubtraction, Winsorization, MinMaxScaling]

  /** Position of a stage in `StageOrder`. */
  function Rank(s: Stage): (r: nat)
    ensures r < |StageOrder| && StageOrder[r] == s
  {
    match s
    case StainRemoval => 0
    case HotPixelRemoval => 1
    case StripingRemoval => 2
    case Denoising => 3
    case BackgroundSubtraction => 4
    case Winsorization => 5
    case MinMaxScaling => 6
  }

  function ToggleKey(s: Stage): string
  {
    match s
    case StainRemoval => "apply_background_stain_removal"
    case HotPixelRemoval => "apply_hot_pixel_removal"
    case StripingRemoval => "apply_striping_removal"
    case Denoising => "apply_denoising"
    case BackgroundSubtraction => "apply_background_subtraction"
    case Winsorization => "apply_winsorization"
    case MinMaxScaling => "apply_min_max_scaling"
  }

  /** `toggles_cfg.get(key, True)`. */
  predicate Enabled(toggles: map<string, bool>, s: Stage)
  {
    if ToggleKey(s) in toggles then toggles[ToggleKey(s)] else true
  }

  /** One stage with the parameters (and defaults) the source reads for it. */
  function ApplyStage(s: Stage, img: Image, cfg: PreprocConfig, num: Numerics): (r: Result<Image, PreprocError>)
  {
    match s
    case StainRemoval => RemoveBackgroundStains(img, OrElse(cfg.backgroundStains, []))
    case HotPixelRemoval =>
      HotPixelsRemoved(img, OrElse(cfg.hotPixelWindow, 0), OrElse(cfg.zScoreThreshold, 0.0), num)
    case StripingRemoval =>
      StripingRemoved(img, OrElse(cfg.stripingDirection, "vertical"), OrElse(cfg.stripingSize, 0), num)
    case Denoising => Ok(Denoised(img, OrElse(cfg.cofactor, 0.0), num))
    case BackgroundSubtraction => Ok(BackgroundSubtracted(img, OrElse(cfg.percentile, 0.0), num))
    case Winsorization =>
      var lim := OrElse(cfg.winsorLimits, (0.0, 0.0));
      Ok(Winsorized(img, lim.0, lim.1, num))
    case MinMaxScaling => Scaled(img)
  }

  /** One block of preprocess_image: run stage s on a successful image when its toggle is set. */
  function Then(r: Result<Image, PreprocError>, s: Stage, cfg: PreprocConfig, num: Numerics): (out: Result<Image, PreprocError>)
  {
    match r
    case Err(e) => Err(e)
    case Ok(img) => if Enabled(cfg.toggles, s) then ApplyStage(s, img, cfg, num) else Ok(img)
  }

  /** The seven blocks of preprocess_image, in their fixed order. */
  function Pipeline(img: Image, cfg: PreprocConfig, num: Numerics): Result<Image, PreprocError>
  {
    var r1 := Then(Ok(img), StainRemoval, cfg, num);
    var r2 := Then(r1, HotPixelRemoval, cfg, num);
    var r3 := Then(r2, StripingRemoval, cfg, num);
    var r4 := Then(r3, Denoising, cfg, num);
    var r5 := Then(r4, BackgroundSubtraction, cfg, num);
    var r6 := Then(r5, Winsorization, cfg, num);
    Then(r6, MinMaxScaling, cfg, num)
  }

  /** The body of one block of preprocess_image: the stage's own operation with its configured parameters. */
  method RunStage(s: Stage, image: Image, cfg: PreprocConfig, num: Numerics) returns (r: Result<Image, PreprocError>)
    ensures r == ApplyStage(s, image, cfg, num)
  {
    match s {
      case StainRemoval =>
        r := RemoveBackgroundStains(image, OrElse(cfg.backgroundStains, []));
      case HotPixelRemoval =>
        r := RemoveHotPixels(image, OrElse(cfg.hotPixelWindow, 0), OrElse(cfg.zScoreThreshold, 0.0), num);
      case StripingRemoval =>
        r := RemoveStripingArtifacts(image, OrElse(cfg.stripingDirection, "vertical"), OrElse(cfg.stripingSize, 0), num);
      case Denoising =>
        var out := Denoise(image, OrElse(cfg.cofactor, 0.0), num);
        r := Ok(out);
      case BackgroundSubtraction =>
        var out := SubtractBackground(image, OrElse(cfg.percentile, 0.0), num);
        r := Ok(out);
      case Winsorization =>
        var lim := OrElse(cfg.winsorLimits, (0.0, 0.0));
        var out := Winsorize(image, lim.0, lim.1, num);
        r := Ok(out);
      case MinMaxScaling =>
        r := Scale(image);
    }
  }

  /**
   * preprocess_image. The source reads `preproc_cfg` one line before it is
   * assigned (utils/preprocessing.py:24-25), which would fail on every call;
   * this models the evident intent, with the two assignments swapped. Each
   * block runs its stage when the stage's toggle is set, and an error ends the run.
   */
  method PreprocessImage(img: Image, cfg: PreprocConfig, num: Numerics) returns (r: Result<Image, PreprocError>)
    ensures r == Pipeline(img, cfg, num)
  {
    var toggles := cfg.toggles;
    var image := img;
    ghost var acc: Result<Image, PreprocError> := Ok(img);

    // 1. Background stain removal
    acc := Then(acc, StainRemoval, cfg, num);
    if Enabled(toggles, StainRemoval) {
      var step := RunStage(StainRemoval, image, cfg, num);
      if step.Err? { return Err(step.error); }
      image := step.value;
    }
    assert acc == Ok(image);

    // 2. Hot pixel removal
    acc := Then(acc, HotPixelRemoval, cfg, num);
    if Enabled(toggles, HotPixelRemoval) {
      var step := RunStage(HotPixelRemoval, image, cfg, num);
      if step.Err? { return Err(step.error); }
      image := step.value;
    }
    assert acc == Ok(image);

    // 3. Striping artifact removal
    acc := Then(acc, StripingRemoval, cfg, num);
    if Enabled(toggles, StripingRemoval) {
      var step := RunStage(StripingRemoval, image, cfg, num);
      if step.Err? { return Err(step.error); }
      image := step.value;
    }
    assert acc == Ok(image);

    // 4. Shot-noise denoising
    acc := Then(acc, Denoising, cfg, num);
    if Enabled(toggles, Denoising) {
      var step := RunStage(Denoising, image, cfg, num);
      if step.Err? { return Err(step.error); }
      image := step.value;
    }
    assert acc == Ok(image);

    // 5. Background subtraction
    acc := Then(acc, BackgroundSubtraction, cfg, num);
    if Enabled(toggles, BackgroundSubtraction) {
      var step := RunStage(BackgroundSubtraction, image, cfg, num);
      if step.Err? { return Err(step.error); }
      image := step.value;
    }
    assert acc == Ok(image);

    // 6. Winsorization
    acc := Then(acc, Winsorization, cfg, num);
    if Enabled(toggles, Winsorization) {
      var step := RunStage(Winsorization, image, cfg, num);
      if step.Err? { return Err(step.error); }
      image := step.value;
    }
    assert acc == Ok(image);

    // 7. Global normalization
    acc := Then(acc, MinMaxScaling, cfg, num);
    if Enabled(toggles, MinMaxScaling) {
      var step := RunStage(MinMaxScaling, image, cfg, num);
      if step.Err? { return Err(step.error); }
      image := step.value;
    }
    r := Ok(image);
  }

  // ---------------------------------------------------------------------------
  // The pipeline as data: the enabled stages, folded over the image
  // ---------------------------------------------------------------------------

  /** The stages of a list whose toggle is set, in list order. */
  function EnabledOf(toggles: map<string, bool>, stages: seq<Stage>): seq<Stage>
  {
    if |stages| == 0 then []
    else if Enabled(toggles, stages[0]) then [stages[0]] + EnabledOf(toggles, stages[1..])
    else EnabledOf(toggles, stages[1..])
  }

  function EnabledStages(toggles: map<string, bool>): seq<Stage>
  {
    EnabledOf(toggles, StageOrder)
  }

  /** Applies the stages left to right, stopping at the first error. */
  function RunStages(img: Image, stages: seq<Stage>, cfg: PreprocConfig, num: Numerics): Result<Image, PreprocError>
    decreases |stages|
  {
    if |stages| == 0 then Ok(img)
    else
      match ApplyStage(stages[0], img, cfg, num)
      case Err(e) => Err(e)
      case Ok(next) => RunStages(next, stages[1..], cfg, num)
  }

  /** The blocks of a list of stages, each guarded by its toggle, chained. */
  function ThenAll(r: Result<Image, PreprocError>, stages: seq<Stage>, cfg: PreprocConfig, num: Numerics): Result<Image, PreprocError>
    decreases |stages|
  {
    if |stages| == 0 then r else ThenAll(Then(r, stages[0], cfg, num), stages[1..], cfg, num)
  }

  predicate RankIncreasing(stages: seq<Stage>)
  {
    forall i, j :: 0 <= i < j < |stages| ==> Rank(stages[i]) < Rank(stages[j])
  }

  /** A stage is kept exactly when it is listed and its toggle is set. */
  lemma {:induction false} EnabledOfMembers(toggles: map<string, bool>, stages: seq<Stage>, s: Stage)
    ensures s in EnabledOf(toggles, stages) <==> s in stages && Enabled(toggles, s)
    decreases |stages|
  {
    if |stages| > 0 {
      EnabledOfMembers(toggles, stages[1..], s);
      assert stages == [stages[0]] + stages[1..];
    }
  }

  /** Keeping some of the stages keeps their order. */
  lemma {:induction false} EnabledOfOrdered(toggles: map<string, bool>, stages: seq<Stage>)
    requires RankIncreasing(stages)
    ensures RankIncreasing(EnabledOf(toggles, stages))
    decreases |stages|
  {
    if |stages| > 0 {
      var rest := stages[1..];
      assert RankIncreasing(rest) by {
        forall i, j | 0 <= i < j < |rest| ensures Rank(rest[i]) < Rank(rest[j]) {
          assert rest[i] == stages[i + 1] && rest[j] == stages[j + 1];
        }
      }
      EnabledOfOrdered(toggles, rest);
      if Enabled(toggles, stages[0]) {
        var f := EnabledOf(toggles, rest);
        var e := [stages[0]] + f;
        forall i, j | 0 <= i < j < |e| ensures Rank(e[i]) < Rank(e[j]) {
          assert e[j] == f[j - 1];
          if i > 0 {
            assert e[i] == f[i - 1];
          } else {
            EnabledOfMembers(toggles, rest, e[j]);
            var k :| 0 <= k < |rest| && rest[k] == e[j];
            assert stages[k + 1] == e[j];
          }
        }
      }
    }
  }

  /** When every toggle is set every listed stage is kept. */
  lemma {:induction false} AllOnKeepsAll(toggles: map<string, bool>, stages: seq<Stage>)
    requires forall s :: Enabled(toggles, s)
    ensures EnabledOf(toggles, stages) == stages
    decreases |stages|
  {
    if |stages| > 0 {
      AllOnKeepsAll(toggles, stages[1..]);
      assert stages == [stages[0]] + stages[1..];
    }
  }


  lemma StageOrderIncreasing()
    ensures RankIncreasing(StageOrder)
    ensures forall s :: s in StageOrder
  {
    assert forall i :: 0 <= i < |StageOrder| ==> Rank(StageOrder[i]) == i;
    forall s ensures s in StageOrder { assert StageOrder[Rank(s)] == s; }
  }

  /**
   * The stages that run are exactly those whose toggle is set, in the fixed
   * order StainRemoval, HotPixelRemoval, ..., MinMaxScaling.
   */
  lemma EnabledStagesOrdered(toggles: map<string, bool>)
    ensures forall s :: s in EnabledStages(toggles) <==> Enabled(toggles, s)
    ensures RankIncreasing(EnabledStages(toggles))
  {
    StageOrderIncreasing();
    forall s ensures s in EnabledStages(toggles) <==> Enabled(toggles, s) {
      EnabledOfMembers(toggles, StageOrder, s);
    }
    EnabledOfOrdered(toggles, StageOrder);
  }

  /** Every toggle defaults to on: with no toggle given, all seven stages run. */
  lemma DefaultTogglesRunAll()
    ensures EnabledStages(map[]) == StageOrder
  {
    AllOnKeepsAll(map[], StageOrder);
  }

  /** Chaining guarded blocks is the fold of the enabled stages. */
  lemma {:induction false} ThenAllIsFold(r: Result<Image, PreprocError>, stages: seq<Stage>, cfg: PreprocConfig, num: Numerics)
    ensures r.Err? ==> ThenAll(r, stages, cfg, num) == r
    ensures r.Ok? ==> ThenAll(r, stages, cfg, num) == RunStages(r.value, EnabledOf(cfg.toggles, stages), cfg, num)
    decreases |stages|
  {
    if |stages| > 0 {
      var s := stages[0];
      ThenAllIsFold(Then(r, s, cfg, num), stages[1..], cfg, num);
      if r.Ok? && Enabled(cfg.toggles, s) {
        var e := [s] + EnabledOf(cfg.toggles, stages[1..]);
        assert e[0] == s && e[1..] == EnabledOf(cfg.toggles, stages[1..]);
      }
    }
  }

  lemma PipelineIsChain(img: Image, cfg: PreprocConfig, num: Numerics)
    ensures Pipeline(img, cfg, num) == ThenAll(Ok(img), StageOrder, cfg, num)
  {
    var r1 := Then(Ok(img), StainRemoval, cfg, num);
    var r2 := Then(r1, HotPixelRemoval, cfg, num);
    var r3 := Then(r2, StripingRemoval, cfg, num);
    var r4 := Then(r3, Denoising, cfg, num);
    var r5 := Then(r4, BackgroundSubtraction, cfg, num);
    var r6 := Then(r5, Winsorization, cfg, num);
    var o := StageOrder;
    assert o[1..] == [HotPixelRemoval, StripingRemoval, Denoising, BackgroundSubtraction, Winsorization, MinMaxScaling];
    assert o[2..] == o[1..][1..];
    assert o[3..] == o[2..][1..];
    assert o[4..] == o[3..][1..];
    assert o[5..] == o[4..][1..];
    assert o[6..] == o[5..][1..];
    assert o[7..] == o[6..][1..] == [];
    assert ThenAll(r6, o[6..], cfg, num) == Then(r6, MinMaxScaling, cfg, num);
    assert ThenAll(r5, o[5..], cfg, num) == ThenAll(r6, o[6..], cfg, num);
    assert ThenAll(r4, o[4..], cfg, num) == ThenAll(r5, o[5..], cfg, num);
    assert ThenAll(r3, o[3..], cfg, num) == ThenAll(r4, o[4..], cfg, num);
    assert ThenAll(r2, o[2..], cfg, num) == ThenAll(r3, o[3..], cfg, num);
    assert ThenAll(r1, o[1..], cfg, num) == ThenAll(r2, o[2..], cfg, num);
  }

  /** preprocess_image is the fold of its enabled stages over the image. */
  lemma PipelineIsFold(img: Image, cfg: PreprocConfig, num: Numerics)
    ensures Pipeline(img, cfg, num) == RunStages(img, EnabledStages(cfg.toggles), cfg, num)
  {
    PipelineIsChain(img, cfg, num);
    ThenAllIsFold(Ok(img), StageOrder, cfg, num);
  }

  lemma {:induction false} AllOffEnablesNothing(toggles: map<string, bool>, stages: seq<Stage>)
    requires forall s :: ToggleKey(s) in toggles && !toggles[ToggleKey(s)]
    ensures EnabledOf(toggles, stages) == []
    decreases |stages|
  {
    if |stages| > 0 {
      AllOffEnablesNothing(toggles, stages[1..]);
    }
  }

  /** With every toggle off the image is returned unchanged. */
  lemma AllTogglesOffIsIdentity(img: Image, cfg: PreprocConfig, num: Numerics)
    requires forall s :: ToggleKey(s) in cfg.toggles && !cfg.toggles[ToggleKey(s)]
    ensures Pipeline(img, cfg, num) == Ok(img)
  {
    AllOffEnablesNothing(cfg.toggles, StageOrder);
    PipelineIsFold(img, cfg, num);
  }

  /**
   * An empty configuration fails. On an image with a channel the hot-pixel
   * stage already fails, its default window 0 being refused by the median
   * filter; without channels that stage passes and the default striping
   * direction "vertical", neither "row" nor "column", is refused.
   */
  lemma EmptyConfigFails(img: Image, num: Numerics)
    ensures |img.channels| > 0 ==> Pipeline(img, EmptyConfig, num) == Err(InvalidFilterSize(0, 0))
    ensures |img.channels| == 0 ==> Pipeline(img, EmptyConfig, num) == Err(InvalidStripingDirection("vertical"))
  {
    assert MissingLabel(Tags(img.channels), []) == None;
    assert "vertical" != "row" && "vertical" != "column";
  }

  /**
   * preprocess_image as written: the toggles are read from `preproc_cfg` one
   * line before that name is bound, so every call raises UnboundLocalError
   * before any stage runs, whatever the image and the configuration.
   */
  function PreprocessAsWritten(img: Image, cfg: PreprocConfig, num: Numerics): Result<Image, PreprocError>
  {
    Err(UnboundConfig)
  }

  /** A configuration that switches every stage off. */
  const AllOffConfig := EmptyConfig.(toggles := map[
    "apply_background_stain_removal" := false, "apply_hot_pixel_removal" := false,
    "apply_striping_removal" := false, "apply_denoising" := false,
    "apply_background_subtraction" := false, "apply_winsorization" := false,
    "apply_min_max_scaling" := false])

  /**
   * With every stage switched off the intended pipeline returns the image
   * unchanged, while the function as written fails on every image.
   */
  lemma AsWrittenFailsWhereIntendedIsIdentity(img: Image, num: Numerics)
    ensures PreprocessAsWritten(img, AllOffConfig, num) == Err(UnboundConfig)
    ensures Pipeline(img, AllOffConfig, num) == Ok(img)
  {
    forall s: Stage ensures ToggleKey(s) in AllOffConfig.toggles && !AllOffConfig.toggles[ToggleKey(s)] {
    }
    AllTogglesOffIsIdentity(img, AllOffConfig, num);
  }
}
