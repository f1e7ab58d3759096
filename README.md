# Tissue-mask workflow for multiplexed images: a Dafny model

The workflow turns multiplexed imaging-mass-cytometry (IMC) whole-slide images into tissue masks and tissue patches. A stain panel links each channel's metal tag to a marker. Images and masks are (C, H, W) grids of per-channel intensities, and a mask is an H x W boolean grid. This project models four parts of the workflow as Dafny modules:

- `Preprocessing` (`preprocessing.dfy`): the seven toggled preprocessing stages, run in a fixed order:
  background-stain channel removal, hot-pixel removal, striping removal, denoising, background subtraction, winsorization, and per-channel min-max scaling.
  Each stage that loops over channels is a method with that loop. It is proved equal to a specification function of the input image.
- `MaskUtils` (`maskutils.dfy`): the Otsu and GMM tissue thresholds, with their floor, component sorting and fallback.
  It also covers the "any channel above threshold" raw mask and the integer area metadata of `generate_tissue_mask`.
- `PatchUtils` (`patchutils.dfy`): the sliding-window patch extraction.
  It covers the strided grid of in-bounds windows, the coverage screen on the mask, the attempted/valid counters, and the update of the caller's mutable `stats` dictionary.
  The dictionary is the `Stats` class.
- `IoUtils` (`ioutils.dfy`): the label and panel logic.
  This covers metal-tag canonicalisation, the marker reverse lookup, the row filters and first-wins de-duplication of `load_panel`, the mask-generation panel subset, and the internal whole-slide-image (WSI) ids.

`Common` (`common.dfy`) holds the shared vocabulary: `Option`, `Result`, grids, masks, labelled channels, images, and the cell counts used for areas.

Intensities are Dafny `real`s. The numerical library routines are function-typed fields of small datatypes, and the model passes them on without interpreting them. These are `Preprocessing.Numerics`, `MaskUtils.Estimators` and `MaskUtils.Morphology`, and they stand for scipy's median filter, numpy's percentile, the arcsinh transform, scipy's winsorize, Otsu's threshold, the Gaussian-mixture fit and its intersection, and the two skimage morphology cleaners. Python exceptions become `Err` results.

## Model

| member | source | states |
|---|---|---|
| Preprocessing.PreprocessImage | utils/preprocessing.py:20-73 | runs the stages in the order 1 to 7, each only when its toggle (default on) is set, stopping at the first error; the result equals the `Pipeline` specification |
| Preprocessing.RunStage | utils/preprocessing.py:27-71 | one block runs its stage with the configured parameters, missing entries taking the source's defaults |
| Preprocessing.PipelineIsChain | utils/preprocessing.py:27-73 | the pipeline is the toggled chain over the fixed stage order, with an error passed through unchanged |
| Preprocessing.PipelineIsFold | utils/preprocessing.py:27-73 | the pipeline runs exactly the enabled stages, in the fixed order |
| Preprocessing.EnabledStagesOrdered | utils/preprocessing.py:27-71 | a stage runs if and only if its toggle is on or missing; the running stages keep the order 1 to 7 |
| Preprocessing.StageOrderIncreasing | utils/preprocessing.py:27-71 | the stage order lists every stage once, in increasing rank |
| Preprocessing.DefaultTogglesRunAll | utils/preprocessing.py:28-70 | with no toggle configured all seven stages run |
| Preprocessing.AllTogglesOffIsIdentity | utils/preprocessing.py:27-73 | with every toggle false the image is returned unchanged |
| Preprocessing.EmptyConfigFails | utils/preprocessing.py:32-46 | an empty configuration fails: on an image with a channel, the default hot-pixel window 0 is refused by the median filter; on an image without channels, the default striping direction "vertical" is rejected |
| Preprocessing.AsWrittenFailsWhereIntendedIsIdentity | utils/preprocessing.py:24-25 | as written, the function fails on every image, even with every stage off; the intended pipeline returns such an image unchanged |
| Preprocessing.KeptIndices | utils/preprocessing.py:75-77 | the kept channel indices are exactly those whose label is not a stain, ascending |
| Preprocessing.MissingLabel | utils/preprocessing.py:75-77 | reports a stain missing from the labels exactly when one is missing |
| Preprocessing.DropChannelsTags | utils/preprocessing.py:75-77 | a label survives the drop exactly when it was present and is not a stain |
| Preprocessing.RemoveBackgroundStains | utils/preprocessing.py:75-77 | succeeds exactly when every stain is a channel label, otherwise fails naming a missing stain; the height and width are kept and the remaining labels are exactly the non-stain labels |
| Preprocessing.StainRemovalKeepsOrder | utils/preprocessing.py:75-77 | the remaining channels are the non-stain channels in their original order |
| Preprocessing.StainRemovalValid | utils/preprocessing.py:75-77 | stain removal keeps every plane H x W |
| Preprocessing.NoStainKeepsAll | utils/preprocessing.py:75-77 | with no stain listed every channel is kept |
| Preprocessing.PaddedMad | utils/preprocessing.py:100 | the padded MAD is never zero, so the z-score is always defined |
| Preprocessing.HotPixelRule | utils/preprocessing.py:89-122 | a pixel takes the local median exactly when its z-score magnitude exceeds the threshold and its cross of neighbours is not all candidates; every other pixel keeps its value |
| Preprocessing.CrossCentreUnchanged | utils/preprocessing.py:89-116 | a candidate whose four orthogonal neighbours are all candidates survives erosion and is left unchanged |
| Preprocessing.NonCandidateUnchanged | utils/preprocessing.py:111-122 | a pixel that is not a candidate keeps its value |
| Preprocessing.CandidateBesideBackgroundReplaced | utils/preprocessing.py:111-120 | a candidate with an orthogonal neighbour that is not a candidate, or that lies outside the plane, takes its local median; so every candidate on the border is replaced |
| Preprocessing.AdjacentPairReplaced | utils/preprocessing.py:114-120 | two adjacent interior hot pixels in a quiet plane are both replaced, because neither is the centre of a cross of candidates |
| Preprocessing.RemoveHotPixels | utils/preprocessing.py:79-124 | the per-channel loop gives every channel, with its label kept, the hot-pixel correction of its own plane and filtered median/MAD; a window below 1 fails at the first channel's median filter |
| Preprocessing.HotPixelsOutcome | utils/preprocessing.py:92-97 | hot-pixel removal fails exactly when there is a channel and the window is below 1; on success the shape and the labels are kept |
| Preprocessing.StripingWindow | utils/preprocessing.py:132-137 | succeeds exactly for "row" or "column"; "row" gives a (1, size) window, "column" gives (size, 1), and any other direction is an error naming it |
| Preprocessing.RemoveStripingArtifacts | utils/preprocessing.py:126-146 | rejects a bad direction before filtering; otherwise every channel is median-filtered with the direction's window, and a size below 1 fails at the first channel |
| Preprocessing.StripingOutcome | utils/preprocessing.py:132-144 | a direction other than "row" or "column" fails; otherwise the stage fails exactly when there is a channel and the size is below 1, reporting the window; on success the shape and the labels are kept |
| Preprocessing.Denoise | utils/preprocessing.py:148-159 | every channel is replaced by its variance-stabilised plane |
| Preprocessing.SubtractBackground | utils/preprocessing.py:161-174 | every channel has its own percentile level subtracted, clipped at zero |
| Preprocessing.BackgroundSubtractionExact | utils/preprocessing.py:168-172 | each output value is the input minus its channel's level when the input is at least the level, and 0 otherwise; it is never negative |
| Preprocessing.Winsorize | utils/preprocessing.py:176-187 | every channel is replaced by its winsorized plane |
| Preprocessing.SeqMin | utils/preprocessing.py:196-197 | the minimum is a lower bound that occurs in the values |
| Preprocessing.SeqMax | utils/preprocessing.py:196-197 | the maximum is an upper bound that occurs in the values |
| Preprocessing.FirstEmpty | utils/preprocessing.py:195-197 | finds the first channel with no pixel, or reports that every channel has a pixel |
| Preprocessing.Scale | utils/preprocessing.py:189-200 | an image with a pixel-less channel fails (the scaler rejects zero samples); otherwise every channel is min-max scaled |
| Preprocessing.ScaleChannelInUnit | utils/preprocessing.py:189-198 | every scaled value lies in [0, 1] and the shape is kept |
| Preprocessing.ScaleChannelAt | utils/preprocessing.py:196-198 | each scaled value is (value - min) / (max - min) of its own channel |
| Preprocessing.ScaleChannelExtremes | utils/preprocessing.py:189-198 | in a non-constant channel some pixel maps to 0 and some pixel maps to 1 |
| Preprocessing.ScaleChannelConstant | utils/preprocessing.py:189-198 | a constant channel maps to 0 everywhere |
| Preprocessing.Rank | utils/preprocessing.py:27-71 | each stage's rank is its position in the fixed order |
| MaskUtils.Floored | utils/mask_utils.py:29 | the floored threshold is the larger of the estimate and the floor |
| MaskUtils.OtsuThreshold | utils/mask_utils.py:18-36 | the threshold is the Otsu value or the floor, whichever is larger; the metadata records method "otsu", that threshold and the floor |
| MaskUtils.DetermineOtsuThreshold | utils/mask_utils.py:18-36 | the Otsu threshold of all the composite's values, with the floor defaulting to 0 |
| MaskUtils.AllValues | utils/mask_utils.py:28 | every pixel value of every channel is among the values Otsu sees |
| MaskUtils.PixelValues | utils/mask_utils.py:50 | one pixel's values, one per channel |
| MaskUtils.MedianComposite | utils/mask_utils.py:50 | the median across channels, H x W |
| MaskUtils.SortedByMean | utils/mask_utils.py:63-64 | the components come out with ascending means, and the stds and weights are permuted identically |
| MaskUtils.DetermineGmmThreshold | utils/mask_utils.py:39-85 | the threshold is never below the floor and equals the recorded threshold; the method is "gmm" exactly when the fit succeeds |
| MaskUtils.GmmSuccess | utils/mask_utils.py:53-79 | on a successful fit the threshold is the floored intersection of the mean-sorted components, recorded with the sorted parameters |
| MaskUtils.GmmFallback | utils/mask_utils.py:50-83 | when the fit fails the result is the Otsu result on the median composite, with method "otsu" |
| MaskUtils.AnyAbove | utils/mask_utils.py:128 | true exactly when some channel strictly exceeds the threshold at the pixel |
| MaskUtils.RawMask | utils/mask_utils.py:128 | the raw mask is H x W, and a pixel is tissue exactly when some channel strictly exceeds the threshold |
| MaskUtils.GenerateTissueMask | utils/mask_utils.py:117-162 | reads the `tissue_mask` section, thresholds, cleans step by step and assembles the metadata; fails on a missing section, on an enabled step without its threshold, on a disabled step and on an empty image, in that order; succeeds exactly when the section has both thresholds, both toggles are on and the image area is positive |
| MaskUtils.RawAreaCountsAbove | utils/mask_utils.py:128-156 | the raw area counts the above-threshold pixels, the full area is H * W, the clean area counts the final mask, and the change is final minus raw |
| MaskUtils.AreaTotalsBounded | utils/mask_utils.py:133-143 | the removed area counts raw pixels missing from the cleaned mask and is at most the raw area; the filled area counts final pixels missing from the raw mask and is at most the clean area |
| MaskUtils.CoverageIsWholeOrNothing | utils/mask_utils.py:146-155 | the clean area is at most the image area, and the coverage field, as written without a factor of 100, is 1 exactly when every pixel is tissue and 0 otherwise |
| MaskUtils.TissueMaskCoverage | utils/mask_utils.py:133-155 | with cleaners that keep an H x W mask's shape, a successful call returns an H x W mask whose area is at most the image's and whose coverage field is 1 exactly when every pixel is tissue, 0 otherwise |
| MaskUtils.WholeOrNothing | utils/mask_utils.py:155 | the integer part of a ratio that is at most 1 is 1 only for equal terms |
| MaskUtils.ChangePercentSign | utils/mask_utils.py:157-159 | the percentage change is 0 from an empty raw mask; otherwise it is positive exactly when the mask grew and zero exactly when the area is unchanged |
| MaskUtils.RatioSign | utils/mask_utils.py:157-158 | a change divided by a positive area and scaled to a percentage keeps its sign |
| MaskUtils.AreaChangeBalance | utils/mask_utils.py:133-156 | when cleaning only removes and then only adds pixels, and no removed pixel returns, the area change is the filled area minus the removed area |
| MaskUtils.KeptPixelsAgree | utils/mask_utils.py:136-142 | under those conditions the final tissue inside the raw mask is exactly the kept objects |
| MaskUtils.RefilledObjectUncounted | utils/mask_utils.py:136-156 | since holes are measured against the raw mask, a removed pixel that hole filling restores counts as removed but not as filled |
| PatchUtils.Trunc | utils/patch_utils.py:30 | `int()` of a float truncates toward zero |
| PatchUtils.StepOf | utils/patch_utils.py:30 | a positive step needs a positive patch size |
| PatchUtils.Range | utils/patch_utils.py:48-49 | `range(0, stop, step)` is exactly the multiples of the step below the stop, in order |
| PatchUtils.RangeMembership | utils/patch_utils.py:48-49 | index k is in the range exactly when k * step is below the stop |
| PatchUtils.Ys | utils/patch_utils.py:48 | every row origin leaves room for a patch inside the image |
| PatchUtils.Xs | utils/patch_utils.py:49 | every column origin leaves room for a patch inside the image |
| PatchUtils.OriginsRowMajor | utils/patch_utils.py:48-49 | grid position (i, j) is visited at place i * columns + j: rows outer, columns inner |
| PatchUtils.OriginsLength | utils/patch_utils.py:48-50 | the grid has one position per row origin and column origin |
| PatchUtils.WindowShape | utils/patch_utils.py:53-57 | a window inside the array is ph x pw and reads the array at the offset |
| PatchUtils.Crop | utils/patch_utils.py:53-56 | the image window keeps every channel and its label and is ph x pw |
| PatchUtils.Mean | utils/patch_utils.py:60-74 | the mean of a 0/1 mask lies in [0, 1] |
| PatchUtils.PatchAt | utils/patch_utils.py:53-77 | a yielded patch carries its window's mask and metadata recording the WSI id, origin, stride, channels, size and coverage |
| PatchUtils.ScreenOne | utils/patch_utils.py:60-77 | one window is yielded or skipped according to its coverage |
| PatchUtils.ExamineWindow | utils/patch_utils.py:53-77 | the body of the inner loop: the patch list and the valid count grow by that window's screen |
| PatchUtils.ScreenRow | utils/patch_utils.py:49-77 | the inner loop over the column origins of one row appends that row's screened patches and counts every window as attempted |
| PatchUtils.ScreenWindows | utils/patch_utils.py:45-77 | the nested loops produce exactly the screened patches and counters of `Screened`, or the error of a zero step |
| PatchUtils.YieldedPatchFits | utils/patch_utils.py:21-75 | every yielded patch lies inside the image, at multiples of the steps, with the patch size, one channel per image channel, and coverage equal to its mask's mean, at least the floor |
| PatchUtils.CountersAgree | utils/patch_utils.py:45-63 | attempts count every grid position; the valid count is the number of yielded patches and never exceeds the attempts |
| PatchUtils.YieldedIffCovered | utils/patch_utils.py:48-77 | grid position (i, j) is origin (i * sH, j * sW), and its window is yielded exactly when its coverage reaches the floor |
| PatchUtils.KeptFrom | utils/patch_utils.py:60-77 | every yielded patch comes from an examined window whose coverage reaches the floor |
| PatchUtils.KeptComplete | utils/patch_utils.py:60-77 | every examined window whose coverage reaches the floor is yielded |
| PatchUtils.KeptLength | utils/patch_utils.py:63 | no more patches are yielded than windows examined |
| PatchUtils.Stats.constructor | src/extract_patches.py:88 | the statistics start with both counters at 0 |
| PatchUtils.Stats.Accumulate | utils/patch_utils.py:80-81 | the two counters grow by exactly the per-image totals and no other key changes; a missing key fails at its own statement, after the earlier update took effect |
| PatchUtils.ExtractPatches | utils/patch_utils.py:19-81 | yields the screened patches in grid order and folds the counters into `stats`; a zero step fails with `stats` untouched; a missing `total_attempted` key fails with `stats` untouched, and a missing `total_valid` key fails after `total_attempted` has been incremented |
| IoUtils.RemoveSpaces | utils/io_utils.py:157 | no space remains |
| IoUtils.Letters | utils/io_utils.py:158 | only ASCII letters are kept |
| IoUtils.Digits | utils/io_utils.py:159 | only digits are kept |
| IoUtils.SpacesIrrelevant | utils/io_utils.py:157-159 | removing spaces first changes neither the letters nor the digits |
| IoUtils.CanonicalTagSpec | utils/io_utils.py:157-160 | a canonical tag is the tag's letters in order followed by its digits in order, and canonicalising is idempotent |
| IoUtils.CanonicalFixesCanonical | utils/io_utils.py:157-160 | a tag of letters followed by digits is unchanged |
| IoUtils.CanonicalizeMetalTags | utils/io_utils.py:150-161 | the append loop keeps the list's length and order and canonicalises each tag |
| IoUtils.AddSynonyms | utils/io_utils.py:142-143 | each synonym is mapped to the key and every other entry is kept |
| IoUtils.AddEntry | utils/io_utils.py:134-143 | the key, its display name and its synonyms are mapped to the key, and every other entry is kept |
| IoUtils.ReverseLookupDomain | utils/io_utils.py:133-143 | a value is in the lookup exactly when some entry names it, as key, display name or synonym |
| IoUtils.ReverseLookupValue | utils/io_utils.py:133-143 | a value maps to the key of the last entry that names it: later assignments overwrite earlier ones |
| IoUtils.BuildReverseLookup | utils/io_utils.py:133-143 | the nested loops build exactly the reverse lookup |
| IoUtils.MapMarkers | utils/io_utils.py:146 | the list keeps its length; a marker in the lookup maps to its key and any other marker maps to itself |
| IoUtils.CanonicalizeMarkers | utils/io_utils.py:114-147 | the markers are mapped through the reverse lookup built from the mapping |
| IoUtils.CanonicalMarkerOf | utils/io_utils.py:133-146 | a marker no entry names maps to itself; otherwise it maps to the key of the last entry naming it |
| IoUtils.FilterMembers | utils/io_utils.py:101 | a row survives a boolean-mask filter exactly when it is a row that passes |
| IoUtils.FilterAppend | utils/io_utils.py:101 | filtering keeps the rows' order |
| IoUtils.PresentRows | utils/io_utils.py:99-101 | exactly the rows whose canonical metal tag the image carries |
| IoUtils.StainFilterRemovesNothing | utils/io_utils.py:104-106 | as written, the background-stain step removes no row, whatever stains are configured |
| IoUtils.StainSurvivesAsWritten | utils/io_utils.py:104-106 | as written, a row whose marker is a configured stain is kept |
| IoUtils.StainFilterSpec | utils/io_utils.py:103-106 | the intended filter keeps rows in order, and a row survives exactly when its marker is not a configured stain |
| IoUtils.DropDuplicatesTags | utils/io_utils.py:109 | de-duplication keeps every metal tag and adds none |
| IoUtils.DropDuplicatesUnique | utils/io_utils.py:109 | after de-duplication no two rows share a metal tag |
| IoUtils.DropDuplicatesKeepsFirst | utils/io_utils.py:109 | each kept row is the first input row with its tag |
| IoUtils.LoadPanelSpec | utils/io_utils.py:57-111 | the intended panel, with the corrected stain filter (see Findings), holds the first row per tag among the present, non-stain rows; every row has a present canonical tag and a non-stain marker, and tags are unique |
| IoUtils.DropDuplicatesKeepsEveryFirst | utils/io_utils.py:108-109 | the first row carrying each tag is kept by de-duplication |
| IoUtils.LoadPanelAsWrittenSpec | utils/io_utils.py:57-111 | the panel as written is the first row per tag among the present rows, stains included: tags are unique and are those of the present rows, every row's canonical tag is present, and the first present row of each tag is kept, so a stain row survives that the intended panel drops |
| IoUtils.MaskGenerationPanel | utils/io_utils.py:204-220 | the whole panel when no marker is configured; otherwise exactly the rows whose canonical marker is listed |
| IoUtils.MaskGenerationPanelOrder | utils/io_utils.py:215-218 | the subset keeps the panel's order |
| IoUtils.StrLessTotal | utils/io_utils.py:286 | string order is total |
| IoUtils.StrLessTrans | utils/io_utils.py:286 | string order is transitive |
| IoUtils.StrLessIrreflexive | utils/io_utils.py:286 | string order is strict |
| IoUtils.InsertSorted | utils/io_utils.py:286 | inserting into a sorted list keeps it sorted |
| IoUtils.InsertMultiset | utils/io_utils.py:286 | inserting adds exactly the new element |
| IoUtils.SortFiles | utils/io_utils.py:286 | the files come out sorted and as a permutation of the input |
| IoUtils.ParseNatToString | utils/io_utils.py:288 | the decimal rendering of an index reads back as that index |
| IoUtils.WsiIdInjective | utils/io_utils.py:288 | different indices give different "wsi_i" ids |
| IoUtils.WsiIdMapping | utils/io_utils.py:275-294 | one entry per file; the i-th id is "wsi_i", and the paths are the files sorted |
| IoUtils.WsiIdsDistinct | utils/io_utils.py:287-290 | the assigned ids are pairwise distinct |

## Findings

| source | as written | input that shows it | evidently intended | confidence | as-written member | corrected member |
|---|---|---|---|---|---|---|
| utils/preprocessing.py:24-25 | `toggles_cfg` is read from `preproc_cfg` one line before `preproc_cfg` is assigned, so every call raises UnboundLocalError | any image and any configuration, e.g. one with every toggle false | assign `preproc_cfg` first, then read its `toggles` | high (not executed) | Preprocessing.AsWrittenFailsWhereIntendedIsIdentity | Preprocessing.PreprocessImage |
| utils/io_utils.py:105-106 | `if not background_stains:` filters only when the stain list is empty, which removes nothing, and skips the filter whenever stains are listed | `background_stains = ["Ar80"]` and a row whose marker is "Ar80": the row is kept | drop the rows whose marker is a listed stain when any are listed | high (not executed) | IoUtils.StainSurvivesAsWritten | IoUtils.StainFilterSpec |

The as-written members are `Preprocessing.PreprocessAsWritten`, `IoUtils.StainFilterAsWritten` and `IoUtils.LoadPanelAsWritten`. `Preprocessing.PreprocessImage` and `IoUtils.LoadPanel` use the corrected behaviour. All other quirks are modelled as written:
- the integer coverage field has no factor of 100;
- holes are measured against the raw mask;
- an area total is undefined when its toggle is off.

## Left out

- File and format I/O is not modelled. This covers configuration YAML loading, panel CSV/Excel reading, MCD/TIFF image reading, the canonical-marker YAML file, the `save_*` writers, directory creation, the mask-file read and its FileNotFoundError in `extract_patches`, and the id-mapping CSV.
  The panel rows, the marker mapping, the present tags, the file list, the image and the mask arrive as values.
- The command-line scripts and the QC plot are not modelled: they are argument parsing, zarr/CSV plumbing and matplotlib presentation.
- Floating point is not modelled: intensities are exact reals.
  So float32 rounding, NaN and infinities are absent, the `1e-6` padding is exact, and `int()` of a ratio is modelled on reals.
- The numerical library routines are uninterpreted function fields, so nothing is proved about their internals.
  These are scipy's `median_filter`, numpy's `percentile`, the arcsinh VST, scipy's `winsorize`, skimage's `threshold_otsu`, sklearn's `GaussianMixture` fit, `find_gaussian_intersection` (log, sqrt, `np.isclose`), the median across channels, and skimage's `remove_small_objects` and `remove_small_holes`.
- MaskUtils.DetermineGmmThreshold: the fit is an input that may fail. The model does not decide that sklearn rejects the 1-D pixel array it is given; either outcome is covered, and a failure takes the Otsu fallback.
- `MinMaxScaler` is replaced by the explicit (x - min) / (max - min), with 0 for a constant channel and an error for a channel with no pixel.
- xarray coordinates are modelled only as one label per channel.
  The reduction over the `marker` dimension in `generate_tissue_mask` is read as a reduction over channels.
  The labels that `np.empty_like` drops are kept.
- Preprocessing.HotPixelRule: the MAD plane is the filter's output, taken as given. The pixel test is stated on the padded z-score, not on numpy's masked `divide`; the two agree because the padded MAD is never zero.
- IoUtils.IsDigit: `\d` is modelled as the ASCII digits `0`-`9`. Python also matches other Unicode decimal digits.
- IoUtils.CanonicalizeMetalTags: tags are strings. The `str(tag)` conversion of a non-string tag is not modelled.
- IoUtils.SortFiles: file paths are compared as strings, by code point. This stands in for the ordering of `Path` objects.
- IoUtils.LoadPanel: uses the corrected background-stain filter (see Findings). The source's filter is `IoUtils.StainFilterAsWritten`, and the panel as written is `IoUtils.LoadPanelAsWritten`.
- IoUtils.LoadPanel: the column selection and renaming are not modelled; the `next(...)` StopIteration on a panel without a metal-tag or marker column is not modelled either.
- PatchUtils.ExtractPatches: the stride fraction is required to be non-negative, and the mask must have the image's shape. Negative strides, and Python's clamping of slice bounds on a smaller mask, are not modelled.
- PatchUtils.ExtractPatches: the generator is modelled run to exhaustion, so yielding lazily is not captured.
  A missing `stats` key is reported after all patches are computed. The source raises it only once the caller has consumed every patch.
- PatchUtils.ExtractPatches: the optional preprocessing of the loaded image is left to the caller, who passes the already preprocessed image. `Preprocessing.PreprocessImage` models that stage.
- Preprocessing.RemoveHotPixels: the median filter is otherwise total. Of scipy's failures only the refusal of a window side below 1 is modelled; a non-integer size from the configuration is not.
- MaskUtils.GenerateTissueMask: the AttributeError on a missing `tissue_mask` section, and the TypeError of a cleaner given a None threshold, are modelled as error results. A threshold of another type than an integer is not modelled.
- MaskUtils.GenerateTissueMask: the NameError for a missing area total is modelled as an error result. So is the fault from `int()` of a not-a-number coverage on an empty image; the model reports no metadata in either case.
