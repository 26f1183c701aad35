# Photo enhancer: a verified model of its core

The photo enhancer applies one of four fixed enhancement profiles to a photo,
or to every image in a folder. A profile has seven integer settings: HDR,
brightness, contrast, white point, shadows, saturation and warmth. For each
setting that is non-zero, one adjustment runs, always in the same order. The
result goes to the output path. In folder mode it goes to
`<stem>_enhanced<suffix>` in the output folder, or in a subfolder named after
the profile. An image that fails is skipped, and the batch counts how many
were enhanced. The command line picks a mode from its options and turns the
outcome into an exit status.

The model has these parts:

- **Images** (`images.dfy`). An image is a width, a height and a row-major
  sequence of RGB pixels. `Quantize` stands for `np.clip(..., 0, 255)`
  followed by `astype(np.uint8)`. `Luminance` is the weighted sum 0.299 R +
  0.587 G + 0.114 B.
- **Adjustments** (`adjustments.dfy`).
  - Brightness, contrast, saturation and the HDR effect hand their work to
    the imaging library. The library is a `Toolkit` value whose operations
    are opaque functions. What the model computes is the factors passed to
    them: `1 + v/100`, `int(150 * v/100)`, `1 - 0.2 * v/100` and the blend
    weight `v/100`.
  - Warmth, shadows and white point are per-pixel rules on exact reals. Each
    is written once as a function, which is its specification, and once as a
    method that updates an array of pixels plane by plane or pixel by pixel,
    as the source updates its float copy of the image. Each method is proved
    equal to its function.
- **Profiles** (`profiles.dfy`). The catalog `PROFILES`, as a map, plus its
  key order.
- **Pipeline** (`pipeline.dfy`). `enhance_photo`:
  - The plan of a profile is its non-zero stages in the fixed order.
  - `EnhanceImage` is the seven guarded reassignments, proved to run that
    plan.
  - `EnhancePhoto` adds the profile check, opening the image and saving it.
    Its result is the error it raises and a log of filesystem actions.
- **Names and discovery** (`names.dfy`, `discovery.dfy`).
  - pathlib's `stem` and `suffix`, and the output name.
  - `glob('*' + ext)` as pathlib matches it on POSIX systems: case-sensitively.
  - The twelve patterns: each extension as written and upper-cased.
  - The discovery loop over the extension set, for any iteration order of
    that set.
- **Batch** (`batch.dfy`). `enhance_folder`. It checks the profile, the input
  folder and the output folder creation, then processes every found file in
  turn. A failing image is isolated from the others. The run reports the
  output folder, the found files and the success count.
- **Command line** (`cli.dfy`). The decision `main` makes from its parsed
  options, and the exit status it returns.

The filesystem and the image codec are function-valued parameters
(`Files.FileSystem`):

- whether a path exists;
- a directory listing, in the order the system gives it;
- `mkdir`;
- `Image.open` plus RGB conversion;
- `save`.

Operations that touch the filesystem return the list of actions they took
(`Files.Effect`), each open and save with whether it worked.

Two behaviours of the code are easy to misread, and the model follows the
code in both:

- Extension matching does not ignore case. The code globs for each
  extension in lower case and in all upper case only. pathlib matches
  case-sensitively on POSIX systems, macOS included, so there `photo.Jpg`
  is not found (`Names.OnlyExactCase`).
- The batch keeps no list of failures. It counts successes and prints an
  error line for each failure. The model's `Batch.Report` holds the count.
  Which files failed can be read from the action log, which records the
  outcome of every open and save (`Batch.FailuresInLog`).

## Model

| member | source | states |
|---|---|---|
| Images.Clip | photo_enhancer.py:100-101 | `np.clip`: the result lies in [lo, hi]; it equals x inside the range and the nearer bound outside it |
| Images.Quantize | photo_enhancer.py:100-103 | clip to [0, 255], then the uint8 cast: always a channel value; the floor of x when x is in range; 0 below the range and 255 above it |
| Images.QuantizeMonotone | photo_enhancer.py:100-103 | clipping then truncating never reverses the order of two values |
| Images.QuantizeShift | photo_enhancer.py:118-121 | adding an in-range amount to an 8-bit channel and quantizing gives the channel plus the floor of the amount |
| Images.QuantizeAtLeast | photo_enhancer.py:100-103 | a channel at most x stays at most the quantized x |
| Images.QuantizeAtMost | photo_enhancer.py:100-103 | a channel at least x stays at least the quantized x |
| Images.QuantizeChannel | photo_enhancer.py:94-103 | converting an 8-bit value to float and back gives the same value |
| Images.Luminance | photo_enhancer.py:114 | the luminance of a valid pixel lies in [0, 255]; for a grey pixel it equals its channel value |
| Adjustments.EnhanceFactor | photo_enhancer.py:68-86 | the factor `1 + v/100` is above, at or below 1 exactly when v is positive, zero or negative; it lies in [0, 2] for v in [-100, 100]; it encodes v exactly |
| Adjustments.Trunc | photo_enhancer.py:150 | Python's `int()` on a float rounds toward zero, for both signs |
| Adjustments.HdrStrength | photo_enhancer.py:147 | the strength `v/100` lies in [0, 1] for v in [0, 100] and encodes v exactly |
| Adjustments.UnsharpPercent | photo_enhancer.py:150 | the unsharp-mask percentage is floor(3v/2) for v >= 0, and lies in [0, 150] for v in [0, 100] |
| Adjustments.HdrContrastFactor | photo_enhancer.py:154 | the compression factor `1 - 0.2 * strength` lies in [0.8, 1] for v in [0, 100]; it equals (500 - v)/500 |
| Adjustments.ApplyBrightness | photo_enhancer.py:68-72 | given a library that keeps images valid and keeps their dimensions, the brightened image is valid and has the input's dimensions |
| Adjustments.ApplyContrast | photo_enhancer.py:75-79 | the same as ApplyBrightness, for the Contrast enhancer |
| Adjustments.ApplySaturation | photo_enhancer.py:82-86 | the same as ApplyBrightness, for the Color enhancer |
| Adjustments.ApplyHdr | photo_enhancer.py:141-157 | a zero value returns the image itself; otherwise the result of unsharp mask, contrast and blend is valid and has the input's dimensions |
| Adjustments.Gain | photo_enhancer.py:100-101 | multiplying a channel by a gain of at least 1 never lowers it; a gain of at most 1 never raises it |
| Adjustments.GainMonotone | photo_enhancer.py:100-101 | a larger gain never gives a smaller product, for a non-negative channel |
| Adjustments.Scale | photo_enhancer.py:100-103 | a scaled channel is again a channel; at least the old one for a gain of at least 1, at most the old one for a gain of at most 1 |
| Adjustments.ScaleFactorMonotone | photo_enhancer.py:100-103 | a larger gain never gives a smaller scaled channel |
| Adjustments.RedGain | photo_enhancer.py:97-100 | the red gain `1 + 0.3 v/100` is at least 1 exactly when v >= 0 |
| Adjustments.BlueGain | photo_enhancer.py:97-101 | the blue gain `1 - 0.3 v/100` is at most 1 exactly when v >= 0 |
| Adjustments.WarmthPixel | photo_enhancer.py:97-103 | green is untouched; warming (v >= 0) never lowers red nor raises blue; cooling does the reverse; v = 0 changes nothing; the result is a valid pixel |
| Adjustments.WarmthMonotone | photo_enhancer.py:97-101 | a warmer setting never gives less red nor more blue |
| Adjustments.MapPixels | photo_enhancer.py:100-101 | a whole-array operation keeps the dimensions and applies the per-pixel rule at every index |
| Adjustments.Warmth | photo_enhancer.py:89-103 | `apply_warmth` on an image: v = 0 returns the image itself; otherwise every pixel is `WarmthPixel` of the pixel at the same index; the dimensions, validity and every green channel are kept |
| Adjustments.ApplyWarmth | photo_enhancer.py:89-103 | the array version, which writes the red plane and then the blue plane, computes exactly `Warmth` |
| Adjustments.ShadowMask | photo_enhancer.py:115 | the shadow mask lies in [0, 1]; it is 1 for black, 0 from luminance 128 up, and linear in between |
| Adjustments.HighlightMask | photo_enhancer.py:133 | the highlight mask lies in [0, 1]; it is 0 up to luminance 128, 1 from 256 up, and linear in between |
| Adjustments.MasksMonotone | photo_enhancer.py:113-133 | a brighter pixel never gets more shadow weight nor less highlight weight |
| Adjustments.MasksDisjoint | photo_enhancer.py:113-133 | no pixel is weighted by both masks; mid-grey (128) is weighted by neither |
| Adjustments.Shift | photo_enhancer.py:118-121 | adding one amount to all three channels and clipping gives a valid pixel; a positive amount never darkens a channel, a negative one never brightens it; the order among the channels is kept |
| Adjustments.ShiftUniform | photo_enhancer.py:118-121 | when no channel leaves [0, 255], every channel moves by the floor of the amount |
| Adjustments.ToneMask | photo_enhancer.py:113-133 | both luminance masks are weights in [0, 1] |
| Adjustments.Lift | photo_enhancer.py:118 | the amount `value * 0.5 * mask` has the sign of value and is at most half of it; no lift from mid-grey up for shadows, none up to mid-grey for highlights |
| Adjustments.Adjustment | photo_enhancer.py:118 | for a mask in [0, 1], `value * 0.5 * mask` lies between 0 and value/2; a zero mask gives no adjustment |
| Adjustments.TonePixel | photo_enhancer.py:106-121 | a shadows or white-point pixel is valid; a positive value never darkens it and a negative one never brightens it; bright pixels keep their shadows and dark pixels keep their highlights; v = 0 changes nothing |
| Adjustments.ToneAdjust | photo_enhancer.py:106-138 | `apply_shadows` and `apply_white_point` on an image: v = 0 returns the image itself; otherwise every pixel is `TonePixel` of the pixel at the same index; the dimensions and validity are kept |
| Adjustments.ToneStep | photo_enhancer.py:111-121 | shifting a pixel by the adjustment of its precomputed mask gives the tone-adjusted pixel |
| Adjustments.ComputeMask | photo_enhancer.py:114-115 | the mask array holds every pixel's luminance weight |
| Adjustments.ApplyTone | photo_enhancer.py:106-138 | the array version (mask, then adjust and clip) computes exactly `ToneAdjust` |
| Profiles.Lookup | photo_enhancer.py:162-166 | a name gives a profile exactly when it is one of the four keys, and then it gives that key's catalog entry |
| Profiles.Catalog | photo_enhancer.py:30-65 | `PROFILES`: the four profiles under their keys |
| Profiles.KeysMatchCatalog | photo_enhancer.py:30-65 | the catalog's keys are exactly the four keys of `ProfileKeys` (which lists them in the dictionary's insertion order), none twice |
| Profiles.CatalogEntries | photo_enhancer.py:30-65 | the settings of HDR_Boost, Natural_Enhance, Vibrant and Portrait, with zero for every setting a profile leaves out |
| Profiles.DefaultsAreZero | photo_enhancer.py:17-26 | a profile built with only a name has every setting at 0 |
| Files.Join | photo_enhancer.py:279 | `dir / name` is the directory, one separator and the name |
| Files.JoinInjective | photo_enhancer.py:279 | two names in one directory have the same path only when they are equal |
| Pipeline.Rank | photo_enhancer.py:177-211 | every stage has a position in the fixed order |
| Pipeline.Select | photo_enhancer.py:177-211 | the steps chosen from a list of stages are no more than the stages, and each has a non-zero setting |
| Pipeline.Plan | photo_enhancer.py:177-211 | a profile's plan, its ordered list of (stage, setting) steps, has at most seven steps, each with a non-zero setting |
| Pipeline.SelectSound | photo_enhancer.py:177-211 | every selected step is one of the given stages, with its setting, and that setting is non-zero |
| Pipeline.SelectComplete | photo_enhancer.py:177-211 | every given stage with a non-zero setting is selected |
| Pipeline.SelectOrdered | photo_enhancer.py:177-211 | selection keeps the order of stages given in ascending order |
| Pipeline.PlanSpec | photo_enhancer.py:177-211 | a profile's plan holds exactly the stages whose setting is non-zero, each with its setting, in the order HDR, brightness, contrast, white point, shadows, saturation, warmth |
| Pipeline.StageOrderFacts | photo_enhancer.py:177-211 | the fixed order lists all seven stages, by increasing position |
| Pipeline.PlanSteps | photo_enhancer.py:177-211 | the plan is the seven guarded stages, one after the other |
| Pipeline.VibrantPlan | photo_enhancer.py:49-56 | Vibrant runs HDR 50, brightness 8, contrast 15 and saturation 40; its warmth of 0 is skipped |
| Pipeline.PortraitPlan | photo_enhancer.py:57-64 | Portrait runs HDR 20, brightness 12, shadows 30, saturation 10 and warmth 15 |
| Pipeline.HdrBoostPlan | photo_enhancer.py:31-40 | HDR_Boost runs all seven stages with its settings |
| Pipeline.NaturalEnhancePlan | photo_enhancer.py:41-48 | Natural_Enhance runs HDR 30, brightness 5, contrast 5, saturation 15 and warmth 5 |
| Pipeline.RunStage | photo_enhancer.py:178-211 | each stage keeps a valid image valid, with the same dimensions |
| Pipeline.RunPlan | photo_enhancer.py:177-211 | running a plan keeps a valid image valid, with the same dimensions; an empty plan returns the image itself |
| Pipeline.RunPlanSnoc | photo_enhancer.py:177-211 | running one more step runs it on the result of the earlier steps |
| Pipeline.Enhanced | photo_enhancer.py:177-211 | the enhanced image is valid and has the opened image's dimensions |
| Pipeline.EnhanceImage | photo_enhancer.py:177-211 | the seven guarded reassignments of `img` compute the profile's plan applied to the image |
| Pipeline.Chain | photo_enhancer.py:177-211 | seven stages, each applied or skipped according to its setting, produce the enhanced image |
| Pipeline.Advance | photo_enhancer.py:177-211 | a stage applied when its setting is non-zero, and skipped otherwise, extends the plan run so far |
| Pipeline.PhotoLog | photo_enhancer.py:166-214 | once the profile is known, the image is opened first; it is saved to the output path exactly when it opened, and what is saved is valid and has the opened image's dimensions; each action records the outcome the filesystem gave it |
| Pipeline.PhotoSucceeds | photo_enhancer.py:168-214 | `enhance_photo` returns without raising exactly when the image opens and its enhanced copy saves; tied to the log by `Pipeline.PhotoLogOutcome` |
| Pipeline.PhotoLogOutcome | photo_enhancer.py:168-214 | a photo succeeds exactly when its log ends in a save recorded as successful |
| Pipeline.EnhancePhoto | photo_enhancer.py:160-216 | an unknown profile raises before anything is done; an image that does not open raises the open error; otherwise the enhanced image is saved, and the call succeeds exactly when opening and saving both work |
| Names.Suffix | photo_enhancer.py:279 | pathlib's `suffix` is a tail of the name; when not empty it starts with a dot and is shorter than the name; a name without a dot has none |
| Names.Stem | photo_enhancer.py:279 | pathlib's `stem` is a head of the name, empty only for an empty name, and the whole name when there is no dot |
| Names.OutputName | photo_enhancer.py:279 | the output name is nine characters longer than the name: the stem, then `_enhanced`, then the suffix |
| Names.LastIndexOf | photo_enhancer.py:279 | the position of the last dot, or -1 when there is none |
| Names.StemSuffixSplit | photo_enhancer.py:279 | stem plus suffix is the whole name; a suffix is empty or one dot followed by characters other than dots |
| Names.LastDotOfPattern | photo_enhancer.py:262-264 | a name matched by an extension pattern has its last dot where the pattern starts |
| Names.PatternEndingUnique | photo_enhancer.py:262-264 | a name is matched by at most one extension pattern |
| Names.OutputNameOfLong | photo_enhancer.py:279 | a matched name longer than its extension keeps the extension as suffix, and `_enhanced` goes right before it |
| Names.OutputNameOfBare | photo_enhancer.py:279 | a dotfile named exactly by an extension (such as `.jpg`) has no suffix, so its output name is the name followed by `_enhanced` |
| Names.Upper | photo_enhancer.py:264 | `str.upper()` on ASCII text: the length is kept, no lower-case letter is left, every lower-case letter becomes the same letter in upper case, and every other character is kept |
| Names.UpperOfExtensions | photo_enhancer.py:258-264 | the upper-cased extensions are `.JPG`, `.JPEG`, `.PNG`, `.BMP`, `.TIFF`, `.WEBP` |
| Names.PatternFacts | photo_enhancer.py:258-264 | the twelve patterns are distinct extension patterns |
| Names.ImageNameBySuffix | photo_enhancer.py:261-264 | a name is found exactly when its suffix, or the whole name, is a lower-case or upper-case extension |
| Names.UnmatchedSuffix | photo_enhancer.py:261-264 | a name whose suffix is not one of the twelve patterns is not found |
| Names.OnlyExactCase | photo_enhancer.py:261-264 | `photo.Jpg`, `photo.tif` and `photo.jpg.txt` are not found |
| Names.ExactCaseMatched | photo_enhancer.py:261-264 | `photo.jpg`, `photo.JPEG` and the dotfile `.png` are found |
| Names.OriginalOfLong | photo_enhancer.py:279 | for a name longer than its extension, the original name can be recovered from the output name |
| Names.OriginalOfBare | photo_enhancer.py:279 | for a bare-extension dotfile, the original name can be recovered from the output name |
| Names.OriginalOfOutput | photo_enhancer.py:279 | the output name of every found name determines that name: removing `_enhanced` gives it back |
| Names.OutputNameInjective | photo_enhancer.py:279 | two different found names have different output names |
| Discovery.Glob | photo_enhancer.py:263-264 | the found entries are exactly the listed ones ending in the pattern; none is repeated when the listing has no repeats |
| Discovery.GlobAll | photo_enhancer.py:261-264 | globbing several patterns one after the other finds only listed names |
| Discovery.GlobAllSpec | photo_enhancer.py:261-264 | after globbing several patterns, a name is found exactly when it is listed and ends in one of them; for distinct extension patterns, no name is found twice |
| Discovery.PatternsOfMembers | photo_enhancer.py:262-264 | the patterns globbed are exactly the extensions and their upper cases |
| Discovery.PatternsOf | photo_enhancer.py:262-264 | the loop over the extensions globs two patterns per extension |
| Discovery.UpperPattern | photo_enhancer.py:264 | the upper case of an extension is one of the twelve patterns |
| Discovery.ApartPatterns | photo_enhancer.py:262-264 | two different extensions share no pattern, and no extension equals its own upper case |
| Discovery.PatternsOfDistinct | photo_enhancer.py:262-264 | the extensions in any iteration order yield distinct patterns, all of them among the twelve |
| Discovery.Discover | photo_enhancer.py:261-264 | discovery finds only listed names |
| Discovery.DiscoverSpec | photo_enhancer.py:257-264 | for any iteration order of the extension set, a name is found exactly when it is listed and ends in a lower-case or upper-case extension; a listing without repeats gives no repeats |
| Batch.DiscoverImages | photo_enhancer.py:257-264 | the discovery loop finds exactly the listed image names, none twice |
| Batch.OutputDir | photo_enhancer.py:253-255 | without a subfolder the output folder itself is used; with one, the output folder, one `/` and then the profile key as its last entry |
| Batch.Source | photo_enhancer.py:263-264 | the path `glob` yields for a found name, passed to `enhance_photo` at line 282; its shape is in `Batch.SourcePath` |
| Batch.SourcePath | photo_enhancer.py:263-264 | a found file's path is the input folder, one `/` and the found name |
| Batch.Target | photo_enhancer.py:279 | the output file of a found name; its shape is in `Batch.TargetPath` |
| Batch.TargetPath | photo_enhancer.py:279 | a found file's output path is the output directory, one `/` and `OutputName` of the name, ten characters longer than the two together |
| Batch.EnhanceFolder | photo_enhancer.py:232-292 | an unknown profile and a missing input folder fail before any action; a failing `mkdir` fails after it is attempted; otherwise every found file is processed in turn and the report holds the output folder, the found files and the number that succeeded |
| Batch.ProcessFiles | photo_enhancer.py:275-287 | the loop's actions are the per-file actions in order, and its count is the number of files that succeeded |
| Batch.BatchStep | photo_enhancer.py:277-287 | one more file appends its actions and adds its success to the count |
| Batch.BatchLog | photo_enhancer.py:276-287 | processing the found files in turn takes one or two actions per file |
| Batch.CountSucceeded | photo_enhancer.py:276-287 | `success_count`: no more files succeed than were found |
| Batch.CountAll | photo_enhancer.py:276-291 | the count equals the number of found files exactly when every file succeeds |
| Batch.EveryFileAttempted | photo_enhancer.py:277-287 | every found file is opened; every file that opens gets its enhanced image saved to its own target, whatever happens to the other files; the log records each outcome |
| Batch.PhotoLogRecorded | photo_enhancer.py:282 | the actions for one file record the outcomes the filesystem gave them |
| Batch.LogRecordsOutcomes | photo_enhancer.py:277-287 | every open and save in the batch's log records the outcome the filesystem gave it |
| Batch.FailuresInLog | photo_enhancer.py:277-287 | a found file's open is logged as failed exactly when its image does not open, and the file succeeds exactly when its image opened and the save of its enhanced image is logged as successful |
| Batch.PhotoLogTouches | photo_enhancer.py:278-283 | the actions for one file only open that file and save to its target |
| Batch.OnlyFoundFilesTouched | photo_enhancer.py:277-287 | the batch opens only found files and saves only their targets |
| Batch.TargetsDistinct | photo_enhancer.py:279 | found files have pairwise different targets, so no enhanced copy overwrites another from the same batch |
| Cli.Dispatch | photo_enhancer.py:325-362 | a profile outside the catalog gives exit status 2; `--list-profiles` comes next; then clashing or missing input, a missing profile and a missing output give status 1; otherwise folder mode when `-f` is given and single-photo mode when `-i` is given, always with a known profile |
| Cli.Run | photo_enhancer.py:340-384 | the exit status is 0, 1 or 2; it is 2 exactly for a bad profile choice and 0 exactly when the selected command finishes without raising (failed images inside a folder do not count); listing and usage errors perform no file actions |

## Left out

- The imaging library's internals: `ImageEnhance` Brightness, Contrast and Color, `ImageFilter.UnsharpMask` and `Image.blend` are opaque `Toolkit` operations. The model assumes only that they keep images valid and keep their dimensions. For example, it does not prove that brightness with factor 1 is the identity.
- Floating point: numpy's float32 arithmetic and Python's float64 are modelled as exact reals. The clip-then-`astype(uint8)` conversion is modelled as taking the floor of the clipped value.
- Adjustments.UnsharpPercent: states the exact-real value floor(3v/2). Under float64, `int(150 * (v / 100))` is one lower where the product lands just below an integer; in 0..100 that happens only for v = 82, which gives 122 rather than 123. No catalog profile uses that setting.
- Image decoding: `Image.open` with its lazy loading, and the conversion to RGB, are folded into the `open` parameter of the filesystem, which returns an RGB image or nothing. The `quality=95` argument of `save` is not modelled; the file format is chosen by the codec.
- Filesystem state: `Files.FileSystem` is a snapshot taken before the run. The run's own `mkdir` and saves do not change what a later existence check, listing or open returns. In the source they can. When the output folder is the input folder, a found file may be read after an earlier file's save has overwritten it. For example, take `in/` listing `a.jpg` and then `a_enhanced.jpg`, with no subfolder. Saving `a.jpg`'s copy overwrites `in/a_enhanced.jpg`, so the source then enhances that copy again and saves it as `a_enhanced_enhanced.jpg`. The model, and what `Batch.EveryFileAttempted` and `Batch.FailuresInLog` say about each file's enhanced image, uses the file's content from before the run.
- Paths: `Path / name` is a string join with `/`. pathlib's normalisation (for example of a trailing separator in the output folder) is not modelled.
- Ordering of results: the iteration order of the extension set and the order in which the filesystem lists a directory are parameters. The model proves what is found for every such order, not one particular order.
- Windows: there pathlib's glob matches case-insensitively, so `glob('*.jpg')` and `glob('*.JPG')` both return the same file, which is then processed twice. The model follows the POSIX behaviour, which matches case-sensitively whatever the filesystem.
- Output: console output (progress lines, `verbose`/`--quiet`, the per-file error message and the final summary) and `list_profiles`'s table are not modelled. `--list-profiles` is modelled only as exit status 0 with no file actions.
- Names.Upper: models `str.upper()` on ASCII only. Python also upper-cases other letters, and can change the length (`'ß'` becomes `'SS'`). The six extensions are ASCII, so `ext.upper()` is exact for them (`Names.UpperOfExtensions`).
- Command-line parsing beyond the decision `main` makes: argparse's help text, and its handling of unknown or malformed options (also exit status 2), are left out. The options are taken as already parsed.
- Nominal ranges: the nominal setting ranges (0..100 or -100..100) are not enforced by the source, and the model accepts any integer. Contracts that depend on a range state it as a hypothesis.
- `photo_enhancer_gui.py`, the graphical front end, is not part of this model.
