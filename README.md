# Allsky plug-ins: sky quality, WeatherFlow Tempest, temperature sensor

A Dafny model of three Allsky camera plug-ins and of the Python built-ins they
rely on.

- `allsky_sqm.py`: the sky-quality estimator `sqm`. It masks the gray image
  with an optional mask of the same shape. It then resolves a region of
  interest: either an explicit `"x1,y1,x2,y2"` setting divided by the binning
  factor, or a centred rectangle covering `fallback` percent of the image. It
  crops that region with Python slice rules and reports the mean gray level.
- `allsky_weatherflowtempest/allsky_weatherflowtempest.py`: the WeatherFlow
  Tempest plug-in. It checks its settings, fetches one station's
  observations, classifies the decoded reply and copies nine observation
  fields into the module-global `extraData` dictionary (each with an expiry).
  It then saves the dictionary and records the run.
- `allsky_tempsensor/allsky_tempsensor.py`: the temperature and humidity
  sensor plug-in. It reads a tab-separated data file and records the run. It
  is meant to pick the internal temperature and humidity out of the file's
  `data` and `progress` lines and save them as extra data. As written it loops
  over the file's characters rather than its lines, so it saves an empty
  dictionary. The model covers both: the loop over lines, and the loop as
  written.

Files:

- `wrappers.dfy`: `Option`, Python's `None`-or-value.
- `py.dfy`: the Python semantics the plug-ins use. This covers `str.strip`,
  `str.split` and `str.join`, `int()` on text and `str()` of an integer,
  truncation toward zero, slice bounds, and list indexing with negative
  indices.
- `sqm.dfy`: images are `array2<bv8>` for the methods and an `Image` value
  for the specification functions. `Sqm` is proved equal to the
  specification `SkyQuality`/`SqmEvents`.
- `weatherflow.dfy`: `TempestModule` is a class whose `extraData` field the
  methods update in place, as the module global is. `Run` is proved equal to
  the specification function `Tempest`.
- `tempsensor.dfy`: the reading loop is a method. `Run` is proved equal to
  the specification function `TempSensor`.

The model keeps these behaviours of the code as written:

- **The sqm mismatch log.** The "dimensions do not match" log is the
  `else` of `if debug` (allsky_sqm.py:101-104). So it is written when the
  shapes *match* and debug is off, and never when they differ.
- **The tempest missing-`obs` branch.** It concatenates a
  dictionary to a string (allsky_weatherflowtempest.py:200). That raises
  TypeError, which the outer handler reports as an error.
- **The tempest KeyError path.** A KeyError in the body returns `None` without
  calling `setLastRun` (line 218).
- **The tempsensor reading loop.** The loop iterates over `file.read()`, the
  text itself (allsky_tempsensor.py:81). So it visits single characters and
  never stores a reading: the saved dictionary is always empty.
- **The tempsensor return value.** `setLastRun` is called and the "Last run"
  text returned on every path, whether or not the module was due
  (lines 97-102).
- **An ROI with extra fields.** `"10,10,30,30,extra"` does not fall back:
  fields after the fourth are never read.
- **A fallback of 50 percent.** It covers the whole image.

## Model

| member | source | states |
|---|---|---|
| Py.Strip | allsky_tempsensor/allsky_tempsensor.py:82 | the result of `strip()` neither starts nor ends with whitespace |
| Py.IsSpace | allsky_tempsensor/allsky_tempsensor.py:82 | the ASCII whitespace `str.isspace()` accepts, as `strip()` uses it |
| Py.TrimLeft | allsky_tempsensor/allsky_tempsensor.py:82 | the leading-whitespace half of `strip()`: the result is a suffix of the text, everything before it is whitespace, and it does not start with whitespace |
| Py.TrimRight | allsky_tempsensor/allsky_tempsensor.py:82 | the trailing-whitespace half of `strip()`: the result is a prefix of the text, everything after it is whitespace, and it does not end with whitespace |
| Py.StripSpan | allsky_tempsensor/allsky_tempsensor.py:82 | `strip()` removes the leading and trailing whitespace and nothing else: the result is a contiguous piece of the text, and everything before and after it is whitespace |
| Py.StripChars | allsky_tempsensor/allsky_tempsensor.py:82 | every character of the text is whitespace or a character of its strip |
| Py.StripStripped | allsky_tempsensor/allsky_tempsensor.py:82 | a text with no whitespace at either end is left unchanged by `strip()` |
| Py.StripIdempotent | allsky_tempsensor/allsky_tempsensor.py:82 | stripping twice is stripping once |
| Py.Split | allsky_sqm.py:108 | `split(sep)` gives at least one piece, and no piece contains the separator |
| Py.JoinSplit | allsky_sqm.py:108 | joining the pieces of `split(sep)` with `sep` gives the original text back |
| Py.Join | allsky_tempsensor/allsky_tempsensor.py:82 | `sep.join(fields)`; its partners are `JoinSplit` and `SplitJoin` (split and join undo each other), `JoinStart` and `JoinLast` |
| Py.SplitJoin | allsky_tempsensor/allsky_tempsensor.py:82 | splitting a join of separator-free fields gives exactly those fields back |
| Py.SplitWithoutSep | allsky_sqm.py:108 | a text without the separator splits into itself alone |
| Py.SplitAfterSep | allsky_sqm.py:108 | splitting `a + sep + b` gives `a` followed by the pieces of `b` |
| Py.SplitFirstShort | allsky_tempsensor/allsky_tempsensor.py:82 | the first piece of a split is no longer than the text |
| Py.JoinStart | allsky_tempsensor/allsky_tempsensor.py:82 | a join starts with its first field |
| Py.JoinLast | allsky_tempsensor/allsky_tempsensor.py:82 | a join ends with its last field |
| Py.ParseInt | allsky_sqm.py:109-112 | `int()` rejects blank text, and accepts only whitespace, digits, signs and underscores |
| Py.ParseShow | allsky_sqm.py:109-112 | `int(str(n)) == n` for every integer (without CPython's 4300-digit limit, see Left out) |
| Py.ParseIntRejects | allsky_sqm.py:109-112 | a text holding any other character raises ValueError |
| Py.ShowNatDigits | allsky_sqm.py:109-112 | `str(n)` of a natural is a digit run whose value is `n` |
| Py.Show | allsky_sqm.py:109-112 | `str(n)` of an integer; `ParseShow` proves `int()` reads it back as `n` |
| Py.TruncDivBounds | allsky_sqm.py:109-112 | `int(a / b)` truncates toward zero: the product lies between 0 and `a`, and the remainder is smaller than the divisor |
| Py.TruncDiv | allsky_sqm.py:109-112 | `int(a / b)` as the exact quotient truncated toward zero; `TruncDivBounds` proves it truncates toward zero and `TruncDivByOne` that dividing by 1 changes nothing |
| Py.TruncDivByOne | allsky_sqm.py:109-112 | dividing by 1 and truncating changes nothing |
| Py.SliceIndex | allsky_sqm.py:124 | a slice bound always lands within the sequence |
| Py.SliceRange | allsky_sqm.py:124 | a slice picks a span `lo <= hi` within the sequence |
| Py.SlicePicks | allsky_sqm.py:124 | the slice picks exactly the items between the bounds, with negative bounds counted from the end |
| Py.SliceWithin | allsky_sqm.py:124 | bounds already inside the sequence are taken as they are |
| Py.ListIndex | allsky_weatherflowtempest/allsky_weatherflowtempest.py:209 | `xs[i]` succeeds exactly for `-len <= i < len`; a negative index counts from the end |
| AllskySqm.ImageOf | allsky_sqm.py:93-96 | the image value of an array has its shape and its pixels |
| AllskySqm.SameImage | allsky_sqm.py:93-96 | two valid images of the same shape and pixels are equal |
| AllskySqm.BitwiseAnd | allsky_sqm.py:100 | `cv2.bitwise_and` keeps the shape, and each pixel is the `&` of the two source pixels |
| AllskySqm.ApplyMask | allsky_sqm.py:98-100 | the mask is applied exactly when one was loaded and its shape matches; otherwise the image is unchanged |
| AllskySqm.FullMaskKeepsImage | allsky_sqm.py:98-100 | an all-255 mask leaves the image unchanged |
| AllskySqm.EmptyMaskBlacksOut | allsky_sqm.py:98-100 | an all-0 mask makes every pixel 0 |
| AllskySqm.MaskNeverBrightens | allsky_sqm.py:98-100 | masking never makes a pixel brighter |
| AllskySqm.Area | allsky_sqm.py:124 | a crop with non-empty rows and columns has a positive pixel count |
| AllskySqm.RowSumAtMost | allsky_sqm.py:129 | a row of pixels sums to at most 255 per pixel |
| AllskySqm.RowSumFlat | allsky_sqm.py:129 | a row of level `k` sums to `k` per pixel |
| AllskySqm.RowSum | allsky_sqm.py:129 | the pixels of one row between two columns added up; `RowSumAtMost` and `RowSumFlat` bound it |
| AllskySqm.RectSumAtMost | allsky_sqm.py:129 | a crop sums to at most 255 times its area |
| AllskySqm.RectSumFlat | allsky_sqm.py:129 | a flat crop sums to its level times its area |
| AllskySqm.MeanInRange | allsky_sqm.py:129 | the mean of a non-empty crop lies in [0, 255] |
| AllskySqm.MeanOfFlatCrop | allsky_sqm.py:129 | a crop of one gray level has that level as its mean |
| AllskySqm.RectSum | allsky_sqm.py:129 | the crop's pixels added up; `RectSumAtMost` and `RectSumFlat` bound it, and `Mean` computes it with a loop |
| AllskySqm.CropMean | allsky_sqm.py:129 | `cv2.mean(croppedImage)[0]` as the sum over the pixel count; `MeanInRange` and `MeanOfFlatCrop` are its properties and `Mean` is proved to return it |
| AllskySqm.ParseRoi | allsky_sqm.py:107-112 | the ROI setting gives a rectangle only with at least four comma fields and a non-zero binning factor; fewer fields or a zero factor always fall back |
| AllskySqm.ParseRoiRejectsField | allsky_sqm.py:107-112 | a single field among the first four that `int()` refuses makes the setting fall back |
| AllskySqm.ParseRoiSucceeds | allsky_sqm.py:107-112 | the setting gives a rectangle exactly when it has four comma fields, the binning factor is not zero and `int()` accepts each of the first four fields |
| AllskySqm.ShowHasNoComma | allsky_sqm.py:108 | a written integer contains no comma |
| AllskySqm.ParseRoiOfText | allsky_sqm.py:107-112 | four written coordinates, followed by any comma-free fields, read back as those coordinates divided by the binning factor |
| AllskySqm.ParseRoiOfFields | allsky_sqm.py:107-112 | four comma fields that `int()` reads as the rectangle's coordinates give the truncated quotients |
| AllskySqm.ParseRoiText | allsky_sqm.py:107-112 | round trip: with binning 1, a rectangle's own "x1,y1,x2,y2" text resolves to that rectangle |
| AllskySqm.ParseRoiUnbinned | allsky_sqm.py:79-81 | with binning 1 a parsed rectangle's coordinates are the first four fields' values, unchanged |
| AllskySqm.ParseRoiEmpty | allsky_sqm.py:113-117 | an empty setting always falls back |
| AllskySqm.ParseRoiBinnedExample | allsky_sqm.py:107-112 | "100,100,200,200" with binning 2 gives (50,50,100,100) |
| AllskySqm.ParseRoiExtraFieldExample | allsky_sqm.py:107-112 | "10,10,30,30,extra" gives (10,10,30,30) without falling back |
| AllskySqm.FallbackSpanCentred | allsky_sqm.py:118-122 | for 1 to 50 percent, a dimension's fallback span lies inside it and is centred to within one pixel |
| AllskySqm.FallbackCentred | allsky_sqm.py:118-122 | for 1 to 50 percent, the fallback rectangle lies inside the image and is centred to within one pixel on both axes |
| AllskySqm.FallbackPastHalf | allsky_sqm.py:118-124 | past 50 percent, on a dimension `d` with `d * (f - 50) >= 100`, the span starts before the image and ends after it; the slice then keeps only the columns from `d + lo` to the far edge |
| AllskySqm.FallbackExamples | allsky_sqm.py:118-124 | on a 100x100 image: 25% gives (25,25,75,75), 50% the whole image, 75% (-25,-25,125,125), which slices to the last 25 columns |
| AllskySqm.FallbackRect | allsky_sqm.py:118-122 | the fallback rectangle in exact arithmetic; `FallbackCentred`, `FallbackPastHalf` and `FallbackExamples` state what it covers |
| AllskySqm.Binning | allsky_sqm.py:79-81 | the binning factor, 1 when AS_BIN is not set; `ParseRoiUnbinned` states what a factor of 1 does |
| AllskySqm.MeanOver | allsky_sqm.py:124-129 | the crop reports its mean in [0, 255], or an empty crop exactly when the slice is empty in either dimension |
| AllskySqm.Measure | allsky_sqm.py:107-129 | a measured mean lies in [0, 255]; ZeroDivisionError happens exactly when the setting did not parse and the fallback is 0 |
| AllskySqm.SkyQuality | allsky_sqm.py:71-135 | the value `sqm` computes lies in [0, 255]; it raises ZeroDivisionError exactly when the ROI does not parse and the fallback is 0 |
| AllskySqm.FallbackIsExplicitRect | allsky_sqm.py:113-122 | an unparsable ROI measures exactly what its fallback rectangle, given explicitly, measures |
| AllskySqm.FullMaskNoOp | allsky_sqm.py:98-100 | an all-255 mask does not change the measurement |
| AllskySqm.MismatchedMaskIgnored | allsky_sqm.py:99 | a mask whose shape differs from the image's is ignored |
| AllskySqm.FlatImageMean | allsky_sqm.py:124-129 | any crop of a flat image measures its level |
| AllskySqm.EmptyMaskGivesZero | allsky_sqm.py:98-129 | an all-0 mask of the right shape measures 0 |
| AllskySqm.FlatImageSkyQuality | allsky_sqm.py:71-135 | an image of one gray level measures that level, whatever the region |
| AllskySqm.FlatImageScenario | allsky_sqm.py:71-135 | a 100x100 image of level 50, no mask, no ROI, fallback 50 and binning 1 measures 50 |
| AllskySqm.CropEvents | allsky_sqm.py:126-130 | the crop stage emits only debug images and the mean's log line; that line comes last exactly when the stage is reached (the fallback did not divide by zero), carrying the mean for a measured sky and no value for an empty crop |
| AllskySqm.MaskMismatchLogged | allsky_sqm.py:98-104 | the mismatch message is logged exactly when a mask was loaded, its shape matches and debug is off |
| AllskySqm.RoiFallbackLogged | allsky_sqm.py:113-117 | on the fallback path an error is logged for a non-empty setting and an info line for an empty one; otherwise neither |
| AllskySqm.NotInTail | allsky_sqm.py:126-130 | none of the other messages appears among the crop stage's events |
| AllskySqm.NoDebugOnlyLogs | allsky_sqm.py:90-91 | without debug only log lines reach the host |
| AllskySqm.MeanLoggedLast | allsky_sqm.py:129-130 | the mean's log line is the last event: with the mean for a measured sky, without a value for an empty crop; no mean is logged when the fallback divided by zero |
| AllskySqm.MaskOf | allsky_sqm.py:86-89 | a loaded mask array becomes its image value; no mask stays none |
| AllskySqm.MaskEvents | allsky_sqm.py:87-104 | the mask stage's debug images and mismatch log; `MaskMismatchLogged` states when the log appears and `MaskImage` is proved to emit it |
| AllskySqm.RoiEvents | allsky_sqm.py:113-117 | the fallback path's log line; `RoiFallbackLogged` states which one appears |
| AllskySqm.SqmEvents | allsky_sqm.py:71-135 | everything `sqm` hands to the host, in order, the empty-crop mean log included; `NoDebugOnlyLogs`, `MaskMismatchLogged`, `RoiFallbackLogged` and `MeanLoggedLast` are its properties and `Sqm` is proved to emit it |
| AllskySqm.BitwiseAndImages | allsky_sqm.py:100 | the pixel loop builds a fresh array equal to `BitwiseAnd` of the two sources |
| AllskySqm.Mean | allsky_sqm.py:129 | the summing loop returns the crop's exact mean |
| AllskySqm.MaskImage | allsky_sqm.py:86-104 | the gray image after masking is `ApplyMask` of the image and mask, and the events are `MaskEvents` |
| AllskySqm.CropAndMeasure | allsky_sqm.py:124-130 | the outcome is `MeanOver` of the rectangle and the events are `CropEvents` |
| AllskySqm.Sqm | allsky_sqm.py:71-135 | the whole plug-in on arrays returns `SkyQuality` and emits `SqmEvents`, so every lemma above applies to it |
| AllskyWeatherFlowTempest.OccursShorter | allsky_weatherflowtempest/allsky_weatherflowtempest.py:145 | a substring found by `in` is no longer than the text |
| AllskyWeatherFlowTempest.Occurs | allsky_weatherflowtempest/allsky_weatherflowtempest.py:145 | `key in text` on a string; `OccursAt` proves it holds exactly when the key sits at some position |
| AllskyWeatherFlowTempest.OccursAt | allsky_weatherflowtempest/allsky_weatherflowtempest.py:145 | `key in text` holds exactly when the key sits at some position of the text |
| AllskyWeatherFlowTempest.Lookup | allsky_weatherflowtempest/allsky_weatherflowtempest.py:143-148 | `key in data` then `data[key]`: a record answers with the field or nothing, a string or list raises when the key is in it, anything else raises; `GetValueOfRecord` and `GetValueOfChar` are its properties |
| AllskyWeatherFlowTempest.GetValue | allsky_weatherflowtempest/allsky_weatherflowtempest.py:143-148 | `getValue` gives the looked-up value, `None` for an absent key, and raises where the lookup does; see `GetValueOfRecord` |
| AllskyWeatherFlowTempest.GetValueOfRecord | allsky_weatherflowtempest/allsky_weatherflowtempest.py:143-148 | `getValue` on a record gives the field, or `None` when it is absent |
| AllskyWeatherFlowTempest.GetValueOfChar | allsky_weatherflowtempest/allsky_weatherflowtempest.py:143-148 | on a one-character string `getValue` finds no field name and gives `None` |
| AllskyWeatherFlowTempest.ScaleOf | allsky_weatherflowtempest/allsky_weatherflowtempest.py:155-163 | a scale is chosen exactly for "imperial", "metric" and "standard" |
| AllskyWeatherFlowTempest.FloatOf | allsky_weatherflowtempest/allsky_weatherflowtempest.py:153 | `float(v)` of a decoded value: numbers, booleans as 1 and 0, strings through the parser; `None`, lists and dictionaries raise, as `NullTemperatureRaises` uses |
| AllskyWeatherFlowTempest.GetTempValue | allsky_weatherflowtempest/allsky_weatherflowtempest.py:150-164 | a temperature that does not raise is `None` or a number |
| AllskyWeatherFlowTempest.GetTempValueNone | allsky_weatherflowtempest/allsky_weatherflowtempest.py:150-164 | on a record: `None` exactly when the key is absent, or when the value converts but the units name no scale; raises when the value does not convert; otherwise the converted value |
| AllskyWeatherFlowTempest.NullTemperatureRaises | allsky_weatherflowtempest/allsky_weatherflowtempest.py:152-153 | a JSON null temperature raises, where a missing one gives `None` |
| AllskyWeatherFlowTempest.Inserted | allsky_weatherflowtempest/allsky_weatherflowtempest.py:133-140 | a `None` value leaves the dictionary unchanged; any other value is stored under its key with its expiry; every other key is untouched |
| AllskyWeatherFlowTempest.InsertedOverwrites | allsky_weatherflowtempest/allsky_weatherflowtempest.py:133-140 | a later store under the same key overwrites the earlier one |
| AllskyWeatherFlowTempest.NineTargets | allsky_weatherflowtempest/allsky_weatherflowtempest.py:95-123 | the nine lines write exactly the nine WF keys |
| AllskyWeatherFlowTempest.DistinctTargets | allsky_weatherflowtempest/allsky_weatherflowtempest.py:95-123 | no two lines write the same key |
| AllskyWeatherFlowTempest.AppliedFrame | allsky_weatherflowtempest/allsky_weatherflowtempest.py:91-140 | the stores remove no key, touch no key outside their targets, and stamp every changed entry with the run's expiry |
| AllskyWeatherFlowTempest.CompletedIffNoneRaised | allsky_weatherflowtempest/allsky_weatherflowtempest.py:91-123 | `processResult` completes exactly when no line raises |
| AllskyWeatherFlowTempest.AppliedField | allsky_weatherflowtempest/allsky_weatherflowtempest.py:91-140 | after a completed run each key holds its line's value with the run's expiry, or keeps its earlier entry when that value was `None` |
| AllskyWeatherFlowTempest.TargetFree | allsky_weatherflowtempest/allsky_weatherflowtempest.py:95-123 | a key no line names is not among the targets |
| AllskyWeatherFlowTempest.ApplyFields | allsky_weatherflowtempest/allsky_weatherflowtempest.py:91-123 | the stores of the table one after the other, stopping at the first line that raises; `AppliedFrame`, `CompletedIffNoneRaised`, `AppliedField` and `KeptEntry` are its properties and `ProcessResult` is proved to compute it |
| AllskyWeatherFlowTempest.FieldValue | allsky_weatherflowtempest/allsky_weatherflowtempest.py:95-123 | the value one line stores: `getTempValue` for a temperature field, `getValue` otherwise; `KeptEntry` and `AppliedField` are stated over it |
| AllskyWeatherFlowTempest.KeptEntry | allsky_weatherflowtempest/allsky_weatherflowtempest.py:91-140 | whether or not a later line raises, an entry survives when every line naming its key stores `None` or raises |
| AllskyWeatherFlowTempest.StaleEntryKept | allsky_weatherflowtempest/allsky_weatherflowtempest.py:91-148 | a field missing from the observation leaves the entry from an earlier run in place, whether or not a later line raises |
| AllskyWeatherFlowTempest.PlainFieldStored | allsky_weatherflowtempest/allsky_weatherflowtempest.py:95-123 | after a run in which no line raised (in particular, every temperature line converted), a plain field present in the observation is stored as it is, with the run's expiry |
| AllskyWeatherFlowTempest.SelectStation | allsky_weatherflowtempest/allsky_weatherflowtempest.py:209 | indexing `obs` selects a record, raises, or hits a KeyError on a dictionary |
| AllskyWeatherFlowTempest.StatusCheckedFirst | allsky_weatherflowtempest/allsky_weatherflowtempest.py:195-197 | a non-zero status code ends the block before `obs` is read, and reports the status message when it is a string |
| AllskyWeatherFlowTempest.MissingObsRaises | allsky_weatherflowtempest/allsky_weatherflowtempest.py:199-201 | a zero status without `obs` raises instead of logging its message |
| AllskyWeatherFlowTempest.StationChosen | allsky_weatherflowtempest/allsky_weatherflowtempest.py:203-209 | given a list of stations: too few reports the station error; 1..len picks station `n`; 0 picks the last one, or raises on an empty list |
| AllskyWeatherFlowTempest.StationInBounds | allsky_weatherflowtempest/allsky_weatherflowtempest.py:209 | station numbers 1..len index the list without wrap-around |
| AllskyWeatherFlowTempest.IsZero | allsky_weatherflowtempest/allsky_weatherflowtempest.py:195 | `status_code != 0` fails exactly for the values equal to 0 (`0`, `0.0`, `False`); see `StatusCheckedFirst` |
| AllskyWeatherFlowTempest.Length | allsky_weatherflowtempest/allsky_weatherflowtempest.py:203 | `len` of a decoded value, raising TypeError for the kinds without a length; see `StationChosen` |
| AllskyWeatherFlowTempest.Classify | allsky_weatherflowtempest/allsky_weatherflowtempest.py:194-209 | the verdict on a decoded body: status error, missing `obs`, too few stations, a station record, or a KeyError; `StatusCheckedFirst`, `MissingObsRaises` and `StationChosen` are its properties |
| AllskyWeatherFlowTempest.AppliedGrows | allsky_weatherflowtempest/allsky_weatherflowtempest.py:91-123 | `processResult` only lets `extraData` grow |
| AllskyWeatherFlowTempest.Processed | allsky_weatherflowtempest/allsky_weatherflowtempest.py:211-214 | after `processResult`: save and report "written", or report its exception; see `ProcessedSound` |
| AllskyWeatherFlowTempest.Respond | allsky_weatherflowtempest/allsky_weatherflowtempest.py:194-225 | the reply for a classified body; see `RespondSound`, and `HandleBody` is proved to compute it |
| AllskyWeatherFlowTempest.Received | allsky_weatherflowtempest/allsky_weatherflowtempest.py:189-225 | the reply for what the request gave; see `ReceivedSound`, and `Acquire` is proved to compute it |
| AllskyWeatherFlowTempest.Guarded | allsky_weatherflowtempest/allsky_weatherflowtempest.py:182-234 | the three configuration guards, then the request; see `GuardedSound` and `GuardOrder` |
| AllskyWeatherFlowTempest.Tempest | allsky_weatherflowtempest/allsky_weatherflowtempest.py:167-241 | the whole call; `LastRunRecorded`, `NoneOnlyOnKeyError`, `SavedIffWritten` and `ExtraOnlyGrows` are its properties and `Run` is proved to compute it |
| AllskyWeatherFlowTempest.ProcessedSound | allsky_weatherflowtempest/allsky_weatherflowtempest.py:211-214 | after processing, a save happens exactly when the reply is "written", and it saves the final dictionary |
| AllskyWeatherFlowTempest.RespondSound | allsky_weatherflowtempest/allsky_weatherflowtempest.py:194-225 | every classified body keeps those facts, and takes the bare `return` exactly on a KeyError |
| AllskyWeatherFlowTempest.ReceivedSound | allsky_weatherflowtempest/allsky_weatherflowtempest.py:189-225 | after the request those facts hold, and `None` only for a 200 reply whose body hits a KeyError |
| AllskyWeatherFlowTempest.GuardedSound | allsky_weatherflowtempest/allsky_weatherflowtempest.py:182-234 | the guarded request keeps those facts on every path |
| AllskyWeatherFlowTempest.PrependPrint | allsky_weatherflowtempest/allsky_weatherflowtempest.py:188 | printing the URL first changes none of them |
| AllskyWeatherFlowTempest.RequestUrl | allsky_weatherflowtempest/allsky_weatherflowtempest.py:187-188 | the observation URL for the station and token, printed before the request; see `PrependPrint` |
| AllskyWeatherFlowTempest.NotDue | allsky_weatherflowtempest/allsky_weatherflowtempest.py:237-239 | a module that is not due only logs and returns when it last ran |
| AllskyWeatherFlowTempest.LastRunRecorded | allsky_weatherflowtempest/allsky_weatherflowtempest.py:180-241 | `setLastRun` is called exactly when the module was due and did not take the bare `return`; it is then the last event |
| AllskyWeatherFlowTempest.NoneOnlyOnKeyError | allsky_weatherflowtempest/allsky_weatherflowtempest.py:182-218 | a due call returns `None` exactly when the guards pass, the reply is 200, the body decodes, and classifying it hits a KeyError |
| AllskyWeatherFlowTempest.GuardOrder | allsky_weatherflowtempest/allsky_weatherflowtempest.py:182-236 | file name, then API key, then ALLSKY_HOME are checked in that order; the first that fails gives its one error log, then `setLastRun` |
| AllskyWeatherFlowTempest.HttpErrorNotProcessed | allsky_weatherflowtempest/allsky_weatherflowtempest.py:186-236 | a status other than 200 prints the URL, logs the code, records the run, and changes nothing |
| AllskyWeatherFlowTempest.SavedIffWritten | allsky_weatherflowtempest/allsky_weatherflowtempest.py:167-241 | the dictionary is saved exactly when the call reports it written, and what is saved is the final dictionary |
| AllskyWeatherFlowTempest.ExtraOnlyGrows | allsky_weatherflowtempest/allsky_weatherflowtempest.py:167-241 | on every path `extraData` loses no key, changes only the nine WF keys, and every changed entry carries `expire` |
| AllskyWeatherFlowTempest.Step | allsky_weatherflowtempest/allsky_weatherflowtempest.py:95-123 | each line either raises and stops the run, or stores and goes on with the next line |
| AllskyWeatherFlowTempest.TempestModule.constructor | allsky_weatherflowtempest/allsky_weatherflowtempest.py:89 | `extraData` starts empty |
| AllskyWeatherFlowTempest.TempestModule.SetExtraValue | allsky_weatherflowtempest/allsky_weatherflowtempest.py:133-140 | the new dictionary is `Inserted` of the old one: a `None` value leaves it unchanged, any other value is stored under its key |
| AllskyWeatherFlowTempest.TempestModule.ProcessResult | allsky_weatherflowtempest/allsky_weatherflowtempest.py:91-123 | the nine stores in order leave `extraData` as `ApplyFields` of the old one; the result says whether every line ran |
| AllskyWeatherFlowTempest.TempestModule.StoreLine | allsky_weatherflowtempest/allsky_weatherflowtempest.py:95-123 | one line stores exactly when its lookup does not raise, and stores nothing when it does |
| AllskyWeatherFlowTempest.TempestModule.Acquire | allsky_weatherflowtempest/allsky_weatherflowtempest.py:189-225 | the result, the events and the new `extraData` are `Received` of the reply and the old state |
| AllskyWeatherFlowTempest.TempestModule.HandleBody | allsky_weatherflowtempest/allsky_weatherflowtempest.py:194-225 | the same for a classified body: `Respond` of the verdict |
| AllskyWeatherFlowTempest.TempestModule.Run | allsky_weatherflowtempest/allsky_weatherflowtempest.py:167-241 | the whole call matches `Tempest` of the old `extraData`, so every lemma about `Tempest` holds of it |
| AllskyTempSensor.FieldsOf | allsky_tempsensor/allsky_tempsensor.py:82 | a stripped and split item has at least one field |
| AllskyTempSensor.Update | allsky_tempsensor/allsky_tempsensor.py:83-88 | an item tagged neither `data` nor `progress` leaves the data unchanged |
| AllskyTempSensor.UpdateStores | allsky_tempsensor/allsky_tempsensor.py:83-88 | a pass that does not raise leaves the data unchanged, or stores the fourth field of a `data` item under INTERNALTEMPERATURE or of a `progress` item under INTERNALHUMIDITY |
| AllskyTempSensor.ClassifyLine | allsky_tempsensor/allsky_tempsensor.py:82-88 | one pass of the loop body on an item; `TemperatureItem`, `SingleCharUnchanged` and `OtherLinesIgnored` are its properties |
| AllskyTempSensor.Scan | allsky_tempsensor/allsky_tempsensor.py:81-88 | the loop over the items, ended by the first that raises; `ScanAppend`, `LaterLineOverwrites`, `LaterHumidityLineOverwrites` and `ScanKeys` are its properties and `ReadItems` is proved to compute it |
| AllskyTempSensor.Chars | allsky_tempsensor/allsky_tempsensor.py:81 | iterating over the read text visits each character as a one-character string |
| AllskyTempSensor.FieldsOfJoin | allsky_tempsensor/allsky_tempsensor.py:82 | a tab-joined line with no whitespace at its ends splits back into exactly its fields |
| AllskyTempSensor.TemperatureLine | allsky_tempsensor/allsky_tempsensor.py:82-85 | a `data` line naming "Internal Temperature" stores its fourth field under INTERNALTEMPERATURE |
| AllskyTempSensor.HumidityLine | allsky_tempsensor/allsky_tempsensor.py:82-88 | a `progress` line naming "Internal Humidity" stores its fourth field under INTERNALHUMIDITY |
| AllskyTempSensor.ShortLineRaises | allsky_tempsensor/allsky_tempsensor.py:83-86 | a `data` or `progress` line with fewer than three fields raises IndexError |
| AllskyTempSensor.MissingValueRaises | allsky_tempsensor/allsky_tempsensor.py:84-88 | a line naming the reading but lacking the fourth field raises IndexError |
| AllskyTempSensor.ShortTagUnchanged | allsky_tempsensor/allsky_tempsensor.py:83-86 | a first field of at most one character matches neither tag |
| AllskyTempSensor.SingleCharUnchanged | allsky_tempsensor/allsky_tempsensor.py:81-88 | a one-character item changes nothing and never raises |
| AllskyTempSensor.ScanAppend | allsky_tempsensor/allsky_tempsensor.py:81-88 | the loop over one more item is the loop so far, followed by one more pass |
| AllskyTempSensor.TemperatureItem | allsky_tempsensor/allsky_tempsensor.py:82-85 | an item whose fields carry the internal temperature stores its fourth field under INTERNALTEMPERATURE |
| AllskyTempSensor.LaterLineOverwrites | allsky_tempsensor/allsky_tempsensor.py:83-85 | of two temperature lines, the later one's value is kept |
| AllskyTempSensor.LaterHumidityLineOverwrites | allsky_tempsensor/allsky_tempsensor.py:86-88 | of two humidity lines, the later one's value is kept |
| AllskyTempSensor.HumidityItem | allsky_tempsensor/allsky_tempsensor.py:86-88 | an item whose fields carry the internal humidity stores its fourth field under INTERNALHUMIDITY |
| AllskyTempSensor.ScanTwo | allsky_tempsensor/allsky_tempsensor.py:81-88 | two further passes compose |
| AllskyTempSensor.OtherLinesIgnored | allsky_tempsensor/allsky_tempsensor.py:83-88 | items tagged neither `data` nor `progress` leave the data unchanged |
| AllskyTempSensor.ScanKeys | allsky_tempsensor/allsky_tempsensor.py:81-88 | the loop drops no key and adds none but the two readings |
| AllskyTempSensor.AsWrittenUnchanged | allsky_tempsensor/allsky_tempsensor.py:80-88 | the loop as written, over characters, never raises and stores nothing |
| AllskyTempSensor.ReadItems | allsky_tempsensor/allsky_tempsensor.py:81-88 | the loop method returns `Scan` of its items from the empty dictionary, with `None` for IndexError |
| AllskyTempSensor.AlwaysLastRun | allsky_tempsensor/allsky_tempsensor.py:97-102 | every call returns the "Last run" text and ends with one `setLastRun` followed by that log line |
| AllskyTempSensor.NothingReadWithoutNames | allsky_tempsensor/allsky_tempsensor.py:76 | with an empty file name or data file nothing is read or saved |
| AllskyTempSensor.Reads | allsky_tempsensor/allsky_tempsensor.py:74-78 | the guards: due, both names set and ALLSKY_HOME present; `SavedIffRead` and `NothingReadWithoutNames` are stated over it |
| AllskyTempSensor.SavedIffRead | allsky_tempsensor/allsky_tempsensor.py:74-95 | a save happens exactly when the module is due, both names are set, ALLSKY_HOME exists and the file was read; the saved dictionary is always empty |
| AllskyTempSensor.Attempt | allsky_tempsensor/allsky_tempsensor.py:79-95 | the try block's events for the read content; `TryRead` is proved to emit them |
| AllskyTempSensor.TempSensor | allsky_tempsensor/allsky_tempsensor.py:65-102 | the whole call; `AlwaysLastRun`, `NothingReadWithoutNames` and `SavedIffRead` are its properties and `Run` is proved to compute it |
| AllskyTempSensor.TryRead | allsky_tempsensor/allsky_tempsensor.py:79-95 | the try block emits `Attempt` of the content, and reports "written" exactly when it saved |
| AllskyTempSensor.Run | allsky_tempsensor/allsky_tempsensor.py:65-102 | the whole call returns and emits `TempSensor` of its inputs, so every lemma about `TempSensor` holds of it |

## Left out

- Image loading (`cv2.imread` of the fixed path and of the mask file) is left out. The methods take the decoded arrays; a mask that fails to load is `None`.
- The `os.path.join` of allsky_sqm.py:88 is left out. `os` is not imported there, so the NameError it raises is not modelled.
- The BGR-to-gray conversion of allsky_sqm.py:93-96 is left out. The image is taken as already single-channel.
- FallbackRect: computed in exact arithmetic. The floating-point rounding of `100 / fallback` and of the divisions at lines 118-122 is not modelled and can differ by one pixel at a boundary.
- AllskySqm.Binning: `AS_BIN` is taken as an integer. If the host returns it as a string, line 109 raises TypeError and the fallback is always used; the model does not capture that.
- MeanOver: for an empty crop, `cv2.mean` returns a value the model does not state (`EmptyCrop`). The log line of line 130 is still written; its event is `MeanOfEmptyCrop`, without the value.
- Debug images are events only. Their file writing is left out, and so are the text of log messages (the datatypes name them) and `str(e)` of exceptions.
- The `int()` of the `fallback`, `expire` and `period` settings is left out. They are taken as integers, since a ValueError there escapes the plug-in.
- The network and JSON decoding are a parameter. `get` returns the status and the decoded body, with `None` when the request or `json.loads` raised.
- `float()` of a string and `round(Temp(t, 'c').<scale>, 1)` are function parameters, because they are floating-point.
- A `stationnumber` setting that is not a string is left out: the concatenation at allsky_weatherflowtempest.py:204 would raise TypeError. The setting is taken as text.
- `metaData`, the `*_cleanup` functions and `s.shouldRun` are left out. The answer of `s.shouldRun` is a parameter.
- The data file of the temperature sensor is a parameter, `None` when opening or reading raised. Its `expire` setting is read but not used, so it is not modelled.
- AllskySqm.ParseRoi: divides exactly. Python's `int(x) / binning` is a floating-point division, so past 2^53 the Python result can differ from the exact truncated quotient: for "9007199254740993,0,1,1" with binning 1 the source gives 9007199254740992, and `ParseRoiText`'s round trip fails there in the source. A field of about 309 or more digits makes the division raise OverflowError, which falls back; the model returns the exact quotient instead.
- Py.TruncDiv: the exact quotient truncated toward zero, without the floating-point rounding of Python's `/` (see `AllskySqm.ParseRoi` above).
- Py.IsSpace covers the ASCII whitespace characters only, not the rest of Unicode whitespace.
- Py.ParseInt accepts decimal digits only, not the other Unicode digits `int()` accepts.
- Py.ParseInt: has no digit limit. CPython 3.11 and later (and the 3.7-3.10 security releases) raise ValueError for `int()` of text with more than 4300 digits. For a longer `stationnumber` the source's `int(stationnum)` at allsky_weatherflowtempest.py:203 raises, and the outer handler logs an error; the model reads the number and reports the station error instead.
- Py.Show: has no digit limit either. CPython raises ValueError for `str()` of an integer with more than 4300 digits, so `Py.ParseShow` holds in CPython only up to that size.
- AllskySqm.MaskEvents: a mask file that fails to load gives `None` in the source, and with debug on the source still calls `writeDebugImage("image-mask.png", None)`. The model takes a failed load as no mask and emits nothing. As written the line before it raises NameError anyway (see above).
- `debug` is a `bool`: it stands for the truth value the source's `if debug` gives `params["debug"]`. A non-empty string such as "false" counts as true there.
