# AndroidOCR in Dafny

A model of the core of AndroidOCR, an Android app that runs PP-OCRv5 text
detection and recognition on the device. It covers the camera screen and its
live viewfinder, the photo gallery and its background recognition queue, and
the image viewer.

- **Gallery index store** (`gallery_index.dfy`, `gallery_repository.dfy`).
  - The index file holds one line per image with five `|`-separated fields. The URL-encoded OCR JSON is the fourth field.
  - The model covers how the file is written and how it is read back: line splitting, blank-line filtering, `toLongOrNull`, `toBooleanStrictOrNull`, the existence check on each record's file, and the descending-timestamp sort.
  - It proves the round trip: the loaded list is the saved list, sorted, and the sort is stable.
  - `GalleryRepository` is a class over the index file's content and the set of files on disk. Adding, deleting and updating an image each load the index, change the list and save it. Lemmas show what a reload then sees.
- **Background OCR queue** (`ocr_processing.dfy`).
  - `OcrProcessingManager` is a class with its queue, its busy flag, whether an engine has been created, and a trace of processed units and published states.
  - Enqueueing while busy keeps the queue free of duplicates. Otherwise the queue is drained in order.
  - Each unit publishes `Processing(id)` and then `Idle`. Results are written only for an existing unprocessed record whose bitmap decodes.
- **Native engine** (`native_engine.dfy`).
  - The accelerator fallback chain (GPU, then CPU). NPU is never active.
  - The `while (merged)` box-merging loop, with its nested scan and in-place erase.
  - The area filter and the 200-box cap.
  - The in-place index sort by area, on an `array`.
  - The recognition loop that keeps results with non-empty text and confidence at least 0.
- **Engine handle** (`ocr_engine.dfy`).
  - The per-process cache-directory flag, and the Kotlin wrapper's `create`, `process`, `getBenchmark`, `getActiveAccelerator` and `close` over a native handle.
- **Camera screen** (`camera_view_model.dfy`).
  - The UI state machine (Loading, Ready, Error) and its toggles.
  - The 8x8 frame fingerprint, computed by a nested loop.
  - The stability gate with Kotlin `Int` wrap-around on the counter.
  - The single-flight inference guard, and the engine re-initialisation that drops results of a frame started on the old engine.
- **Gallery screen and image viewer** (`gallery_view_model.dfy`, `image_viewer.dfy`, `image_viewer_state.dfy`).
  - The gallery's selection mode.
  - The viewer's pager, its per-image result cache and the guard against stale loads.
  - Text copying.
- **Small tables** (`accelerator.dfy`, `resolution.dfy`, `ocr_types.dfy`, `rolling_average.dfy`).
  - The accelerator codes. `NPU` does not survive the `fromValue` round trip.
  - The 19 resolution presets and their groupings, and `fromSize`.
  - The benchmark panel's rolling-average window.

## How the model treats the code

- Effects outside the core are inputs, not modelled behaviour. These include decoding a bitmap, copying a file, the engine's answers, the clock, UUIDs and preferences.
  - They become parameters: booleans, functions or `Option` values.
- The URL codec and the JSON (de)serialiser are function parameters.
  - The round-trip lemmas assume only that decoding inverts encoding and that encoded text holds no `|` and no line break.
- Coroutines are modelled as a start step and a finish step wherever a guard between them matters: the camera frame, the viewer's load.
- Engines the view models create are numbered. A closed engine is recorded by its number, so "closed once" is a statement about a list.
- `importImage` with a null input stream still adds the record and saves it, though no file is written (`GalleryRepository.kt:147-163`).
  - `AddImage` models this by its `fileCreated` parameter. A later load then drops that record, because its file is missing.
- `deselectAll` (`GalleryViewModel.kt:124-128`) does exactly what `exitSelectionMode` does. Both are modelled by `ExitSelectionMode`.
- The fourth 16:9 preset, 854x480, is not exactly 16:9. `WideHasItsRatio` states this, and `FromSizeNearlyWide` shows it still maps to 16:9.
- `NPU` is listed in the fallback chain's enum but never tried (`ocr_engine.cpp:32-36`). `fromValue` maps its code 2 to GPU: see `NpuDoesNotRoundTrip`.

## Model

| member | source | states |
|---|---|---|
| Text.Split | app/src/main/java/me/fleey/ppocrv5/data/GalleryRepository.kt:280 | `split` on one character: at least one part, and no part contains the delimiter |
| Text.Join | app/src/main/java/me/fleey/ppocrv5/data/GalleryRepository.kt:322-326 | `joinToString`: no parts give the empty string, otherwise the first part is a prefix |
| Text.IsWhitespace | app/src/main/java/me/fleey/ppocrv5/data/GalleryRepository.kt:278 | line breaks are whitespace; digits and the `|` delimiter are not |
| Text.IsBlank | app/src/main/java/me/fleey/ppocrv5/data/GalleryRepository.kt:278 | `isBlank`: the empty string is blank, a string holding a digit is not |
| Text.SplitJoin | app/src/main/java/me/fleey/ppocrv5/data/GalleryRepository.kt:280-281 | splitting a `|`-joined list of delimiter-free fields gives back exactly those fields (the writer/reader inverse at field level) |
| Text.IndexOfPrefix | app/src/main/java/me/fleey/ppocrv5/data/GalleryRepository.kt:280 | the first delimiter in `a + d + b` is at position `|a|` when `a` has none |
| Text.JoinContainsPart | app/src/main/java/me/fleey/ppocrv5/data/GalleryRepository.kt:322-325 | every character of every part occurs in the joined string |
| Text.LineEnd | app/src/main/java/me/fleey/ppocrv5/data/GalleryRepository.kt:277 | the first line break (or the end): no break before it, a break at it |
| Text.ReadLines | app/src/main/java/me/fleey/ppocrv5/data/GalleryRepository.kt:277 | `readLines`: no produced line holds `\n` or `\r` |
| Text.LineEndPrefix | app/src/main/java/me/fleey/ppocrv5/data/GalleryRepository.kt:277 | a break-free prefix followed by a break (or nothing) ends exactly at its length |
| Text.ReadLinesCons | app/src/main/java/me/fleey/ppocrv5/data/GalleryRepository.kt:277 | reading `a + "\n" + rest` yields `a` followed by the lines of `rest` |
| Text.ReadLinesLast | app/src/main/java/me/fleey/ppocrv5/data/GalleryRepository.kt:277 | a non-empty break-free string reads back as one line (no trailing empty line) |
| Text.ReadLinesJoin | app/src/main/java/me/fleey/ppocrv5/data/GalleryRepository.kt:322-326 | reading a `\n`-joined list of non-empty break-free lines gives back exactly that list |
| Text.NatToString | app/src/main/java/me/fleey/ppocrv5/data/GalleryRepository.kt:324 | decimal rendering of a timestamp: non-empty and made of digits only |
| Text.LongToString | app/src/main/java/me/fleey/ppocrv5/data/GalleryRepository.kt:324 | a timestamp's decimal text is non-empty, starts with `-` exactly when negative, and is digits after the sign |
| Text.ParseLong | app/src/main/java/me/fleey/ppocrv5/data/GalleryRepository.kt:284 | `toLongOrNull`: any value produced lies in the signed 64-bit range |
| Text.DigitsValueOfNatToString | app/src/main/java/me/fleey/ppocrv5/data/GalleryRepository.kt:284 | the digits of `n` rendered in decimal have value `n` |
| Text.DigitCharValue | app/src/main/java/me/fleey/ppocrv5/data/GalleryRepository.kt:284 | each decimal digit character encodes its own value |
| Text.ParseLongUnsigned | app/src/main/java/me/fleey/ppocrv5/data/GalleryRepository.kt:284 | a digit string whose value is at most `Long.MAX_VALUE` parses to that value |
| Text.ParseLongNegative | app/src/main/java/me/fleey/ppocrv5/data/GalleryRepository.kt:284 | `-` followed by digits whose value is at most 2^63 parses to the negated value |
| Text.ParseLongToString | app/src/main/java/me/fleey/ppocrv5/data/GalleryRepository.kt:284 | every 64-bit timestamp written by the writer is parsed back to itself |
| Accelerators.Value | app/src/main/java/me/fleey/ppocrv5/ocr/AcceleratorType.kt:25-35 | the stored codes are 0, 1 and 2 |
| Accelerators.FromValue | app/src/main/java/me/fleey/ppocrv5/ocr/AcceleratorType.kt:37-41 | `fromValue` never yields NPU; it yields CPU exactly for 1 and GPU for 0 |
| Accelerators.FromValueRoundTrip | app/src/main/java/me/fleey/ppocrv5/ocr/AcceleratorType.kt:25-41 | `fromValue(t.value) == t` for GPU and CPU |
| Accelerators.NpuDoesNotRoundTrip | app/src/main/java/me/fleey/ppocrv5/ocr/AcceleratorType.kt:34-41 | NPU has code 2, which `fromValue` maps to GPU |
| Accelerators.ValueInjective | app/src/main/java/me/fleey/ppocrv5/ocr/AcceleratorType.kt:25-35 | distinct accelerators have distinct codes |
| Resolutions.GetByAspectRatio | app/src/main/java/me/fleey/ppocrv5/ocr/ResolutionPreset.kt:57-71 | every listed preset is one of the enum entries |
| Resolutions.FromSize | app/src/main/java/me/fleey/ppocrv5/ocr/ResolutionPreset.kt:95-98 | `fromSize` (`minByOrNull` of the distance) picks a ratio at least as close to `width/height` as every other ratio, and on a tie the first in declaration order: it leaves 4:3 only for a strictly closer ratio and picks 1:1 only when it is strictly closer than 16:9; a zero height yields 4:3 |
| Resolutions.FromSizeTieKeepsFirst | app/src/main/java/me/fleey/ppocrv5/ocr/ResolutionPreset.kt:95-98 | 14x9 is exactly as far from 4:3 as from 16:9, and `fromSize` keeps 4:3, the first entry |
| Resolutions.RatioValue | app/src/main/java/me/fleey/ppocrv5/ocr/ResolutionPreset.kt:90-92 | every nominal ratio lies between 1 (square) and 16/9 |
| Resolutions.SizeOf | app/src/main/java/me/fleey/ppocrv5/ocr/ResolutionPreset.kt:27-47 | every preset has a positive height, is landscape or square, and is at most 3840 pixels wide |
| Resolutions.OrdinalIsPosition | app/src/main/java/me/fleey/ppocrv5/ocr/ResolutionPreset.kt:27-47 | the enum order lists 19 entries and each preset sits at exactly one position |
| Resolutions.AllPresetsDistinct | app/src/main/java/me/fleey/ppocrv5/ocr/ResolutionPreset.kt:27-47 | the 19 presets are pairwise distinct |
| Resolutions.GroupsAreRuns | app/src/main/java/me/fleey/ppocrv5/ocr/ResolutionPreset.kt:27-71 | the 4:3, 16:9 and 1:1 lists are the consecutive runs of the enum order (positions 0-6, 7-13, 14-18) |
| Resolutions.InRun | app/src/main/java/me/fleey/ppocrv5/ocr/ResolutionPreset.kt:27-47 | a preset lies in a run of the enum order exactly when its position is inside the run |
| Resolutions.AspectGroupOf | app/src/main/java/me/fleey/ppocrv5/ocr/ResolutionPreset.kt:57-71 | each preset is listed, under exactly one aspect ratio |
| Resolutions.AspectGroupsPartition | app/src/main/java/me/fleey/ppocrv5/ocr/ResolutionPreset.kt:57-71 | the aspect-ratio lists are pairwise disjoint, cover all presets, and have 19 entries between them |
| Resolutions.LatencyGroupsPartition | app/src/main/java/me/fleey/ppocrv5/ocr/ResolutionPreset.kt:73-85 | the low-latency, balanced and high-quality lists (six, six and seven presets) are pairwise disjoint, cover all presets, and have 19 entries between them |
| Resolutions.FourThreeHasItsRatio | app/src/main/java/me/fleey/ppocrv5/ocr/ResolutionPreset.kt:58-61 | every 4:3 preset has `3*width == 4*height` |
| Resolutions.WideHasItsRatio | app/src/main/java/me/fleey/ppocrv5/ocr/ResolutionPreset.kt:63-66 | every 16:9 preset except 854x480 has `9*width == 16*height`, and 854x480 does not |
| Resolutions.SquareHasItsRatio | app/src/main/java/me/fleey/ppocrv5/ocr/ResolutionPreset.kt:68-70 | every 1:1 preset has `width == height` |
| Resolutions.AspectGroupsIncreasing | app/src/main/java/me/fleey/ppocrv5/ocr/ResolutionPreset.kt:58-70 | each aspect-ratio list is in strictly increasing width |
| Resolutions.DefaultIsFirstWide | app/src/main/java/me/fleey/ppocrv5/ocr/ResolutionPreset.kt:55-64 | `DEFAULT` is 320x180, the first 16:9 entry |
| Resolutions.FromSizeExactFourThree | app/src/main/java/me/fleey/ppocrv5/ocr/ResolutionPreset.kt:95-98 | any size with an exact 4:3 ratio maps to 4:3 |
| Resolutions.FromSizeExactWide | app/src/main/java/me/fleey/ppocrv5/ocr/ResolutionPreset.kt:95-98 | any size with an exact 16:9 ratio maps to 16:9 |
| Resolutions.FromSizeExactSquare | app/src/main/java/me/fleey/ppocrv5/ocr/ResolutionPreset.kt:95-98 | any square size maps to 1:1 |
| Resolutions.FromSizeNearlyWide | app/src/main/java/me/fleey/ppocrv5/ocr/ResolutionPreset.kt:95-98 | 854x480 (ratio 1.779...) is still nearest to 16:9 |
| Resolutions.FromSizeOfFourThree | app/src/main/java/me/fleey/ppocrv5/ocr/ResolutionPreset.kt:95-98 | every 4:3 preset's size maps back to 4:3 |
| Resolutions.FromSizeOfWide | app/src/main/java/me/fleey/ppocrv5/ocr/ResolutionPreset.kt:95-98 | every 16:9 preset's size maps back to 16:9 |
| Resolutions.FromSizeOfSquare | app/src/main/java/me/fleey/ppocrv5/ocr/ResolutionPreset.kt:95-98 | every 1:1 preset's size maps back to 1:1 |
| Resolutions.FromSizeAgreesWithGroups | app/src/main/java/me/fleey/ppocrv5/ocr/ResolutionPreset.kt:57-98 | for every preset in `getByAspectRatio(r)`, `fromSize` of its size is `r` |
| NativeEngine.FallbackStartIndex | app/src/main/cpp/ocr_engine.cpp:32-53 | a CPU request starts the chain at CPU; GPU and NPU requests start at GPU |
| NativeEngine.FirstWorkingIsFirst | app/src/main/cpp/ocr_engine.cpp:131-162 | the loop succeeds exactly when some tried accelerator has both a detector and a recognizer, and then returns the first such one |
| NativeEngine.FirstWorking | app/src/main/cpp/ocr_engine.cpp:131-162 | a found accelerator comes from the untried part of the chain and has both a detector and a recognizer |
| NativeEngine.Create | app/src/main/cpp/ocr_engine.cpp:122-163 | the fallback loop returns the first working accelerator of the tried suffix (or none), and it is never NPU |
| NativeEngine.ActiveNeverNpu | app/src/main/cpp/ocr_engine.cpp:131-162 | the active accelerator is never NPU |
| NativeEngine.FallbackOutcomes | app/src/main/cpp/ocr_engine.cpp:32-162 | a CPU request gets CPU or nothing; a GPU or NPU request gets GPU if it works, else CPU if that works, else nothing |
| NativeEngine.MergeBoxes | app/src/main/cpp/ocr_engine.cpp:98-107 | the merged box spans both boxes' axis-aligned extents, covers both, keeps the first box's angle and takes the larger confidence |
| NativeEngine.FirstPartner | app/src/main/cpp/ocr_engine.cpp:84-97 | the first `j` in the scanned range whose box merges with box `i`; none before it merges, and none means no box in the range merges |
| NativeEngine.ShouldMerge | app/src/main/cpp/ocr_engine.cpp:88-96 | boxes on one baseline within 20% of their mean height merge; boxes whose heights sum to at most 0 never merge |
| NativeEngine.ShouldMergeSymmetric | app/src/main/cpp/ocr_engine.cpp:88-96 | the merge test gives the same answer whichever box comes first |
| NativeEngine.FirstPair | app/src/main/cpp/ocr_engine.cpp:83-116 | the first mergeable pair in scan order; none means no pair at or after row `i` merges |
| NativeEngine.MergeStep | app/src/main/cpp/ocr_engine.cpp:98-111 | one merge replaces box `i` and erases box `j`: exactly one box fewer |
| NativeEngine.MergeAll | app/src/main/cpp/ocr_engine.cpp:78-117 | repeated merging never grows the list and ends with no mergeable pair left |
| NativeEngine.MergeAllSmall | app/src/main/cpp/ocr_engine.cpp:78 | fewer than two boxes are returned unchanged |
| NativeEngine.MergeStepCovers | app/src/main/cpp/ocr_engine.cpp:98-111 | after one merge, each input box is covered by some remaining box |
| NativeEngine.MergeAllCovers | app/src/main/cpp/ocr_engine.cpp:78-117 | after merging, each input box is covered by some output box |
| NativeEngine.ScanRow | app/src/main/cpp/ocr_engine.cpp:84-113 | the inner `for` loop finds exactly `FirstPartner(b, i, i + 1)` |
| NativeEngine.ScanPairs | app/src/main/cpp/ocr_engine.cpp:83-116 | the two nested loops find exactly the first mergeable pair |
| NativeEngine.MergeNearbyBoxesPrecision | app/src/main/cpp/ocr_engine.cpp:77-118 | the in-place `while (merged)` loop computes exactly `MergeAll` of its input |
| NativeEngine.KeepLarge | app/src/main/cpp/ocr_engine.cpp:193-198 | the boxes with area at least 4, each one of the inputs |
| NativeEngine.Area | app/src/main/cpp/ocr_engine.cpp:194 | a box with non-negative sides has non-negative area, and a degenerate one has area 0 |
| NativeEngine.KeepLargeAppend | app/src/main/cpp/ocr_engine.cpp:193-198 | filtering distributes over concatenation (order is preserved) |
| NativeEngine.FilterAndCap | app/src/main/cpp/ocr_engine.cpp:190-198 | a prefix of the large-enough boxes, at most 200 of them, and all of them when there are no more than 200 |
| NativeEngine.FilterBoxes | app/src/main/cpp/ocr_engine.cpp:190-198 | the `push_back` loop with its break at the cap computes exactly `FilterAndCap` |
| NativeEngine.Iota | app/src/main/cpp/ocr_engine.cpp:68-69 | `std::iota`: the vector `0..n-1` |
| NativeEngine.Pick | app/src/main/cpp/ocr_engine.cpp:217-218 | the boxes an index vector picks, in its order |
| NativeEngine.Swap | app/src/main/cpp/ocr_engine.cpp:71-73 | swapping two neighbours keeps the multiset |
| NativeEngine.SwapKeepsInserting | app/src/main/cpp/ocr_engine.cpp:71-73 | a swap of an out-of-order neighbour advances the insertion invariant |
| NativeEngine.InsertedIsSorted | app/src/main/cpp/ocr_engine.cpp:71-73 | when the moving element stops, the prefix is sorted by key |
| NativeEngine.InsertDown | app/src/main/cpp/ocr_engine.cpp:71-73 | one insertion pass keeps the array a permutation of valid indices and extends the sorted prefix by one |
| NativeEngine.SortBoxesByArea | app/src/main/cpp/ocr_engine.cpp:67-74 | the index vector is a permutation of `0..n-1` and picks boxes in non-increasing area |
| NativeEngine.SortedPicksNonIncreasing | app/src/main/cpp/ocr_engine.cpp:71-73 | indices sorted by area pick boxes in non-increasing area |
| NativeEngine.PickRemove | app/src/main/cpp/ocr_engine.cpp:217-218 | removing one index removes its box from the picked multiset |
| NativeEngine.PickPermutation | app/src/main/cpp/ocr_engine.cpp:217-218 | permuted index vectors pick the same multiset of boxes |
| NativeEngine.SortedIndicesPickAll | app/src/main/cpp/ocr_engine.cpp:67-74 | the sorted permutation visits every filtered box exactly once |
| NativeEngine.PickIota | app/src/main/cpp/ocr_engine.cpp:68-69 | the identity permutation picks the list itself |
| NativeEngine.Recognised | app/src/main/cpp/ocr_engine.cpp:217-230 | the boxes whose recognition has text and confidence at least 0, never more than were tried |
| NativeEngine.BoxesOf | app/src/main/cpp/ocr_engine.cpp:227 | the boxes of the emitted results, in order |
| NativeEngine.EmittedSnoc | app/src/main/cpp/ocr_engine.cpp:223-228 | appending an accepted recognizer answer keeps every result the recognizer's own answer, and appends its box |
| NativeEngine.RecognisedSnoc | app/src/main/cpp/ocr_engine.cpp:223 | one more box is kept exactly when its recognition is accepted |
| NativeEngine.RecognisedMultiset | app/src/main/cpp/ocr_engine.cpp:217-230 | the count of a box among kept boxes is its count among tried boxes if accepted, else 0 |
| NativeEngine.RecognisedPermutation | app/src/main/cpp/ocr_engine.cpp:217-230 | recognising a permutation of the boxes keeps a permutation of the accepted ones |
| NativeEngine.RecognizeInOrder | app/src/main/cpp/ocr_engine.cpp:217-230 | the recognition loop emits, in sorted order, one result per accepted box, each the recognizer's answer with non-empty text and confidence at least 0 |
| NativeEngine.Process | app/src/main/cpp/ocr_engine.cpp:165-248 | empty when uninitialised or no boxes are detected; at most 200 results, each with non-empty text, confidence at least 0 and the recognizer's answer for its box; as a multiset, exactly the accepted boxes among the merged and filtered ones; in non-increasing area |
| NativeEngine.RecognisedOrder | app/src/main/cpp/ocr_engine.cpp:209-230 | keeping the accepted boxes of an area-sorted list keeps it sorted, and only boxes of the list are kept |
| EngineWrapper.CacheSetUp | app/src/main/java/me/fleey/ppocrv5/ocr/OcrEngine.kt:37-65 | the flag is true exactly when a setup was done and no shutdown happened after the last one |
| EngineWrapper.Runtime.constructor | app/src/main/java/me/fleey/ppocrv5/ocr/OcrEngine.kt:37 | starts with no cache set up |
| EngineWrapper.Runtime.InitializeCache | app/src/main/java/me/fleey/ppocrv5/ocr/OcrEngine.kt:47-56 | sets the cache up once; a second call before `shutdown` makes no native call |
| EngineWrapper.Runtime.Shutdown | app/src/main/java/me/fleey/ppocrv5/ocr/OcrEngine.kt:62-65 | one native shutdown, and the flag is cleared |
| EngineWrapper.OcrEngine.constructor | app/src/main/java/me/fleey/ppocrv5/ocr/OcrEngine.kt:25-28 | wraps a handle with nothing destroyed |
| EngineWrapper.OcrEngine.Create | app/src/main/java/me/fleey/ppocrv5/ocr/OcrEngine.kt:67-89 | sets the cache up; fails on an asset copy failure or a zero native handle; otherwise a fresh engine wrapping that non-zero handle |
| EngineWrapper.OcrEngine.Process | app/src/main/java/me/fleey/ppocrv5/ocr/OcrEngine.kt:113-116 | fails (closed) exactly when the handle is 0; a null native result is the empty list, otherwise the native results |
| EngineWrapper.OcrEngine.GetBenchmark | app/src/main/java/me/fleey/ppocrv5/ocr/OcrEngine.kt:118-127 | fails when closed; null data is the default benchmark; elements 0 to 3 are detection, recognition, total and fps; a shorter array fails |
| EngineWrapper.OcrEngine.GetActiveAccelerator | app/src/main/java/me/fleey/ppocrv5/ocr/OcrEngine.kt:129-132 | fails exactly when closed; otherwise `fromValue` of the native code (NPU reads as GPU) |
| EngineWrapper.OcrEngine.Close | app/src/main/java/me/fleey/ppocrv5/ocr/OcrEngine.kt:134-139 | handle 0 afterwards; the native handle is destroyed once, and a second close destroys nothing |
| EngineWrapper.CreatedEngineReportsActive | app/src/main/java/me/fleey/ppocrv5/ocr/OcrEngine.kt:129-132 | the accelerator the native chain picks survives `fromValue`, so the engine reports what the chain chose |
| GalleryIndex.NewImage | app/src/main/java/me/fleey/ppocrv5/data/GalleryRepository.kt:153-157 | a new record has no JSON and is not processed |
| GalleryIndex.ParseBoolStrict | app/src/main/java/me/fleey/ppocrv5/data/GalleryRepository.kt:288 | `toBooleanStrictOrNull`: true only for "true", false only for "false" |
| GalleryIndex.BoolToString | app/src/main/java/me/fleey/ppocrv5/data/GalleryRepository.kt:324 | the written flag reads back through `toBooleanStrictOrNull` as the same flag |
| GalleryIndex.Fields | app/src/main/java/me/fleey/ppocrv5/data/GalleryRepository.kt:323-324 | five fields: id, uri, a timestamp text that parses back to the timestamp, the JSON field (empty when there is none), and a flag text that reads back as the flag |
| GalleryIndex.RecordLine | app/src/main/java/me/fleey/ppocrv5/data/GalleryRepository.kt:324 | a record line starts with the id followed by the `|` delimiter |
| GalleryIndex.RecordLines | app/src/main/java/me/fleey/ppocrv5/data/GalleryRepository.kt:322-325 | one record line per image, in order |
| GalleryIndex.Serialize | app/src/main/java/me/fleey/ppocrv5/data/GalleryRepository.kt:322-326 | the index content is empty for no records and otherwise starts with the first record's line |
| GalleryIndex.ParseLine | app/src/main/java/me/fleey/ppocrv5/data/GalleryRepository.kt:280-308 | a line is dropped exactly when it has fewer than 3 fields, or its file is missing and its JSON field does not fail to decode; it fails exactly when field 3 is non-empty and does not decode; every other line is parsed, with id and uri from fields 0 and 1, a missing or non-numeric timestamp as 0, the decoded field 3 as JSON (none when missing or empty), and `ocrProcessed` only for an exact "true" in field 4 |
| GalleryIndex.NonBlank | app/src/main/java/me/fleey/ppocrv5/data/GalleryRepository.kt:278 | keeps only non-blank lines, each one of the input lines |
| GalleryIndex.ParseAll | app/src/main/java/me/fleey/ppocrv5/data/GalleryRepository.kt:277-312 | the parsed records are no more than the lines, and all have existing files |
| GalleryIndex.Insert | app/src/main/java/me/fleey/ppocrv5/data/GalleryRepository.kt:313 | inserting adds exactly that record to the multiset |
| GalleryIndex.SortedTail | app/src/main/java/me/fleey/ppocrv5/data/GalleryRepository.kt:313 | the tail of a list sorted by descending timestamp is sorted and not newer than its head |
| GalleryIndex.SortedCons | app/src/main/java/me/fleey/ppocrv5/data/GalleryRepository.kt:313 | a record not older than a sorted list, put in front, keeps it sorted |
| GalleryIndex.InsertSorted | app/src/main/java/me/fleey/ppocrv5/data/GalleryRepository.kt:313 | inserting into a sorted list keeps it sorted |
| GalleryIndex.SortDesc | app/src/main/java/me/fleey/ppocrv5/data/GalleryRepository.kt:313 | `sortedByDescending`: sorted by non-increasing timestamp and a permutation of the input |
| GalleryIndex.LoadIndex | app/src/main/java/me/fleey/ppocrv5/data/GalleryRepository.kt:273-318 | a missing index file gives the empty list; the loaded list is sorted by non-increasing timestamp and every record's file exists |
| GalleryIndex.WithTimestamp | app/src/main/java/me/fleey/ppocrv5/data/GalleryRepository.kt:313 | the records with one timestamp, in order |
| GalleryIndex.InsertWithTimestamp | app/src/main/java/me/fleey/ppocrv5/data/GalleryRepository.kt:313 | among the records with one timestamp, an inserted record comes before those already there |
| GalleryIndex.SortDescStable | app/src/main/java/me/fleey/ppocrv5/data/GalleryRepository.kt:313 | stability: among records with equal timestamps the sort keeps their input order |
| GalleryIndex.LongToStringPlain | app/src/main/java/me/fleey/ppocrv5/data/GalleryRepository.kt:324 | a written timestamp contains no `|` or line break and is not empty |
| GalleryIndex.JoinNoLineBreak | app/src/main/java/me/fleey/ppocrv5/data/GalleryRepository.kt:324 | joining break-free fields with `|` gives a break-free line |
| GalleryIndex.FieldsPlain | app/src/main/java/me/fleey/ppocrv5/data/GalleryRepository.kt:323-324 | a storable record writes five fields, none with `|` or a line break |
| GalleryIndex.RecordLineSplits | app/src/main/java/me/fleey/ppocrv5/data/GalleryRepository.kt:280 | a written record line splits back into its five fields, and is a non-blank break-free line |
| GalleryIndex.ParseRecordLine | app/src/main/java/me/fleey/ppocrv5/data/GalleryRepository.kt:280-308 | a written line of a storable record whose file exists parses back to that very record |
| GalleryIndex.NonBlankRecordLines | app/src/main/java/me/fleey/ppocrv5/data/GalleryRepository.kt:278 | the blank-line filter keeps every written record line |
| GalleryIndex.ParseAllCons | app/src/main/java/me/fleey/ppocrv5/data/GalleryRepository.kt:279-312 | a parsed first line is followed by the records of the remaining lines |
| GalleryIndex.ParseAllRecordLines | app/src/main/java/me/fleey/ppocrv5/data/GalleryRepository.kt:279-312 | parsing the written lines of storable records with existing files gives back exactly those records, in order |
| GalleryIndex.ReadBackRecordLines | app/src/main/java/me/fleey/ppocrv5/data/GalleryRepository.kt:322-326 | reading the written index file yields exactly the record lines |
| GalleryIndex.LoadSerialize | app/src/main/java/me/fleey/ppocrv5/data/GalleryRepository.kt:273-330 | round trip: loading what the writer saved gives the records sorted by descending timestamp |
| GalleryIndex.EmptyJsonReadsBackAsNone | app/src/main/java/me/fleey/ppocrv5/data/GalleryRepository.kt:285-287 | a record with JSON "" is written with an empty field and read back with no JSON |
| GalleryIndex.IndexOfId | app/src/main/java/me/fleey/ppocrv5/data/GalleryRepository.kt:210-212 | `indexOfFirst`: -1 exactly when no record has the id, otherwise the first position with it |
| GalleryIndex.RemoveId | app/src/main/java/me/fleey/ppocrv5/data/GalleryRepository.kt:183 | `removeAll { it.id == id }`: exactly the records with another id, never more than before |
| GalleryIndex.RemoveAbsentId | app/src/main/java/me/fleey/ppocrv5/data/GalleryRepository.kt:183 | removing an id no record carries changes nothing |
| GalleryIndex.RemoveIdMultiset | app/src/main/java/me/fleey/ppocrv5/data/GalleryRepository.kt:183 | the kept and the removed records together are exactly the original multiset |
| GalleryIndex.RemoveIdMultisetCons | app/src/main/java/me/fleey/ppocrv5/data/GalleryRepository.kt:183 | the head record goes to exactly one of the kept and removed sides |
| GalleryIndex.WithId | app/src/main/java/me/fleey/ppocrv5/data/GalleryRepository.kt:183 | the records that carry the id |
| Gallery.Stored | app/src/main/java/me/fleey/ppocrv5/data/GalleryRepository.kt:273-318 | what a load sees: sorted by descending timestamp, every file existing |
| Gallery.UpdateFirst | app/src/main/java/me/fleey/ppocrv5/data/GalleryRepository.kt:217-224 | only the first record with the id changes, to the JSON and `ocrProcessed = true`; all others stay, and so does the length |
| Gallery.FindImage | app/src/main/java/me/fleey/ppocrv5/data/GalleryRepository.kt:198-202 | `find`: none exactly when no record has the id, otherwise the first one |
| Gallery.GetCachedOcrResults | app/src/main/java/me/fleey/ppocrv5/data/GalleryRepository.kt:231-234 | results exactly when `ocrProcessed` and the JSON is present, deserialised from that JSON |
| Gallery.GalleryRepository.constructor | app/src/main/java/me/fleey/ppocrv5/data/GalleryRepository.kt:51-57 | the repository over an index file and a set of existing files |
| Gallery.GalleryRepository.SaveIndex | app/src/main/java/me/fleey/ppocrv5/data/GalleryRepository.kt:320-330 | a successful write stores the serialised list; a failed write changes nothing |
| Gallery.GalleryRepository.AddImage | app/src/main/java/me/fleey/ppocrv5/data/GalleryRepository.kt:141-170 | on success, a new record (no JSON, not processed) is written at index 0 followed by the previously loaded records in order (unless the write fails), and the new-image event is emitted; an exception changes nothing |
| Gallery.GalleryRepository.DeleteImage | app/src/main/java/me/fleey/ppocrv5/data/GalleryRepository.kt:172-190 | false, with nothing changed, exactly when no loaded record has the id; otherwise the first such record's file is deleted and every record with the id is removed |
| Gallery.GalleryRepository.UpdateImageOcr | app/src/main/java/me/fleey/ppocrv5/data/GalleryRepository.kt:214-229 | writes `UpdateFirst` of the loaded list when the id is present; an absent id leaves the index untouched |
| Gallery.GalleryRepository.LoadImages | app/src/main/java/me/fleey/ppocrv5/data/GalleryRepository.kt:192-196 | the loaded list, sorted, with existing files |
| Gallery.GalleryRepository.GetImage | app/src/main/java/me/fleey/ppocrv5/data/GalleryRepository.kt:198-202 | the first loaded record with the id, whose file exists |
| Gallery.SortDescOfSorted | app/src/main/java/me/fleey/ppocrv5/data/GalleryRepository.kt:313 | sorting an already sorted list changes nothing |
| Gallery.ReloadSorted | app/src/main/java/me/fleey/ppocrv5/data/GalleryRepository.kt:273-330 | a sorted list of storable records with existing files reads back unchanged |
| Gallery.ReloadAfterAdd | app/src/main/java/me/fleey/ppocrv5/data/GalleryRepository.kt:273-318 | after an add of a newest record, a reload gives it first, followed by the previous records in their order |
| Gallery.RemoveIdSorted | app/src/main/java/me/fleey/ppocrv5/data/GalleryRepository.kt:183 | removing records keeps a sorted list sorted |
| Gallery.ReloadAfterDelete | app/src/main/java/me/fleey/ppocrv5/data/GalleryRepository.kt:273-318 | after a delete, a reload gives exactly the other records in their order |
| Gallery.ReloadAfterUpdate | app/src/main/java/me/fleey/ppocrv5/data/GalleryRepository.kt:273-318 | after an OCR update, a reload gives the updated list in the same order |
| OcrProcessing.ImageStep | app/src/main/java/me/fleey/ppocrv5/data/OcrProcessingManager.kt:100-119 | an undecodable bitmap ends the unit with the engine untouched; results are written only with a decoded bitmap and an engine; an existing engine is kept |
| OcrProcessing.UnitStep | app/src/main/java/me/fleey/ppocrv5/data/OcrProcessingManager.kt:86-89 | a missing record or one already processed is skipped without touching the engine; an engine, once present, stays |
| OcrProcessing.DrainUnits | app/src/main/java/me/fleey/ppocrv5/data/OcrProcessingManager.kt:72-98 | one unit per queued id |
| OcrProcessing.Ids | app/src/main/java/me/fleey/ppocrv5/data/OcrProcessingManager.kt:78 | the ids of the units, in order |
| OcrProcessing.Published | app/src/main/java/me/fleey/ppocrv5/data/OcrProcessingManager.kt:83-97 | two published states per unit |
| OcrProcessing.Added | app/src/main/java/me/fleey/ppocrv5/data/OcrProcessingManager.kt:63-67 | an id already pending leaves the queue unchanged; a new one is appended; no duplicates arise |
| OcrProcessing.PendingIds | app/src/main/java/me/fleey/ppocrv5/data/OcrProcessingManager.kt:121-127 | the ids of not-yet-processed records, no more than there are records |
| OcrProcessing.OcrProcessingManager.constructor | app/src/main/java/me/fleey/ppocrv5/data/OcrProcessingManager.kt:41-44 | empty queue, not busy, no engine |
| OcrProcessing.OcrProcessingManager.ProcessImage | app/src/main/java/me/fleey/ppocrv5/data/OcrProcessingManager.kt:100-119 | the unit's outcome and engine state are exactly those of `ImageStep` |
| OcrProcessing.OcrProcessingManager.RunUnit | app/src/main/java/me/fleey/ppocrv5/data/OcrProcessingManager.kt:78-97 | polls the head, publishes `Processing(id)` then `Idle`, runs `UnitStep`, and clears the busy flag |
| OcrProcessing.OcrProcessingManager.ProcessNext | app/src/main/java/me/fleey/ppocrv5/data/OcrProcessingManager.kt:72-98 | while busy nothing changes; otherwise the queue is drained to empty, in queue order, ending idle |
| OcrProcessing.OcrProcessingManager.Drain | app/src/main/java/me/fleey/ppocrv5/data/OcrProcessingManager.kt:72-98 | the units run from the head until the queue is empty: trace, engine and published states are those of `DrainUnits` |
| OcrProcessing.OcrProcessingManager.Enqueue | app/src/main/java/me/fleey/ppocrv5/data/OcrProcessingManager.kt:61-70 | while busy the id is added unless pending and the engine flag, processing state, trace and published states stay; otherwise the id is processed at once, the queue ends empty and the state Idle |
| OcrProcessing.OcrProcessingManager.ProcessUnprocessedImages | app/src/main/java/me/fleey/ppocrv5/data/OcrProcessingManager.kt:121-128 | when idle, the manager ends idle with an empty queue, and the trace, engine flag and published states are exactly those of draining the unprocessed records' ids in load order; when busy, those ids are appended to the queue unless pending, and the engine flag, processing state, trace and published states stay |
| OcrProcessing.AddedAllPends | app/src/main/java/me/fleey/ppocrv5/data/OcrProcessingManager.kt:61-70 | enqueueing a list of ids while busy keeps the queue free of duplicates and pends exactly the old and the new ids |
| OcrProcessing.PendingIdsSnoc | app/src/main/java/me/fleey/ppocrv5/data/OcrProcessingManager.kt:123-126 | one more record adds its id exactly when it is unprocessed |
| OcrProcessing.IdsAppend | app/src/main/java/me/fleey/ppocrv5/data/OcrProcessingManager.kt:78 | ids distribute over concatenation |
| OcrProcessing.DrainStep | app/src/main/java/me/fleey/ppocrv5/data/OcrProcessingManager.kt:78-97 | running the head unit and then draining the rest is draining the whole queue |
| OcrProcessing.PublishedSnoc | app/src/main/java/me/fleey/ppocrv5/data/OcrProcessingManager.kt:83-97 | one more unit publishes `Processing(id)` then `Idle` |
| OcrProcessing.DrainOfOne | app/src/main/java/me/fleey/ppocrv5/data/OcrProcessingManager.kt:61-70 | enqueueing one id while idle processes exactly that id |
| OcrProcessing.DrainOrder | app/src/main/java/me/fleey/ppocrv5/data/OcrProcessingManager.kt:78 | processing order equals queue order |
| OcrProcessing.DrainAppend | app/src/main/java/me/fleey/ppocrv5/data/OcrProcessingManager.kt:72-98 | draining `a` and then `b` runs the same units and leaves the same engine flag as draining `a + b` |
| OcrProcessing.PublishedAppend | app/src/main/java/me/fleey/ppocrv5/data/OcrProcessingManager.kt:83-95 | the states published for two unit sequences in turn are those published for their concatenation |
| OcrProcessing.DrainUnitId | app/src/main/java/me/fleey/ppocrv5/data/OcrProcessingManager.kt:78 | the `k`-th unit processes the `k`-th queued id |
| OcrProcessing.EngineKept | app/src/main/java/me/fleey/ppocrv5/data/OcrProcessingManager.kt:106-109 | once an engine exists, it is reused for the rest of the drain |
| OcrProcessing.PublishedPairs | app/src/main/java/me/fleey/ppocrv5/data/OcrProcessingManager.kt:83-97 | for each unit, `Processing(id)` of exactly its id is published, then `Idle` |
| OcrProcessing.WrittenOnlyWhenReady | app/src/main/java/me/fleey/ppocrv5/data/OcrProcessingManager.kt:86-113 | a unit writes results only for an existing unprocessed record whose bitmap decodes |
| Camera.FreshReady | app/src/main/java/me/fleey/ppocrv5/ui/state/CameraUiState.kt:27-37 | a fresh Ready state with the given accelerator and resolution: no results, default benchmark, panel expanded, every other flag off |
| Camera.OnResolutionChanged | app/src/main/java/me/fleey/ppocrv5/ui/screen/CameraViewModel.kt:212-220 | no-op outside Ready or for the same preset; a different preset resets the benchmark |
| Camera.ToggleBenchmarkPanel | app/src/main/java/me/fleey/ppocrv5/ui/screen/CameraViewModel.kt:222-230 | no-op outside Ready; flips only the panel flag |
| Camera.ToggleFlash | app/src/main/java/me/fleey/ppocrv5/ui/screen/CameraViewModel.kt:232-240 | no-op outside Ready; flips only the flash flag |
| Camera.ToggleFreeze | app/src/main/java/me/fleey/ppocrv5/ui/screen/CameraViewModel.kt:242-250 | no-op outside Ready; flips only the freeze flag |
| Camera.ToggleCamera | app/src/main/java/me/fleey/ppocrv5/ui/screen/CameraViewModel.kt:286-294 | no-op outside Ready; flips the camera and forces flash off, nothing else |
| Camera.SetCaptureFlash | app/src/main/java/me/fleey/ppocrv5/ui/screen/CameraViewModel.kt:252-284 | no-op outside Ready; sets only the capture-flash flag |
| Camera.TogglesAreInvolutions | app/src/main/java/me/fleey/ppocrv5/ui/screen/CameraViewModel.kt:222-250 | the panel, flash and freeze toggles undo themselves |
| Camera.ToggleCameraTwice | app/src/main/java/me/fleey/ppocrv5/ui/screen/CameraViewModel.kt:286-294 | toggling the camera twice restores the state with flash off |
| Camera.OnResolutionChangedIdempotent | app/src/main/java/me/fleey/ppocrv5/ui/screen/CameraViewModel.kt:212-220 | a second identical resolution change is a no-op |
| Camera.Red | app/src/main/java/me/fleey/ppocrv5/ui/screen/CameraViewModel.kt:147 | `Color.red`: a byte, 0..255 |
| Camera.Green | app/src/main/java/me/fleey/ppocrv5/ui/screen/CameraViewModel.kt:148 | `Color.green`: a byte, 0..255 |
| Camera.Blue | app/src/main/java/me/fleey/ppocrv5/ui/screen/CameraViewModel.kt:149 | `Color.blue`: a byte, 0..255 |
| Camera.ChannelsRecompose | app/src/main/java/me/fleey/ppocrv5/ui/screen/CameraViewModel.kt:147-149 | red, green and blue are the three low bytes of the colour, in that order |
| Camera.Sample | app/src/main/java/me/fleey/ppocrv5/ui/screen/CameraViewModel.kt:147-150 | one sample `(r + g + b) / 3` is in 0..255 |
| Camera.RowHash | app/src/main/java/me/fleey/ppocrv5/ui/screen/CameraViewModel.kt:146-151 | the sum over one row of `n` samples is in `0..255*n` |
| Camera.RowsHash | app/src/main/java/me/fleey/ppocrv5/ui/screen/CameraViewModel.kt:143-153 | the sum over `m` rows of 8 samples is in `0..2040*m` |
| Camera.FrameHash | app/src/main/java/me/fleey/ppocrv5/ui/screen/CameraViewModel.kt:141-154 | the 8x8 fingerprint lies in 0..16320 |
| Camera.ComputeFrameHash | app/src/main/java/me/fleey/ppocrv5/ui/screen/CameraViewModel.kt:141-154 | the nested loop computes exactly the 8x8 fingerprint |
| Camera.HashDistance | app/src/main/java/me/fleey/ppocrv5/ui/screen/CameraViewModel.kt:127 | the absolute difference of two fingerprints |
| Camera.IncInt | app/src/main/java/me/fleey/ppocrv5/ui/screen/CameraViewModel.kt:130 | Kotlin `Int` increment: one more below `Int.MAX_VALUE`, and always a 32-bit value |
| Camera.IncIntWraps | app/src/main/java/me/fleey/ppocrv5/ui/screen/CameraViewModel.kt:130 | the increment is addition modulo 2^32 in two's complement |
| Camera.CameraViewModel.constructor | app/src/main/java/me/fleey/ppocrv5/ui/screen/CameraViewModel.kt:50-59 | Loading, no engine, not busy, zero hash and counter |
| Camera.CameraViewModel.OnFrameReceived | app/src/main/java/me/fleey/ppocrv5/ui/screen/CameraViewModel.kt:114-139 | a frame with no engine, outside Ready or while frozen changes nothing; otherwise its fingerprint replaces the last one, a jump over 3000 resets the counter and starts nothing, the kept bitmap is present exactly when the copy succeeded, and an inference starts exactly when the frame is stable and the busy flag was clear, with the current engine |
| Camera.CameraViewModel.FinishFrame | app/src/main/java/me/fleey/ppocrv5/ui/screen/CameraViewModel.kt:156-195 | the busy flag is cleared; results and benchmark are published only while Ready, from the current engine, and when no call threw |
| Camera.CameraViewModel.InitializeEngine | app/src/main/java/me/fleey/ppocrv5/ui/screen/CameraViewModel.kt:74-112 | closes the old engine once, then ends in a fresh Ready with the accelerator the engine reports and the previous Ready resolution, or in Error(ModelLoadFailed) with no engine; the reported accelerator is saved exactly when it differs from the requested one |
| Camera.CameraViewModel.Initialize | app/src/main/java/me/fleey/ppocrv5/ui/screen/CameraViewModel.kt:66-72 | records the repository, closes any old engine once, and ends in a fresh Ready with a new engine (the saved accelerator, a Ready state's resolution, else the default) or in Error(ModelLoadFailed) with no engine; the reported accelerator is saved exactly when it differs; frame fields and captures stay |
| Camera.CameraViewModel.Retry | app/src/main/java/me/fleey/ppocrv5/ui/screen/CameraViewModel.kt:300-305 | closes any old engine once and re-initialises from the saved accelerator, ending in a fresh Ready with a new engine and the Ready resolution or in Error(ModelLoadFailed); the reported accelerator is saved exactly when it differs; every other field stays |
| Camera.CameraViewModel.OnAcceleratorChanged | app/src/main/java/me/fleey/ppocrv5/ui/screen/CameraViewModel.kt:197-210 | the same accelerator while Ready changes nothing; otherwise the choice is saved (or the reported one when it differs), the old engine is closed once, and the state is a fresh Ready with a new engine keeping the Ready resolution, or Error(ModelLoadFailed); other fields stay |
| Camera.CameraViewModel.Capture | app/src/main/java/me/fleey/ppocrv5/ui/screen/CameraViewModel.kt:252-284 | succeeds exactly with a last bitmap, a repository and a successful copy; then raises the capture flash and hands one capture over; otherwise changes nothing |
| Camera.CameraViewModel.FinishCapture | app/src/main/java/me/fleey/ppocrv5/ui/screen/CameraViewModel.kt:276-280 | lowers the capture flash |
| Camera.CameraViewModel.OnPermissionDenied | app/src/main/java/me/fleey/ppocrv5/ui/screen/CameraViewModel.kt:296-298 | the state becomes Error(CameraPermissionDenied) |
| Camera.CameraViewModel.OnCleared | app/src/main/java/me/fleey/ppocrv5/ui/screen/CameraViewModel.kt:307-313 | closes the current engine once and drops the last bitmap; the fingerprint, counter, repository, saved accelerator, state and captures stay |
| Camera.StaleFrameIsDropped | app/src/main/java/me/fleey/ppocrv5/ui/screen/CameraViewModel.kt:156-195 | results of an inference started before an engine switch are not published: the new Ready state keeps empty results |
| GalleryScreen.IdSet | app/src/main/java/me/fleey/ppocrv5/ui/screen/GalleryViewModel.kt:120 | the ids of the images, as a set |
| GalleryScreen.RemoveIds | app/src/main/java/me/fleey/ppocrv5/ui/screen/GalleryViewModel.kt:130-144 | `filter { it.id !in ids }`: exactly the images with other ids |
| GalleryScreen.RemoveSingleId | app/src/main/java/me/fleey/ppocrv5/ui/screen/GalleryViewModel.kt:77 | filtering one id removes exactly that id's records |
| GalleryScreen.RemoveIdsOfNone | app/src/main/java/me/fleey/ppocrv5/ui/screen/GalleryViewModel.kt:138 | filtering ids no image carries changes nothing |
| GalleryScreen.EnterSelectionMode | app/src/main/java/me/fleey/ppocrv5/ui/screen/GalleryViewModel.kt:85-92 | selection mode on, with exactly that id selected |
| GalleryScreen.ExitSelectionMode | app/src/main/java/me/fleey/ppocrv5/ui/screen/GalleryViewModel.kt:94-101 | selection mode off and nothing selected (also `deselectAll`) |
| GalleryScreen.ToggleSelection | app/src/main/java/me/fleey/ppocrv5/ui/screen/GalleryViewModel.kt:103-116 | flips exactly that id's membership; an emptied selection leaves selection mode, otherwise the mode is kept; nothing else changes |
| GalleryScreen.SelectAll | app/src/main/java/me/fleey/ppocrv5/ui/screen/GalleryViewModel.kt:118-122 | selects exactly the ids of the current images |
| GalleryScreen.OnImageAdded | app/src/main/java/me/fleey/ppocrv5/ui/screen/GalleryViewModel.kt:48-55 | prepends the image only if its id is absent; otherwise nothing changes |
| GalleryScreen.SelectionStaysConsistent | app/src/main/java/me/fleey/ppocrv5/ui/screen/GalleryViewModel.kt:85-116 | entering, exiting and toggling within selection mode keep "a non-empty selection means selection mode" |
| GalleryScreen.ToggleOutsideSelectionMode | app/src/main/java/me/fleey/ppocrv5/ui/screen/GalleryViewModel.kt:103-116 | toggling outside selection mode selects the id but does not turn the mode on |
| GalleryScreen.ToggleTwice | app/src/main/java/me/fleey/ppocrv5/ui/screen/GalleryViewModel.kt:103-116 | toggling an id twice restores the state when the selection is not emptied |
| GalleryScreen.OnImageAddedIdempotent | app/src/main/java/me/fleey/ppocrv5/ui/screen/GalleryViewModel.kt:48-55 | a repeated new-image event is a no-op |
| GalleryScreen.GalleryViewModel.constructor | app/src/main/java/me/fleey/ppocrv5/ui/screen/GalleryViewModel.kt:34 | an empty state |
| GalleryScreen.GalleryViewModel.LoadImages | app/src/main/java/me/fleey/ppocrv5/ui/screen/GalleryViewModel.kt:146-159 | shows the loaded list and clears the loading flag |
| GalleryScreen.GalleryViewModel.ImportImage | app/src/main/java/me/fleey/ppocrv5/ui/screen/GalleryViewModel.kt:60-69 | the image, if one was added, appears by the new-image rule, and loading is cleared |
| GalleryScreen.GalleryViewModel.DeleteImage | app/src/main/java/me/fleey/ppocrv5/ui/screen/GalleryViewModel.kt:71-83 | one repository delete; only on success are the id's images and its selection removed |
| GalleryScreen.GalleryViewModel.DeleteSelected | app/src/main/java/me/fleey/ppocrv5/ui/screen/GalleryViewModel.kt:130-144 | one delete per selected id, then all selected ids are removed from the list whatever the results, and the selection is cleared |
| ViewerState.CurrentImage | app/src/main/java/me/fleey/ppocrv5/ui/state/ImageViewerUiState.kt:32 | the image at `currentIndex`, none exactly when the index is out of range |
| ViewerState.DefaultState | app/src/main/java/me/fleey/ppocrv5/ui/state/ImageViewerUiState.kt:22-34 | the default state: not processing, no results, no error, 0x0, no event, no images, index 0, and so no paging |
| ViewerState.HasPrevious | app/src/main/java/me/fleey/ppocrv5/ui/state/ImageViewerUiState.kt:33 | on an existing page, `hasPrevious` holds exactly when the page before it exists |
| ViewerState.HasNext | app/src/main/java/me/fleey/ppocrv5/ui/state/ImageViewerUiState.kt:34 | on an existing page, `hasNext` holds exactly when the page after it exists |
| ViewerState.EmptyHasNoNext | app/src/main/java/me/fleey/ppocrv5/ui/state/ImageViewerUiState.kt:33-34 | with no images there is no next page, and a previous page only for a positive index |
| ImageViewer.StartIndex | app/src/main/java/me/fleey/ppocrv5/ui/screen/ImageViewerViewModel.kt:53-60 | the position of the id, or 0 when it is absent |
| ImageViewer.PageChanged | app/src/main/java/me/fleey/ppocrv5/ui/screen/ImageViewerViewModel.kt:69-89 | out-of-range index: no change; a cache hit shows the cached results and size, not processing; a miss shows nothing at 0x0, processing |
| ImageViewer.PageChangedShowsPage | app/src/main/java/me/fleey/ppocrv5/ui/screen/ImageViewerViewModel.kt:69-89 | a valid page change shows that page, processing exactly on a cache miss |
| ImageViewer.PageChangedIdempotent | app/src/main/java/me/fleey/ppocrv5/ui/screen/ImageViewerViewModel.kt:69-89 | repeating a page change is a no-op |
| ImageViewer.Texts | app/src/main/java/me/fleey/ppocrv5/ui/screen/ImageViewerViewModel.kt:175 | the texts of the results, in order |
| ImageViewer.AllTextLines | app/src/main/java/me/fleey/ppocrv5/ui/screen/ImageViewerViewModel.kt:175 | the copied text splits back into the result texts when none holds a line break |
| ImageViewer.AllText | app/src/main/java/me/fleey/ppocrv5/ui/screen/ImageViewerViewModel.kt:174 | the copied text is empty for no results and starts with the first result's text |
| ImageViewer.ShowsImage | app/src/main/java/me/fleey/ppocrv5/ui/screen/ImageViewerViewModel.kt:97 | a load for `id` is shown only when the current index is in range and the image there has that id |
| ImageViewer.AllTextNotBlank | app/src/main/java/me/fleey/ppocrv5/ui/screen/ImageViewerViewModel.kt:175-176 | if some result text is not blank, the joined text is not blank |
| ImageViewer.AllTextOfNothing | app/src/main/java/me/fleey/ppocrv5/ui/screen/ImageViewerViewModel.kt:175-176 | no results join to the blank empty string |
| ImageViewer.ImageViewerViewModel.constructor | app/src/main/java/me/fleey/ppocrv5/ui/screen/ImageViewerViewModel.kt:42-49 | the default state, an empty cache and no engine |
| ImageViewer.ImageViewerViewModel.Initialize | app/src/main/java/me/fleey/ppocrv5/ui/screen/ImageViewerViewModel.kt:51-67 | shows all images at the id's position (or 0) and loads the current image if there is one |
| ImageViewer.ImageViewerViewModel.OnPageChanged | app/src/main/java/me/fleey/ppocrv5/ui/screen/ImageViewerViewModel.kt:69-89 | the state is `PageChanged`; a load starts exactly for a valid page not in the cache |
| ImageViewer.ImageViewerViewModel.LoadOcrForImage | app/src/main/java/me/fleey/ppocrv5/ui/screen/ImageViewerViewModel.kt:91-157 | non-empty stored results are cached and shown with the decoded bounds, with no engine call; otherwise a failed decode or engine creation sets the error and caches nothing; otherwise the new results are cached, written back once and shown; the screen changes only while that image is current, and cache entries are never lost |
| ImageViewer.ImageViewerViewModel.CopyAllText | app/src/main/java/me/fleey/ppocrv5/ui/screen/ImageViewerViewModel.kt:173-183 | the `\n`-joined texts are copied and an event emitted only when not blank |
| ImageViewer.ImageViewerViewModel.CopyText | app/src/main/java/me/fleey/ppocrv5/ui/screen/ImageViewerViewModel.kt:185-193 | blank text is ignored; otherwise copied with an event |
| ImageViewer.ImageViewerViewModel.ClearCopyEvent | app/src/main/java/me/fleey/ppocrv5/ui/screen/ImageViewerViewModel.kt:195-197 | the event becomes none, nothing else changes |
| ImageViewer.ImageViewerViewModel.Close | app/src/main/java/me/fleey/ppocrv5/ui/screen/ImageViewerViewModel.kt:199-202 | the engine is closed once and released |
| ImageViewer.CloseTwice | app/src/main/java/me/fleey/ppocrv5/ui/screen/ImageViewerViewModel.kt:199-202 | a second close closes nothing more |
| Rolling.Last | app/src/main/java/me/fleey/ppocrv5/ui/component/BenchmarkPanel.kt:66-74 | the window: the last `n` readings, or all when fewer |
| Rolling.LastIsSuffix | app/src/main/java/me/fleey/ppocrv5/ui/component/BenchmarkPanel.kt:71-74 | the window is a suffix of the readings, in arrival order |
| Rolling.LastSnoc | app/src/main/java/me/fleey/ppocrv5/ui/component/BenchmarkPanel.kt:71-74 | a new reading evicts the oldest from a full window, then is appended; positivity is kept |
| Rolling.SumBounds | app/src/main/java/me/fleey/ppocrv5/ui/component/BenchmarkPanel.kt:80 | the sum of readings lies between count times the lower and upper bounds |
| Rolling.MeanBetween | app/src/main/java/me/fleey/ppocrv5/ui/component/BenchmarkPanel.kt:78-81 | the average lies between the smallest and largest reading |
| Rolling.Mean | app/src/main/java/me/fleey/ppocrv5/ui/component/BenchmarkPanel.kt:78-81 | the average times the count is the sum (0 for an empty window) |
| Rolling.SumPositive | app/src/main/java/me/fleey/ppocrv5/ui/component/BenchmarkPanel.kt:69-81 | a non-empty sum of positive readings is positive |
| Rolling.MeanOfPositives | app/src/main/java/me/fleey/ppocrv5/ui/component/BenchmarkPanel.kt:69-81 | the average is 0 for an empty window and positive otherwise |
| Rolling.RollingAverage.constructor | app/src/main/java/me/fleey/ppocrv5/ui/component/BenchmarkPanel.kt:66-67 | an empty window of the given size |
| Rolling.RollingAverage.Average | app/src/main/java/me/fleey/ppocrv5/ui/component/BenchmarkPanel.kt:78-81 | 0 for an empty window, otherwise sum over count, and positive then |
| Rolling.RollingAverage.Add | app/src/main/java/me/fleey/ppocrv5/ui/component/BenchmarkPanel.kt:69-76 | a reading of at most 0 changes nothing; otherwise a full window drops its oldest, the reading becomes the last, and the window never exceeds its size; returns the new average |
| Rolling.RollingAverage.Reset | app/src/main/java/me/fleey/ppocrv5/ui/component/BenchmarkPanel.kt:83-85 | empties the window |

## Left out

- File, stream, bitmap and JNI I/O: their outcomes are parameters, so the model does not check what they compute.
- `saveToMediaStore` and the MediaStore copy in `saveCapture`: platform calls; only their success or failure enters `AddImage`.
- `GalleryRepository.getAllImages`: identical to `loadImages`, which `LoadImages` models.
- `GalleryRepository.getImageIndex`: modelled by `IndexOfId`, which it calls.
- URL encoding and JSON: function parameters, so malformed-escape details and the JSON schema are not modelled.
- Floating point: box geometry, areas, confidences, fps and averages are reals, with no rounding.
- Clocks and timing: timestamps, the fps computation and the benchmark timings are parameters.
- Concurrency: the `Mutex`, the atomic flags, `SharedFlow`, coroutine scheduling and the busy-wait in `initializeEngine` are modelled as sequential steps; interleavings are not.
- `OcrProcessingManager.processNext`'s branch where `poll` returns null: it cannot happen because the queue is non-empty whenever that branch is reached, so `RunUnit` requires a non-empty queue.
- NativeEngine.SortBoxesByArea: `std::sort` is not stable and its order among equal areas is unspecified; the model uses an insertion sort and promises only non-increasing area and a permutation, as the C++ does.
- Text.ParseLong: `toLongOrNull` also accepts digits outside ASCII (other Unicode decimal digits); only ASCII digits, after an optional leading `-` or `+`, are modelled, which covers every timestamp the writer produces.
- Rolling.RollingAverage.constructor: requires a window size of at least 1; the source takes any `Int` but is only constructed with 30.
- UI composables, `WarmUp`, model-asset copying, logging and the PP-OCRv5 model's LiteRT inference internals: outside the core's logic.
- `loadImageDimensions` in the image viewer: a platform bitmap decode; its result is the `bounds` parameter of `LoadOcrForImage`.
- The error message texts: the message is a parameter.
- `GalleryUiState.kt` and the `GalleryImage` model file are not part of this model. Their fields follow from their use in `GalleryRepository.kt` and `GalleryViewModel.kt`.
- PreferencesManager: the saved accelerator type is a parameter, and a saved fallback is recorded in a field; the resolution is not persisted and comes from the Ready state.
