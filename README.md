# facefusion face analyser and face swapper, modelled in Dafny

This project models the logic around the neural networks in facefusion's face pipeline.

The **face analyser** (`facefusion/face_analyser.py`) does the following:
- It keeps a registry of six models: two face detectors, three face recognizers and the gender/age network. `get_face_analyser` opens three sessions lazily, once, into the `FACE_ANALYSER` global: a detector (an ONNX Runtime session for RetinaFace, an OpenCV `FaceDetectorYN` for YuNet), a recognizer session and a gender/age session. Later calls keep using these sessions even when the detector or recognizer setting has changed.
- It turns raw detector output into face records:
  - parsing the `"WxH"` detector size;
  - per-stride score thresholding for RetinaFace;
  - row conversion for YuNet;
  - lists of boxes, landmarks and scores kept in lockstep;
  - one `Face` per index kept by non-maximum suppression.
- It answers `get_many_faces`:
  - a per-frame cache, where a non-empty entry skips detection;
  - then sort by direction, the age filter and the gender filter, each only when its setting is set;
  - AttributeError and ValueError become the empty list.
- It builds `get_one_face` (clamp to the last face) and `find_similar_faces` (embedding distance strictly below a threshold) on top of it.

The **face swapper** frame processor (`facefusion/processors/frame/modules/face_swapper.py`) does the following:
- It keeps a table of six swapper models in three families (ghost, inswapper, simswap).
- `apply_args` chooses the face recognizer that matches the swapper.
- It has a per-family pixel normalisation pair around the swap network.
- `swap_face` fills the network's input slots by their declared names.
- `process_frame` makes its swaps in order: first the faces similar to the reference, then every face found on the frame as updated so far.
- `pre_process` runs its checks in a fixed order.
- It keeps three lazily created globals: `OPTIONS`, `FRAME_PROCESSOR` and `MODEL_MATRIX`.

The **choice lists** (`facefusion/processors/frame/choices.py`) are the command-line model names and blend ranges.

## How the model is built

**Python exceptions.** They become `Result<T> = Ok(value) | Err(ErrorKind)`, with one `ErrorKind` per exception class the code can raise. A function's error path is modelled wherever the code has one.

**Global state.** State the code changes in place is modelled as classes:
- `Analyser.FaceAnalyser` holds the analyser handle and the face cache.
- `Swapper.FaceSwapper` holds the options, the session, the matrix and a creation counter.
- `Config.Globals` holds the settings that `apply_args` writes.

Each method is proved against specification functions of the old state. For example, `GetManyFaces` is proved equal to `ManyFaces`, `CacheAfter` and `HandleAfter` of the old state.

**Loops.** The loops that append to lists become `for` loops proved equal to recursive definitions:
- the age and gender filters;
- the similarity search;
- the RetinaFace stride loop and its three append loops;
- the YuNet row loop;
- `create_faces`;
- the input slots of `swap_face`;
- the two swap loops of `process_frame`.

**Opaque collaborators.** Everything that facefusion hands to libraries or helpers not shown here enters as a function-valued field of a runtime record: `DetectorRuntime`, `RetinaDecoder`, `Suppression` and `SwapRuntime`. The recognizer and gender/age runs take the held analyser handle, so they use the sessions it holds. This covers:
- ONNX and OpenCV inference;
- non-maximum suppression;
- anchor decoding;
- resizing, warping and pasting back;
- the matrix projection.

**Files and frames.** File-system answers enter `pre_process` as a `Probes` record. A frame is a value identified by its content, which is how the face cache keys it.

**Behaviour of the code that a reader might not expect, kept in the model:**
- `filter_by_age` has cumulative bands: "teen" keeps every age below 19 and "adult" every age below 60. They do not partition the ages (`Selection.AgeBandsCumulative`).
- `normalize_crop_frame` rounds but never clips before the 8-bit cast (`Swapper.OutOfRangeIsNotClipped`). The 0..255 range is proved only for network outputs in the family's range.
- Rounding is `numpy.round`, which rounds halves to even (`Detection.RoundHalfEven`).

**Findings.** Two defects are modelled twice, as written and corrected (see "## Findings"). The rest of the model uses the corrected forms:
- `OpenAnalyser` uses the corrected recognizer key.
- `StrideCandidates` uses the corrected stride guard.

## Model

| member | source | states |
|---|---|---|
| `Common.PyIndex` | facefusion/face_analyser.py:168-170 | Python list indexing: defined exactly for `-n <= i < n`, then an index below `n` congruent to `i` modulo `n`; otherwise IndexError |
| `Selection.StableSortCorrect` | facefusion/face_analyser.py:256-266 | `sorted` with or without `reverse=True` returns a permutation, ordered by the key (non-increasing when reversed), and faces with equal keys keep their input order |
| `Selection.SortByDirectionCorrect` | facefusion/face_analyser.py:254-267 | `sort_by_direction` is a permutation; for the six known directions it is ordered by bbox[0], bbox[1] or area, stable on ties; an unknown direction returns the input itself |
| `Selection.LeftRightOrders` | facefusion/face_analyser.py:255-258 | "left-right" gives non-decreasing left edges, "right-left" non-increasing left edges |
| `Selection.FilterByAge` | facefusion/face_analyser.py:270-281 | the append loop returns exactly the order-preserving filter of the faces by the `if/elif` band test |
| `Selection.AgeFilterBands` | facefusion/face_analyser.py:270-281 | each face is kept as often as it occurs iff child and age < 13, teen and age < 19, adult and age < 60, or senior and age >= 60; any other filter value keeps nothing |
| `Selection.AgeBandsCumulative` | facefusion/face_analyser.py:273-278 | whatever "child" keeps "teen" keeps, and whatever "teen" keeps "adult" keeps |
| `Selection.FilterByGender` | facefusion/face_analyser.py:284-291 | the loop of two independent `if`s returns exactly the order-preserving filter by gender |
| `Selection.GenderFilterExact` | facefusion/face_analyser.py:284-291 | a face is kept, once per occurrence and never twice, iff female with gender 0 or male with gender 1; any other value keeps nothing |
| `Selection.SelectFacesFromInput` | facefusion/face_analyser.py:231-237 | the sort-then-age-then-gender pipeline returns a sub-multiset of its input, and the input itself when no setting is set |
| `Selection.PickFace` | facefusion/face_analyser.py:213-220 | None iff there are no faces; `faces[position]` for a position in range; the last face for a position past the end; always a face of the list |
| `Selection.PickFaceClamps` | facefusion/face_analyser.py:217-219 | every position past the end selects the same face as position `n - 1` |
| `Selection.SimilarFacesIsFilter` | facefusion/face_analyser.py:245-250 | with matching embedding lengths the search returns, in order, exactly the faces with both embeddings and `1 - dot < threshold`; a length mismatch raises ValueError |
| `Selection.CollectSimilarFaces` | facefusion/face_analyser.py:245-250 | the loop computes the recursive similarity search, including its ValueError |
| `Selection.NothingSimilarBelowZero` | facefusion/face_analyser.py:248-249 | for unit embeddings a threshold of 0 or less finds no face, not even the reference itself |
| `AnalyserRegistry.PreCheckUrls` | facefusion/face_analyser.py:83-96 | no URL when downloads are skipped; otherwise the six registry URLs in the order `pre_check` lists them |
| `AnalyserRegistry.PreCheckCoversRegistry` | facefusion/face_analyser.py:86-94 | the keys `pre_check` asks for are exactly the registry's keys, each once |
| `AnalyserRegistry.GhostRecognizerNeverOpensAsWritten` | facefusion/face_analyser.py:63-64 | the ghost key looked up is not in the registry, and opening the analyser then raises AttributeError whatever the detector |
| `AnalyserRegistry.OpenAnalyserSpec` | facefusion/face_analyser.py:56-73 | with the corrected key the sessions open iff both model names are known, from the entries they select plus `gender_age`; otherwise UnboundLocalError |
| `AnalyserRegistry.AsWrittenAgreesElsewhere` | facefusion/face_analyser.py:61-66 | for every recognizer other than ghost the code as written opens what the correction opens |
| `Analyser.FaceAnalyser.constructor` | facefusion/face_analyser.py:14 | no handle and an empty face cache |
| `Analyser.FaceAnalyser.GetFaceAnalyser` | facefusion/face_analyser.py:52-74 | a set handle is returned unchanged; otherwise the sessions are opened and the handle is kept only when opening succeeded |
| `Analyser.FaceAnalyser.ClearFaceAnalyser` | facefusion/face_analyser.py:77-80 | the handle is unset and nothing else changes |
| `Analyser.FaceAnalyser.ExtractFaces` | facefusion/face_analyser.py:99-161 | an error from opening the analyser propagates; otherwise the faces detected on the frame with the held sessions, whichever settings they were opened for |
| `Analyser.FaceAnalyser.GetManyFaces` | facefusion/face_analyser.py:223-239 | result, cache and handle are those of `get_many_faces` on the old cache and handle, detecting with the sessions of the held handle |
| `Analyser.FaceAnalyser.GetOneFace` | facefusion/face_analyser.py:213-220 | `PickFace` of the faces `get_many_faces` returns, with the same cache and handle update; its uncaught errors propagate |
| `Analyser.FaceAnalyser.FindSimilarFaces` | facefusion/face_analyser.py:242-251 | the similarity search over the faces `get_many_faces` returns, with the same cache and handle update |
| `Analyser.ManyFacesFromSource` | facefusion/face_analyser.py:231-237 | every face returned comes from the cached or extracted list, no more often than it occurs there |
| `Analyser.CacheHitSkipsExtraction` | facefusion/face_analyser.py:225-227 | a non-empty cache entry decides the result whatever the handle or detector, and leaves cache and handle unchanged |
| `Analyser.ManyFacesErrors` | facefusion/face_analyser.py:238-239 | an error escapes iff there is no usable cache entry and extraction raised something other than AttributeError or ValueError; those two give `[]` and store nothing |
| `Analyser.SecondCallUsesCache` | facefusion/face_analyser.py:228-230 | after an extraction that found faces, asking again for the frame returns the same faces whatever the detector now reports |
| `Analyser.GhostRecognizerFindsNoFacesAsWritten` | facefusion/face_analyser.py:223-239 | as written, with the ghost recognizer every uncached frame yields `[]` and the handle stays unset |
| `Analyser.GhostRecognizerOpensCorrected` | facefusion/face_analyser.py:63-64 | with the corrected key and a known detector the ghost recognizer opens and the faces come from the detector with the newly opened sessions |
| `Analyser.SwitchedDetectorFindsNothing` | facefusion/face_analyser.py:99-161 | when the detector setting names the other detector than the held session was opened for, extraction raises, so an uncached frame yields no faces, nothing is cached and the stale handle stays |
| `AnalyserRegistry.OpenedDetectorKind` | facefusion/face_analyser.py:57-60 | a freshly opened detector is OpenCV's exactly when the setting is YuNet |
| `Detection.DetectorSizeRoundTrip` | facefusion/face_analyser.py:101 | "WxH" parses back to width W first and height H second |
| `Detection.SplitCount` | facefusion/face_analyser.py:101 | `split('x')` gives one part more than there are separators |
| `Detection.DetectorSizeNeedsOneSeparator` | facefusion/face_analyser.py:101 | a size with no "x", or with two or more, raises ValueError; a size that parses has exactly one |
| `Detection.RescaleBoxAxes` | facefusion/face_analyser.py:132-138 | x coordinates scale by the width ratio and y by the height ratio, undoably, keeping corner order |
| `Detection.GridFor` | facefusion/face_analyser.py:126-128 | the grid has `height // stride` rows, `width // stride` columns and two anchors |
| `Detection.KeptRowsMembership` | facefusion/face_analyser.py:124 | a row is kept iff one of its scores is at least the threshold |
| `Detection.KeptRowsMonotone` | facefusion/face_analyser.py:124 | a higher threshold keeps a subset of the rows |
| `Detection.StrideUsedIffScoreReached` | facefusion/face_analyser.py:124-125 | with the corrected guard a stride contributes iff one of its scores reaches the threshold |
| `Detection.KeepGuardAsWrittenDropsRowZero` | facefusion/face_analyser.py:124-125 | scores `[[0.9], [0.1]]` at threshold 0.5 keep row 0, yet the guard as written skips the stride |
| `Detection.StrideCandidates` | facefusion/face_analyser.py:124-142 | one stride's boxes, landmarks and scores come out in lockstep |
| `Detection.RetinaCandidates` | facefusion/face_analyser.py:123-142 | the strides' candidates, concatenated in stride order, are in lockstep |
| `Detection.RetinaErrorPersists` | facefusion/face_analyser.py:123-142 | an exception in one stride ends the loop; later strides change nothing |
| `Detection.AppendBoxes` | facefusion/face_analyser.py:131-138 | appends the kept decoded boxes, rescaled, in kept order |
| `Detection.AppendKps` | facefusion/face_analyser.py:139-140 | appends the kept landmark sets, rescaled, in kept order |
| `Detection.AppendScores` | facefusion/face_analyser.py:141-142 | appends the first score of each kept row |
| `Detection.AppendStride` | facefusion/face_analyser.py:124-142 | one pass of the stride loop extends the three lists by that stride's candidates, or raises that stride's error |
| `Detection.ExtractRetinaCandidates` | facefusion/face_analyser.py:123-142 | the stride loop computes the candidates of all three strides, in lockstep |
| `Detection.StrideThresholdMonotone` | facefusion/face_analyser.py:124-142 | raising one stride's threshold yields a subset of its detections |
| `Detection.RetinaThresholdMonotone` | facefusion/face_analyser.py:123-142 | raising the threshold yields a subset of all RetinaFace candidates |
| `Detection.YunetBoxOrdered` | facefusion/face_analyser.py:151-157 | `x2 - x1 = w * ratio_width` and `y2 - y1 = h * ratio_height`, so corners are ordered for non-negative sizes and ratios |
| `Detection.YunetRows` | facefusion/face_analyser.py:150-159 | one lockstep entry per detection row |
| `Detection.YunetErrorPersists` | facefusion/face_analyser.py:150-159 | a malformed row ends the loop with its exception |
| `Detection.YunetCandidates` | facefusion/face_analyser.py:149-159 | the YuNet candidates are in lockstep |
| `Detection.ExtractYunetCandidates` | facefusion/face_analyser.py:143-159 | the row loop computes the YuNet candidates, including IndexError, ValueError and AttributeError |
| `Detection.RoundHalfEven` | facefusion/face_analyser.py:209 | the rounded value is within one half of its argument, strictly nearer when the fraction is not one half, and even on a tie |
| `Detection.DecodeGenderAge` | facefusion/face_analyser.py:208-209 | gender 1 iff the second output exceeds the first, otherwise 0; age within one half of `100 * prediction[2]`; ValueError or IndexError on short output |
| `Detection.AssembleErrorPersists` | facefusion/face_analyser.py:167-181 | a failing kept index ends `create_faces` with its exception |
| `Detection.CreateFaces` | facefusion/face_analyser.py:164-182 | the loop assembles one face per suppression-kept index, in the order returned |
| `Detection.AssembledFacesFromSameIndex` | facefusion/face_analyser.py:167-181 | for valid kept indices, face k takes box, landmarks and score from the same kept index; only a short gender/age output makes it fail |
| `Detection.DetectorCandidates` | facefusion/face_analyser.py:110-159 | the chosen detector branch yields lockstep lists; an unknown detector yields none; RetinaFace raises ValueError when the padding fails, then AttributeError on an OpenCV session (no `run`); YuNet raises AttributeError on an ONNX session (no `setInputSize`) |
| `Detection.DetectFaces` | facefusion/face_analyser.py:101-161 | the statements of `extract_faces` from the size parse on compute the extracted faces |
| `Choices.ArangeSpec` | facefusion/processors/frame/choices.py:9-10 | `arange(a, b)` has `b - a` elements counting up by one from `a` |
| `Choices.BlendRanges` | facefusion/processors/frame/choices.py:9-10 | both blend ranges are 0..100 ascending, 101 elements, and nothing else |
| `Choices.ChoiceListsDistinct` | facefusion/processors/frame/choices.py:5-7 | the three model lists have 6, 6 and 3 entries, without duplicates |
| `SwapperModels.ParseKeyRoundTrip` | facefusion/processors/frame/choices.py:5 | the six model names and the enumeration correspond one to one |
| `SwapperModels.DescriptorByFamily` | facefusion/processors/frame/modules/face_swapper.py:26-76 | every model has a descriptor whose name, template and size depend only on its family |
| `SwapperModels.ChoicesAreTableKeys` | facefusion/processors/frame/choices.py:5 | the choices are exactly the table's six keys, each parses, and the default `inswapper_128` is among them |
| `SwapperModels.ApplyArgsMapping` | facefusion/processors/frame/modules/face_swapper.py:137-142 | a known model takes exactly one branch and installs its family's recognizer; any other name takes none and leaves it alone |
| `SwapperModels.EveryChoiceHandled` | facefusion/processors/frame/modules/face_swapper.py:137-142 | every command-line choice takes exactly one branch |
| `SwapperModels.ApplyArgs` | facefusion/processors/frame/modules/face_swapper.py:134-142 | stores the swapper model and sets only the recognizer, as the three `if`s in turn leave it |
| `SwapperModels.ApplyArgsRecognizerOpens` | facefusion/processors/frame/modules/face_swapper.py:137-142 | with the corrected key, the recognizer chosen for any swapper opens, given a known detector |
| `SwapperModels.GhostSwapperBreaksAnalyserAsWritten` | facefusion/processors/frame/modules/face_swapper.py:137-138 | as written, after any ghost swapper the analyser raises AttributeError on opening |
| `Swapper.NormalizeUndoesPrepare` | facefusion/processors/frame/modules/face_swapper.py:219-234 | for each family the output scaling undoes the input scaling on every integer pixel |
| `Swapper.CropFrameRoundTrip` | facefusion/processors/frame/modules/face_swapper.py:217-236 | normalising a prepared crop returns the crop exactly: scalings, channel reversals and transposes cancel |
| `Swapper.NormalizeValueRange` | facefusion/processors/frame/modules/face_swapper.py:231-234 | a value in [-1, 1] (ghost) or [0, 1] (others) rounds into 0..255 |
| `Swapper.NormalizedCropInRange` | facefusion/processors/frame/modules/face_swapper.py:228-236 | an in-range network output normalises to a height, width, channel array of values in 0..255 |
| `Swapper.OutOfRangeIsNotClipped` | facefusion/processors/frame/modules/face_swapper.py:231-235 | nothing clips: 2.0 becomes 510 for inswapper and -2.0 becomes -128 for ghost |
| `Swapper.InputMapFails` | facefusion/processors/frame/modules/face_swapper.py:191-198 | filling the inputs fails iff `source_embedding` is declared and there is no normed embedding, and then with AttributeError |
| `Swapper.InputMapSlots` | facefusion/processors/frame/modules/face_swapper.py:191-198 | the map holds exactly the declared names among source, source_embedding and target, each with its own value |
| `Swapper.InputMapIgnoresProjection` | facefusion/processors/frame/modules/face_swapper.py:192-194 | without a declared `source` the projected embedding is never used |
| `Swapper.FirstFailure` | facefusion/processors/frame/modules/face_swapper.py:153-174 | None iff every check passes; otherwise the status of a failing check with every earlier check passing |
| `Swapper.PreProcessFirstFailure` | facefusion/processors/frame/modules/face_swapper.py:153-174 | `pre_process` returns True iff all six checks pass and otherwise reports the first failing check's status, once |
| `Swapper.PreProcessModeScope` | facefusion/processors/frame/modules/face_swapper.py:168-173 | outside output and preview the target and output probes do not matter; in preview the output path does not |
| `Swapper.GhostSwapperRejectsSourceAsWritten` | facefusion/processors/frame/modules/face_swapper.py:165-167 | as written, a ghost swapper always fails `pre_process` at the source face check |
| `Swapper.SwapWithIgnoresProjection` | facefusion/processors/frame/modules/face_swapper.py:185-202 | a session without a `source` input swaps the same whatever the projected embedding |
| `Swapper.FaceSwapper.Valid` | facefusion/processors/frame/modules/face_swapper.py:80-127 | the invariant every method keeps: options, once created, hold the `model` entry; a session or matrix exists only once the options do, since both are created from `get_options('model')` |
| `Swapper.FaceSwapper.constructor` | facefusion/processors/frame/modules/face_swapper.py:22-23 | options, session and matrix all unset |
| `Swapper.FaceSwapper.GetOptions` | facefusion/processors/frame/modules/face_swapper.py:113-121 | the options are created from the table only on first use (KeyError for an unknown model); the value under the key is returned |
| `Swapper.FaceSwapper.SetOptions` | facefusion/processors/frame/modules/face_swapper.py:124-127 | overwrites only the given key; on unset options raises TypeError and changes nothing |
| `Swapper.FaceSwapper.GetFrameProcessor` | facefusion/processors/frame/modules/face_swapper.py:80-87 | a set session is returned unchanged; otherwise one new session is created from the model path, or KeyError leaves it unset |
| `Swapper.FaceSwapper.ClearFrameProcessor` | facefusion/processors/frame/modules/face_swapper.py:90-93 | the session is unset |
| `Swapper.FaceSwapper.GetModelMatrix` | facefusion/processors/frame/modules/face_swapper.py:96-104 | a loaded matrix is returned unchanged; otherwise one new matrix is read from the model path, or KeyError leaves it unset |
| `Swapper.FaceSwapper.ClearModelMatrix` | facefusion/processors/frame/modules/face_swapper.py:107-110 | the matrix is unset |
| `Swapper.FaceSwapper.PostProcess` | facefusion/processors/frame/modules/face_swapper.py:177-180 | session, matrix and analyser handle are all unset |
| `Swapper.FaceSwapper.FillInputs` | facefusion/processors/frame/modules/face_swapper.py:191-198 | the loop computes the input map with the projection of the matrix it loads for `source`, keeping a loaded matrix |
| `Swapper.FaceSwapper.SwapFace` | facefusion/processors/frame/modules/face_swapper.py:185-202 | KeyError when no session or options can be created; otherwise the swap with the session, descriptor and matrix left in place, replacing nothing that was set |
| `Swapper.FaceSwapper.SwapNext` | facefusion/processors/frame/modules/face_swapper.py:248-249 | one swap extends the record of swaps done with the same state |
| `Swapper.FaceSwapper.SwapEach` | facefusion/processors/frame/modules/face_swapper.py:243-244 | frame k+1 is frame k with target k swapped in, starting from the given frame and ending at the result |
| `Swapper.FaceSwapper.SwapReferenceFaces` | facefusion/processors/frame/modules/face_swapper.py:240-244 | without `reference` in the mode the frame is unchanged; otherwise the similar faces are swapped in the order found |
| `Swapper.FaceSwapper.SwapManyFaces` | facefusion/processors/frame/modules/face_swapper.py:245-249 | without `many` the frame and the analyser are unchanged; otherwise the analyser's cache and handle are those `get_many_faces` leaves on the current frame, and every face it finds is swapped in order, continuing the record |
| `Swapper.FaceSwapper.ProcessFrame` | facefusion/processors/frame/modules/face_swapper.py:239-250 | the similar faces are swapped first, then every face found on the updated frame, one swap per similar face plus one per face found; the frame is unchanged when neither mode is set; the analyser state after each pass is the one `get_many_faces` leaves on that pass's frame, and a failed reference pass skips the many pass |
| `Swapper.FaceSwapper.PreProcess` | facefusion/processors/frame/modules/face_swapper.py:153-174 | the options are created as `get_options` creates them; KeyError when they cannot be, with the analyser untouched; otherwise the ordered decision under the `skip_download` setting, the analyser asked for the source face only once the file checks pass, and then its cache and handle updated as `get_many_faces` updates them |

## Left out

- Inference and OpenCV are not modelled. ONNX Runtime sessions, `FaceDetectorYN`, `onnx.load`, `numpy_helper` and `cv2.dnn.NMSBoxes` are foreign code and appear only as function-valued parameters. Nothing is proved about what they compute, such as intersection-over-union.
- `warp_face`, `paste_back`, `create_static_anchors`, `distance_to_bbox`, `distance_to_kps` and `resize_frame_dimension` live in files that are not part of this model. They are opaque parameters too.
- The face cache functions `get_faces_cache` and `set_faces_cache` are not part of this model. The cache is a map from frame to face list.
- `calc_embedding` is an opaque description. This covers `calc_embedding`'s L2 normalisation, the matrix projection of `prepare_source_face`, and the value of the gender/age network output.
- The detector's input normalisation and padding (lines 114-117) are reduced to their ValueError condition. Their arithmetic only feeds the opaque network.
- Floating point is modelled with unbounded reals. The float32 and uint8 casts and their wrap-around are not modelled. Where the uint8 cast matters, the range lemma requires in-range network outputs.
- Threads are not modelled. `THREAD_LOCK`, `THREAD_SEMAPHORE` and the process pool exist for concurrency, and the globals are modelled sequentially.
- I/O is left out:
  - `conditional_download`, `is_download_done`, `is_file`, `is_image` and `is_video` are not modelled. Their answers are the `Probes` inputs of `pre_process`.
  - `read_static_image` is not modelled; the source frame is a parameter.
  - `update_status` is not modelled; the emitted status is the returned value.
- The swapper's `pre_check` (face_swapper.py:145-150) only downloads and returns True. It is not modelled.
- `process_frames`, `process_image`, `process_video` and `register_args` are command-line and file plumbing. They are not modelled.
- `clear_content_analyser` and `read_static_image.cache_clear` in `post_process` act on modules that are not part of this model.
- `int()` is modelled for an optional sign followed by decimal digits. It does not model surrounding whitespace or `_` digit separators.
- `Face` (facefusion/typing.py, not part of this model) is a named tuple, so both `hasattr` tests in `find_similar_faces` always hold. The model makes `normedEmbedding` optional, so that a face without one is representable, and such a face is skipped. A missing normed embedding in `swap_face` raises AttributeError, as `None.reshape` would.
- The face selector mode is modelled as a string with Python's substring `in`.
- Swapper.FaceSwapper.PreProcess: reads the options twice, as the code does, but returns the decision at the end rather than returning at each branch. The decision is the same, and `Swapper.PreProcessFirstFailure` proves it is the first failing check.
- Swapper.FaceSwapper.SwapFace: when the session or the matrix is first created during the call, the contract does not say which one (path and serial) was created. It states the result in terms of whatever session and matrix are then in place.
- GetManyFaces, and everything built on `ManyFaces` (`ExtractOutcome`, `ProcessFrame`, `PreProcess`): opens the analyser with the corrected recognizer key, so for `face_recognizer_model = 'ghost_arcface'` these rows describe the corrected program. The code as written is modelled only by `OpenAnalyserAsWritten` and the lemmas under "## Findings".
- StrideCandidates, and everything built on it (`RetinaCandidates`, `ExtractedFaces`, `GetManyFaces`): uses the corrected stride guard, so for a stride where only row 0 passes the threshold these rows describe the corrected program. The guard as written is modelled only by `KeepGuardAsWritten`.
- Config.Globals.constructor: stands for the settings modules `facefusion.globals` and `frame_processors_globals`, which are not part of this model. It takes the initial settings as given.
- The runtime functions in `SwapRuntime` take the session but not the options changed by `set_options`. A swap therefore depends on the descriptor only through `options["model"]`, which is what `swap_face` reads.

## Findings

Both findings are shown twice, as written and corrected:
- The recognizer key: `AnalyserRegistry.RecognizerKeyAsWritten` with `OpenAnalyserAsWritten`, against `RecognizerKey` with `OpenAnalyser`. Its consequences are `Analyser.GhostRecognizerFindsNoFacesAsWritten`, `SwapperModels.GhostSwapperBreaksAnalyserAsWritten` and `Swapper.GhostSwapperRejectsSourceAsWritten`.
- The stride guard: `Detection.KeepGuardAsWritten` against `Detection.KeepGuard`.

| source | as written | input that shows it | evidently intended | confidence | as-written member | corrected member |
|---|---|---|---|---|---|---|
| facefusion/face_analyser.py:64 | the ghost recognizer is looked up as `face_recognizer_arcface_ghost`, which the registry (line 34) does not have; `.get('path')` on None raises AttributeError, which `get_many_faces` turns into no faces | `face_recognizer_model = 'ghost_arcface'`, which `apply_args` sets for every `ghost_unet_*` swapper | look up `face_recognizer_ghost_arcface` | high; not executed | `AnalyserRegistry.GhostRecognizerNeverOpensAsWritten` | `AnalyserRegistry.OpenAnalyserSpec` |
| facefusion/face_analyser.py:125 | `keep_indices.any()` asks whether some kept row index is non-zero, so a stride whose only kept row is row 0 is skipped | scores `[[0.9], [0.1]]`, threshold 0.5: `keep_indices == [0]`, the stride is dropped | test whether any row was kept (`keep_indices.size > 0`) | medium; not executed | `Detection.KeepGuardAsWrittenDropsRowZero` | `Detection.StrideUsedIffScoreReached` |
