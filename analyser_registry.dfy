/** The model registry of the face analyser and the opening of its three
    sessions (detector, recognizer, gender/age) by `get_face_analyser`. The
    sessions themselves are opaque; a handle records which registry entries
    they were created from. */
module AnalyserRegistry {
  import opened Common

  /** A registry entry: download URL and the model path relative to the
      package (`resolve_relative_path` is left to the file system). */
  datatype ModelSource = ModelSource(url: string, path: string)

  const AnalyserModels: map<string, ModelSource> := map[
    "face_detector_retinaface" := ModelSource(
      "https://github.com/facefusion/facefusion-assets/releases/download/models/retinaface_10g.onnx",
      "../.assets/models/retinaface_10g.onnx"),
    "face_detector_yunet" := ModelSource(
      "https://github.com/facefusion/facefusion-assets/releases/download/models/yunet_2023mar.onnx",
      "../.assets/models/face_detection_yunet_2023mar.onnx"),
    "face_recognizer_inswapper_webface" := ModelSource(
      "https://github.com/facefusion/facefusion-assets/releases/download/models/webface_600k_r50.onnx",
      "../.assets/models/webface_600k_r50.onnx"),
    "face_recognizer_ghost_arcface" := ModelSource(
      "https://github.com/harisreedhar/Face-Swappers-ONNX/releases/download/ghost/ghost_arcface_backbone.onnx",
      "../.assets/models/ghost_arcface_backbone.onnx"),
    "face_recognizer_simswap_arcface" := ModelSource(
      "https://github.com/facefusion/facefusion-assets/releases/download/models/simswap_arcface.onnx",
      "../.assets/models/simswap_arcface.onnx"),
    "gender_age" := ModelSource(
      "https://github.com/facefusion/facefusion-assets/releases/download/models/gender_age.onnx",
      "../.assets/models/gender_age.onnx")
  ]

  /** The registry keys whose URLs `pre_check` downloads, in its order. */
  const PreCheckKeys: seq<string> := [
    "face_detector_retinaface", "face_detector_yunet", "face_recognizer_inswapper_webface",
    "face_recognizer_ghost_arcface", "face_recognizer_simswap_arcface", "gender_age"
  ]

  /** `pre_check`: the URLs handed to the downloader, none when downloads are
      skipped. Every key it looks up is in the registry, so the list has no gaps. */
  function PreCheckUrls(skipDownload: bool): (urls: seq<string>)
    ensures skipDownload ==> urls == []
    ensures !skipDownload ==> |urls| == |PreCheckKeys|
    ensures !skipDownload ==> forall k :: 0 <= k < |urls| ==>
      PreCheckKeys[k] in AnalyserModels && urls[k] == AnalyserModels[PreCheckKeys[k]].url
  {
    if skipDownload then []
    else seq(|PreCheckKeys|, k requires 0 <= k < |PreCheckKeys| => AnalyserModels[PreCheckKeys[k]].url)
  }

  /** `pre_check` asks for every registry entry exactly once. */
  lemma PreCheckCoversRegistry()
    ensures AnalyserModels.Keys == set k | k in PreCheckKeys
    ensures forall i, j :: 0 <= i < j < |PreCheckKeys| ==> PreCheckKeys[i] != PreCheckKeys[j]
  {
  }

  /** The registry key of the detector session for `face_detector_model`;
      None when no branch matches and `face_detector` stays unbound. */
  function DetectorKey(detectorModel: string): Option<string> {
    if detectorModel == "retinaface" then Some("face_detector_retinaface")
    else if detectorModel == "yunet" then Some("face_detector_yunet")
    else None
  }

  /** The registry key of the recognizer session as the code looks it up: the
      ghost branch asks for "face_recognizer_arcface_ghost". */
  function RecognizerKeyAsWritten(recognizerModel: string): Option<string> {
    if recognizerModel == "inswapper_webface" then Some("face_recognizer_inswapper_webface")
    else if recognizerModel == "ghost_arcface" then Some("face_recognizer_arcface_ghost")
    else if recognizerModel == "simswap_arcface" then Some("face_recognizer_simswap_arcface")
    else None
  }

  /** The evidently intended lookup: `face_recognizer_` followed by the model name. */
  function RecognizerKey(recognizerModel: string): Option<string> {
    if recognizerModel == "inswapper_webface" || recognizerModel == "ghost_arcface" || recognizerModel == "simswap_arcface"
    then Some("face_recognizer_" + recognizerModel)
    else None
  }

  /** The three sessions, identified by the registry entries they were created from. */
  datatype AnalyserHandle = AnalyserHandle(detector: ModelSource, recognizer: ModelSource, genderAge: ModelSource)

  /** The YuNet entry is opened as OpenCV's `FaceDetectorYN`, which has no
      `run`; every other session is an ONNX Runtime session, which has no
      `setInputSize`. */
  predicate IsOpenCvDetector(h: AnalyserHandle) {
    h.detector == AnalyserModels["face_detector_yunet"]
  }

  /** `MODELS.get(key).get('path')`: a missing key gives None, whose `.get`
      raises AttributeError. */
  function LookupSource(key: string): Result<ModelSource> {
    if key in AnalyserModels then Ok(AnalyserModels[key]) else Err(AttributeError)
  }

  /** Opening when the session is a branch that may not run: no key means the
      variable stays unbound. */
  function OpenOptional(key: Option<string>): Result<Option<ModelSource>> {
    match key
    case None => Ok(None)
    case Some(k) => var source :- LookupSource(k); Ok(Some(source))
  }

  /** The body of `get_face_analyser` under `FACE_ANALYSER is None`, for a
      given way of naming the recognizer: detector first, then recognizer,
      then gender/age, and only then the dictionary, where an unbound detector
      or recognizer raises UnboundLocalError. */
  function OpenAnalyserWith(detectorModel: string, recognizerModel: string,
                            recognizerKey: string -> Option<string>): Result<AnalyserHandle> {
    var detector :- OpenOptional(DetectorKey(detectorModel));
    var recognizer :- OpenOptional(recognizerKey(recognizerModel));
    var genderAge :- LookupSource("gender_age");
    if detector.None? || recognizer.None? then Err(UnboundLocalError)
    else Ok(AnalyserHandle(detector.value, recognizer.value, genderAge))
  }

  function OpenAnalyserAsWritten(detectorModel: string, recognizerModel: string): Result<AnalyserHandle> {
    OpenAnalyserWith(detectorModel, recognizerModel, RecognizerKeyAsWritten)
  }

  /** The analyser with the corrected recognizer key; the rest of the model opens this one. */
  function OpenAnalyser(detectorModel: string, recognizerModel: string): Result<AnalyserHandle> {
    OpenAnalyserWith(detectorModel, recognizerModel, RecognizerKey)
  }

  /** As written, choosing the ghost recognizer makes every opening raise
      AttributeError, whatever the detector: the key it asks for is not in
      the registry, which spells it "face_recognizer_ghost_arcface". */
  lemma GhostRecognizerNeverOpensAsWritten(detectorModel: string)
    ensures "face_recognizer_arcface_ghost" !in AnalyserModels
    ensures OpenAnalyserAsWritten(detectorModel, "ghost_arcface") == Err(AttributeError)
  {
  }

  /** With the corrected key the analyser opens exactly when both model names
      are known, and the handle is built from the registry entries the names
      select; otherwise the unbound variable raises UnboundLocalError. */
  lemma OpenAnalyserSpec(detectorModel: string, recognizerModel: string)
    ensures OpenAnalyser(detectorModel, recognizerModel).Ok? <==>
      DetectorKey(detectorModel).Some? && RecognizerKey(recognizerModel).Some?
    ensures OpenAnalyser(detectorModel, recognizerModel).Err? ==>
      OpenAnalyser(detectorModel, recognizerModel) == Err(UnboundLocalError)
    ensures OpenAnalyser(detectorModel, recognizerModel).Ok? ==>
      && DetectorKey(detectorModel).value in AnalyserModels
      && RecognizerKey(recognizerModel).value in AnalyserModels
      && OpenAnalyser(detectorModel, recognizerModel).value == AnalyserHandle(
           AnalyserModels[DetectorKey(detectorModel).value],
           AnalyserModels[RecognizerKey(recognizerModel).value],
           AnalyserModels["gender_age"])
  {
    var rk := RecognizerKey(recognizerModel);
    if rk.Some? {
      assert rk.value in AnalyserModels by {
        if recognizerModel == "inswapper_webface" {
          assert rk.value == "face_recognizer_inswapper_webface";
        } else if recognizerModel == "ghost_arcface" {
          assert rk.value == "face_recognizer_ghost_arcface";
        } else {
          assert rk.value == "face_recognizer_simswap_arcface";
        }
      }
    }
  }

  /** A freshly opened detector is of the kind its model name calls for:
      OpenCV's for YuNet, ONNX Runtime's for RetinaFace. */
  lemma OpenedDetectorKind(detectorModel: string, recognizerModel: string)
    ensures OpenAnalyser(detectorModel, recognizerModel).Ok? ==>
      (IsOpenCvDetector(OpenAnalyser(detectorModel, recognizerModel).value) <==> detectorModel == "yunet")
  {
    OpenAnalyserSpec(detectorModel, recognizerModel);
  }

  /** The defect is confined to the ghost recognizer: for every other model
      name the code as written opens the same sessions as the correction. */
  lemma AsWrittenAgreesElsewhere(detectorModel: string, recognizerModel: string)
    requires recognizerModel != "ghost_arcface"
    ensures OpenAnalyserAsWritten(detectorModel, recognizerModel) == OpenAnalyser(detectorModel, recognizerModel)
  {
    if recognizerModel == "inswapper_webface" {
      assert "face_recognizer_" + recognizerModel == "face_recognizer_inswapper_webface";
    } else if recognizerModel == "simswap_arcface" {
      assert "face_recognizer_" + recognizerModel == "face_recognizer_simswap_arcface";
    }
    assert RecognizerKeyAsWritten(recognizerModel) == RecognizerKey(recognizerModel);
  }
}
