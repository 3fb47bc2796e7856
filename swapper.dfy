/** The swap engine of the face swapper frame processor: the per-family pixel
    normalisation around the swap network, the network's input slots, the
    ordered checks of `pre_process`, and the lazily created options, session
    and embedding matrix with the operations that use them. */
module Swapper {
  import opened Common
  import opened Faces
  import opened Detection
  import opened Selection
  import opened Config
  import opened AnalyserRegistry
  import opened Analyser
  import opened SwapperModels

  // ---------------------------------------------------------------------------
  // Pixel tensors
  // ---------------------------------------------------------------------------

  /** A three-dimensional array, outermost axis first. */
  type Grid<T> = seq<seq<seq<T>>>

  /** `t` has shape `(a, b, c)`. */
  predicate IsBox<T>(t: Grid<T>, a: nat, b: nat, c: nat) {
    |t| == a && forall i :: 0 <= i < a ==> |t[i]| == b && forall j :: 0 <= j < b ==> |t[i][j]| == c
  }

  function Map3<T, U>(t: Grid<T>, f: T -> U): Grid<U> {
    seq(|t|, i requires 0 <= i < |t| =>
      seq(|t[i]|, j requires 0 <= j < |t[i]| =>
        seq(|t[i][j]|, k requires 0 <= k < |t[i][j]| => f(t[i][j][k]))))
  }

  /** `t[:, :, ::-1]`: the channel axis reversed (RGB to BGR and back). */
  function ReverseLast<T>(t: Grid<T>): Grid<T> {
    seq(|t|, i requires 0 <= i < |t| =>
      seq(|t[i]|, j requires 0 <= j < |t[i]| =>
        seq(|t[i][j]|, k requires 0 <= k < |t[i][j]| => t[i][j][|t[i][j]| - 1 - k])))
  }

  /** The second and third extent of an array, read from its first entries. */
  function Extent1<T>(t: Grid<T>): nat {
    if |t| > 0 then |t[0]| else 0
  }

  function Extent2<T>(t: Grid<T>): nat {
    if |t| > 0 && |t[0]| > 0 then |t[0][0]| else 0
  }

  function At(t: Grid<real>, i: int, j: int, k: int): real {
    if 0 <= i < |t| && 0 <= j < |t[i]| && 0 <= k < |t[i][j]| then t[i][j][k] else 0.0
  }

  /** `t.transpose(2, 0, 1)`: height, width, channels to channels, height, width. */
  function Transpose201(t: Grid<real>): Grid<real> {
    seq(Extent2(t), k => seq(|t|, i => seq(Extent1(t), j => At(t, i, j, k))))
  }

  /** `t.transpose(1, 2, 0)`: channels, height, width to height, width, channels. */
  function Transpose120(t: Grid<real>): Grid<real> {
    seq(Extent1(t), i => seq(Extent2(t), j => seq(|t|, k => At(t, k, i, j))))
  }

  predicate IsGhost(name: string) {
    name == "ghost"
  }

  /** The input scaling: ghost models take `p / 127.5 - 1`, the others `p / 255`. */
  function PrepareValue(name: string, p: int): real {
    if IsGhost(name) then p as real / 127.5 - 1.0 else p as real / 255.0
  }

  /** The output scaling, rounded as `ndarray.round` does. */
  function NormalizeValue(name: string, v: real): int {
    if IsGhost(name) then RoundHalfEven(v * 127.5 + 127.5) else RoundHalfEven(v * 255.0)
  }

  /** `prepare_crop_frame`: scale, reverse the channels, move them first, and
      add a batch axis. */
  function PrepareCropFrame(name: string, crop: Grid<int>): seq<Grid<real>> {
    [Transpose201(ReverseLast(Map3(crop, (p: int) => PrepareValue(name, p))))]
  }

  /** `normalize_crop_frame`: move the channels last, scale and round, and
      reverse the channels. */
  function NormalizeCropFrame(name: string, t: Grid<real>): Grid<int> {
    ReverseLast(Map3(Transpose120(t), (v: real) => NormalizeValue(name, v)))
  }

  lemma NormalizeUndoesPrepare(name: string, p: int)
    ensures NormalizeValue(name, PrepareValue(name, p)) == p
  {
    if IsGhost(name) {
      assert (p as real / 127.5 - 1.0) * 127.5 + 127.5 == p as real;
    } else {
      assert (p as real / 255.0) * 255.0 == p as real;
    }
    RoundIntegral(p);
  }

  lemma GridExtensional<T>(x: Grid<T>, y: Grid<T>, a: nat, b: nat, c: nat)
    requires IsBox(x, a, b, c) && IsBox(y, a, b, c)
    requires forall i, j, k :: 0 <= i < a && 0 <= j < b && 0 <= k < c ==> x[i][j][k] == y[i][j][k]
    ensures x == y
  {
    forall i | 0 <= i < a ensures x[i] == y[i] {
      forall j | 0 <= j < b ensures x[i][j] == y[i][j] {
      }
    }
  }

  /** Normalising what was prepared gives back every 8-bit crop exactly: the
      scalings are inverse over the reals, and the two channel reversals and
      the two transposes cancel. */
  lemma CropFrameRoundTrip(name: string, crop: Grid<int>, h: nat, w: nat, c: nat)
    requires h > 0 && w > 0 && c > 0 && IsBox(crop, h, w, c)
    ensures NormalizeCropFrame(name, PrepareCropFrame(name, crop)[0]) == crop
  {
    var scaled := Map3(crop, (p: int) => PrepareValue(name, p));
    var reversed := ReverseLast(scaled);
    assert IsBox(reversed, h, w, c);
    var prepared := Transpose201(reversed);
    assert Extent1(reversed) == w && Extent2(reversed) == c;
    assert IsBox(prepared, c, h, w);
    var back := Transpose120(prepared);
    assert Extent1(prepared) == h && Extent2(prepared) == w;
    assert IsBox(back, h, w, c);
    forall i, j, k | 0 <= i < h && 0 <= j < w && 0 <= k < c
      ensures back[i][j][k] == PrepareValue(name, crop[i][j][c - 1 - k])
    {
    }
    var rounded := Map3(back, (v: real) => NormalizeValue(name, v));
    var result := ReverseLast(rounded);
    assert IsBox(result, h, w, c);
    forall i, j, k | 0 <= i < h && 0 <= j < w && 0 <= k < c
      ensures result[i][j][k] == crop[i][j][k]
    {
      NormalizeUndoesPrepare(name, crop[i][j][k]);
    }
    GridExtensional(result, crop, h, w, c);
  }

  /** The range the network is meant to produce: [-1, 1] for ghost models,
      [0, 1] for the others. */
  predicate InOutputRange(name: string, v: real) {
    if IsGhost(name) then -1.0 <= v <= 1.0 else 0.0 <= v <= 1.0
  }

  lemma NormalizeValueRange(name: string, v: real)
    requires InOutputRange(name, v)
    ensures 0 <= NormalizeValue(name, v) <= 255
  {
    var n := NormalizeValue(name, v);
    var x := if IsGhost(name) then v * 127.5 + 127.5 else v * 255.0;
    assert 0.0 <= x <= 255.0;
    assert x - 0.5 <= n as real <= x + 0.5;
  }

  /** An output whose values lie in the family's range lands in 0..255, in
      the same height, width and channel shape. */
  lemma NormalizedCropInRange(name: string, t: Grid<real>, c: nat, h: nat, w: nat)
    requires c > 0 && h > 0 && w > 0 && IsBox(t, c, h, w)
    requires forall k, i, j :: 0 <= k < c && 0 <= i < h && 0 <= j < w ==> InOutputRange(name, t[k][i][j])
    ensures IsBox(NormalizeCropFrame(name, t), h, w, c)
    ensures forall i, j, k :: 0 <= i < h && 0 <= j < w && 0 <= k < c ==>
      0 <= NormalizeCropFrame(name, t)[i][j][k] <= 255
  {
    var moved := Transpose120(t);
    assert Extent1(t) == h && Extent2(t) == w;
    assert IsBox(moved, h, w, c);
    forall i, j, k | 0 <= i < h && 0 <= j < w && 0 <= k < c
      ensures 0 <= NormalizeCropFrame(name, t)[i][j][k] <= 255
    {
      NormalizeValueRange(name, t[c - 1 - k][i][j]);
    }
  }

  /** No clipping happens before the 8-bit cast: an output of 2.0 from a
      non-ghost model becomes 510. */
  lemma OutOfRangeIsNotClipped()
    ensures NormalizeValue("inswapper", 2.0) == 510
    ensures NormalizeValue("ghost", -2.0) == -128
  {
  }

  // ---------------------------------------------------------------------------
  // The swap network's input slots
  // ---------------------------------------------------------------------------

  /** What a declared input receives: the matrix-projected raw embedding, the
      normed embedding, or the prepared crop. */
  datatype SlotValue =
    | SourceSlot(projected: seq<real>)
    | EmbeddingSlot(normed: seq<real>)
    | TargetSlot(crop: seq<Grid<real>>)

  predicate IsSlotName(name: string) {
    name == "source" || name == "source_embedding" || name == "target"
  }

  /** The loop over the declared input names; a missing normed embedding
      raises AttributeError at the `source_embedding` slot. */
  function InputMap(names: seq<string>, projected: seq<real>, normed: Option<seq<real>>,
                    crop: seq<Grid<real>>): Result<map<string, SlotValue>> {
    if names == [] then Ok(map[])
    else
      var inputs :- InputMap(names[..|names| - 1], projected, normed, crop);
      var name := names[|names| - 1];
      if name == "source" then Ok(inputs[name := SourceSlot(projected)])
      else if name == "source_embedding" then
        if normed.None? then Err(AttributeError) else Ok(inputs[name := EmbeddingSlot(normed.value)])
      else if name == "target" then Ok(inputs[name := TargetSlot(crop)])
      else Ok(inputs)
  }

  /** The input map fails exactly when `source_embedding` is declared and the
      face has no normed embedding, and then with AttributeError. */
  lemma {:induction false} InputMapFails(names: seq<string>, projected: seq<real>, normed: Option<seq<real>>,
                                         crop: seq<Grid<real>>)
    ensures InputMap(names, projected, normed, crop).Err? <==> "source_embedding" in names && normed.None?
    ensures InputMap(names, projected, normed, crop).Err? ==> InputMap(names, projected, normed, crop).error == AttributeError
  {
    if names != [] {
      var init := names[..|names| - 1];
      InputMapFails(init, projected, normed, crop);
      assert names == init + [names[|names| - 1]];
    }
  }

  /** The input map holds exactly the declared names among `source`,
      `source_embedding` and `target`, each with its own value. */
  lemma {:induction false} InputMapSlots(names: seq<string>, projected: seq<real>, normed: Option<seq<real>>,
                                         crop: seq<Grid<real>>)
    ensures InputMap(names, projected, normed, crop).Ok? ==>
      var inputs := InputMap(names, projected, normed, crop).value;
      && (forall n :: n in inputs <==> n in names && IsSlotName(n))
      && ("source" in inputs ==> inputs["source"] == SourceSlot(projected))
      && ("source_embedding" in inputs ==> normed.Some? && inputs["source_embedding"] == EmbeddingSlot(normed.value))
      && ("target" in inputs ==> inputs["target"] == TargetSlot(crop))
  {
    if names != [] {
      var init := names[..|names| - 1];
      InputMapSlots(init, projected, normed, crop);
      assert names == init + [names[|names| - 1]];
    }
  }

  /** Without a declared `source` slot the projected embedding is never used. */
  lemma {:induction false} InputMapIgnoresProjection(names: seq<string>, p1: seq<real>, p2: seq<real>,
                                                     normed: Option<seq<real>>, crop: seq<Grid<real>>)
    requires "source" !in names
    ensures InputMap(names, p1, normed, crop) == InputMap(names, p2, normed, crop)
  {
    if names != [] {
      var init := names[..|names| - 1];
      assert forall n :: n in init ==> n in names;
      InputMapIgnoresProjection(init, p1, p2, normed, crop);
    }
  }

  // ---------------------------------------------------------------------------
  // pre_process
  // ---------------------------------------------------------------------------

  /** The status messages `pre_process` can emit. */
  datatype Status =
    | ModelDownloadNotDone
    | ModelFileNotPresent
    | SelectImageSource
    | NoSourceFaceDetected
    | SelectImageOrVideoTarget
    | SelectFileOrDirectoryOutput

  /** The file-system answers `pre_process` depends on. */
  datatype Probes = Probes(
    downloadDone: bool,
    modelFilePresent: bool,
    sourceIsImage: bool,
    targetIsImage: bool,
    targetIsVideo: bool,
    outputPathSet: bool)

  /** The decision of `pre_process` under the `skip_download` setting: None
      when it returns True, or the single status it emits before returning False. */
  function PreProcessDecision(mode: string, skipDownload: bool, p: Probes, sourceFaceFound: bool): Option<Status> {
    if !skipDownload && !p.downloadDone then Some(ModelDownloadNotDone)
    else if !p.modelFilePresent then Some(ModelFileNotPresent)
    else if !p.sourceIsImage then Some(SelectImageSource)
    else if !sourceFaceFound then Some(NoSourceFaceDetected)
    else if (mode == "output" || mode == "preview") && !p.targetIsImage && !p.targetIsVideo then Some(SelectImageOrVideoTarget)
    else if mode == "output" && !p.outputPathSet then Some(SelectFileOrDirectoryOutput)
    else None
  }

  /** One named check: whether it passes and the status emitted when it does not. */
  datatype Check = Check(passes: bool, status: Status)

  /** The checks of `pre_process` as an ordered list; the target check applies
      only to the output and preview modes, the output path check only to the
      output mode. */
  function Checks(mode: string, skipDownload: bool, p: Probes, sourceFaceFound: bool): seq<Check> {
    [ Check(skipDownload || p.downloadDone, ModelDownloadNotDone),
      Check(p.modelFilePresent, ModelFileNotPresent),
      Check(p.sourceIsImage, SelectImageSource),
      Check(sourceFaceFound, NoSourceFaceDetected),
      Check(!(mode == "output" || mode == "preview") || p.targetIsImage || p.targetIsVideo, SelectImageOrVideoTarget),
      Check(mode != "output" || p.outputPathSet, SelectFileOrDirectoryOutput) ]
  }

  /** The status of the first check that fails. */
  function FirstFailure(checks: seq<Check>): (r: Option<Status>)
    ensures r.None? <==> forall k :: 0 <= k < |checks| ==> checks[k].passes
    ensures r.Some? ==> exists k :: (0 <= k < |checks| && !checks[k].passes && checks[k].status == r.value
      && forall m :: 0 <= m < k ==> checks[m].passes)
  {
    if checks == [] then None
    else if !checks[0].passes then Some(checks[0].status)
    else
      var rest := FirstFailure(checks[1..]);
      assert forall k :: 1 <= k < |checks| ==> checks[k] == checks[1..][k - 1];
      if rest.Some? then
        var k :| 0 <= k < |checks[1..]| && !checks[1..][k].passes && checks[1..][k].status == rest.value
          && forall m :: 0 <= m < k ==> checks[1..][m].passes;
        assert !checks[k + 1].passes && checks[k + 1].status == rest.value;
        rest
      else rest
  }

  /** `pre_process` returns True exactly when every check passes, and
      otherwise emits the status of the first failing check, once. */
  lemma PreProcessFirstFailure(mode: string, skipDownload: bool, p: Probes, sourceFaceFound: bool)
    ensures PreProcessDecision(mode, skipDownload, p, sourceFaceFound)
      == FirstFailure(Checks(mode, skipDownload, p, sourceFaceFound))
    ensures PreProcessDecision(mode, skipDownload, p, sourceFaceFound).None? <==>
      forall k :: 0 <= k < 6 ==> Checks(mode, skipDownload, p, sourceFaceFound)[k].passes
  {
    var checks := Checks(mode, skipDownload, p, sourceFaceFound);
    assert checks[5..][1..] == [];
    assert FirstFailure(checks[5..]) == if !checks[5].passes then Some(checks[5].status) else None;
    forall k | 0 <= k < 5
      ensures FirstFailure(checks[k..]) ==
        if !checks[k].passes then Some(checks[k].status) else FirstFailure(checks[k + 1..])
    {
      assert checks[k..][1..] == checks[k + 1..];
    }
    assert checks[0..] == checks;
  }

  /** Outside the output and preview modes the target and output probes do
      not matter; in preview mode the output path does not. */
  lemma PreProcessModeScope(mode: string, skipDownload: bool, p: Probes, q: Probes, sourceFaceFound: bool)
    requires p.(targetIsImage := q.targetIsImage, targetIsVideo := q.targetIsVideo, outputPathSet := q.outputPathSet) == q
    ensures mode != "output" && mode != "preview" ==>
      PreProcessDecision(mode, skipDownload, p, sourceFaceFound) == PreProcessDecision(mode, skipDownload, q, sourceFaceFound)
    ensures mode == "preview" && p.targetIsImage == q.targetIsImage && p.targetIsVideo == q.targetIsVideo ==>
      PreProcessDecision(mode, skipDownload, p, sourceFaceFound) == PreProcessDecision(mode, skipDownload, q, sourceFaceFound)
  {
  }

  /** When the file checks pass, the source face probe is reached. */
  predicate ReachesSourceFace(skipDownload: bool, p: Probes) {
    (skipDownload || p.downloadDone) && p.modelFilePresent && p.sourceIsImage
  }

  /** As written, any ghost swapper is rejected at the source face check: the
      analyser cannot open, so no face is ever found. */
  lemma GhostSwapperRejectsSourceAsWritten(m: SwapperModel, mode: string, p: Probes, cache: FaceCache,
                                           sourceFrame: Frame, s: Settings, rt: DetectorRuntime)
    requires FamilyOf(m) == Ghost && ReachesSourceFace(s.skipDownload, p) && CacheHit(cache, sourceFrame).None?
    requires s.faceRecognizerModel == RecognizerAfterArgs(s.faceRecognizerModel, Key(m))
    ensures var many := ManyFacesWith(cache, None, OpenAnalyserAsWritten(s.faceDetectorModel, s.faceRecognizerModel),
                                      sourceFrame, s, rt);
      many == Ok([]) && PreProcessDecision(mode, s.skipDownload, p, many.value != []) == Some(NoSourceFaceDetected)
  {
    ApplyArgsMapping(Key(m), s.faceRecognizerModel);
    GhostRecognizerFindsNoFacesAsWritten(cache, sourceFrame, s, rt);
  }

  // ---------------------------------------------------------------------------
  // The lazily created options, session and matrix
  // ---------------------------------------------------------------------------

  /** An inference session, by model path and by the order in which it was created. */
  datatype Session = Session(modelPath: string, serial: nat)

  /** The embedding projection matrix read from a model file, likewise. */
  datatype ModelMatrix = ModelMatrix(modelPath: string, serial: nat)

  type Options = map<string, ModelDescriptor>

  /** `OPTIONS.get(key)`. */
  function OptionsGet(options: Options, key: string): Option<ModelDescriptor> {
    if key in options then Some(options[key]) else None
  }

  /** `get_options('model')`: the stored descriptor, or on first use the table
      entry of the chosen swapper model (KeyError when it has none). */
  function ModelOf(options: Option<Options>, swapperModel: string): Result<ModelDescriptor>
    requires options.Some? ==> "model" in options.value
  {
    if options.Some? then Ok(options.value["model"])
    else if swapperModel in SwapperModelTable then Ok(SwapperModelTable[swapperModel])
    else Err(KeyError)
  }

  function OptionsAfter(options: Option<Options>, swapperModel: string): Option<Options> {
    if options.Some? then options
    else if swapperModel in SwapperModelTable then Some(map["model" := SwapperModelTable[swapperModel]])
    else None
  }

  /** The opaque collaborators of `swap_face`. */
  datatype SwapRuntime = SwapRuntime(
    warp: (Frame, Kps, string, (int, int)) -> (Grid<int>, seq<seq<real>>),   // warp_face: crop and affine matrix
    inputNames: Session -> seq<string>,                                     // frame_processor.get_inputs()
    project: (seq<real>, ModelMatrix) -> seq<real>,                         // prepare_source_face's projection
    run: (Session, map<string, SlotValue>) -> Grid<real>,                   // frame_processor.run(...)[0][0]
    pasteBack: (Frame, Grid<int>, seq<seq<real>>) -> Frame)                 // paste_back

  /** The projected source embedding, once the matrix is loaded. */
  function Projection(matrix: Option<ModelMatrix>, source: Face, rt: SwapRuntime): seq<real> {
    if matrix.Some? then rt.project(source.embedding, matrix.value) else []
  }

  /** One swap with the session, descriptor and projection in hand: warp the
      target face out, prepare it, fill the input slots, run the network,
      normalise its output and paste it back. */
  function SwapWith(session: Session, d: ModelDescriptor, projected: seq<real>, source: Face, target: Face,
                    frame: Frame, rt: SwapRuntime): Result<Frame> {
    var warped := rt.warp(frame, target.kps, d.template, d.size);
    var inputs :- InputMap(rt.inputNames(session), projected, source.normedEmbedding, PrepareCropFrame(d.name, warped.0));
    Ok(rt.pasteBack(frame, NormalizeCropFrame(d.name, rt.run(session, inputs)), warped.1))
  }

  lemma SwapWithIgnoresProjection(session: Session, d: ModelDescriptor, p1: seq<real>, p2: seq<real>,
                                  source: Face, target: Face, frame: Frame, rt: SwapRuntime)
    requires "source" !in rt.inputNames(session)
    ensures SwapWith(session, d, p1, source, target, frame, rt) == SwapWith(session, d, p2, source, target, frame, rt)
  {
    var warped := rt.warp(frame, target.kps, d.template, d.size);
    InputMapIgnoresProjection(rt.inputNames(session), p1, p2, source.normedEmbedding, PrepareCropFrame(d.name, warped.0));
  }

  /** Frame `k + 1` is what swapping target `k` into frame `k` gives with the
      given session, options and matrix. */
  predicate SwapStep(session: Session, options: Options, matrix: Option<ModelMatrix>, source: Face,
                     targets: seq<Face>, frames: seq<Frame>, rt: SwapRuntime, k: int)
    requires "model" in options && 0 <= k < |targets| && k + 1 < |frames|
  {
    SwapWith(session, options["model"], Projection(matrix, source, rt), source, targets[k], frames[k], rt) == Ok(frames[k + 1])
  }

  /** The record of swaps done: every frame after the first is the previous
      one with the next target swapped in. */
  predicate Replays(fp: Option<Session>, options: Option<Options>, matrix: Option<ModelMatrix>, source: Face,
                    targets: seq<Face>, frames: seq<Frame>, rt: SwapRuntime) {
    && |frames| == |targets| + 1
    && (targets != [] ==>
          && fp.Some? && options.Some? && "model" in options.value
          && ("source" in rt.inputNames(fp.value) ==> matrix.Some?)
          && forall k :: 0 <= k < |targets| ==> SwapStep(fp.value, options.value, matrix, source, targets, frames, rt, k))
  }

  /** Swaps replayed against a state stay replayed once the session and the
      options are fixed and a loaded matrix is kept. */
  lemma ReplaysCarryOver(fp: Option<Session>, options: Option<Options>, m0: Option<ModelMatrix>, m1: Option<ModelMatrix>,
                         source: Face, targets: seq<Face>, frames: seq<Frame>, rt: SwapRuntime)
    requires Replays(fp, options, m0, source, targets, frames, rt) && targets != []
    requires m0.Some? ==> m1 == m0
    ensures Replays(fp, options, m1, source, targets, frames, rt)
  {
    if "source" !in rt.inputNames(fp.value) {
      forall k | 0 <= k < |targets|
        ensures SwapStep(fp.value, options.value, m1, source, targets, frames, rt, k)
      {
        assert SwapStep(fp.value, options.value, m0, source, targets, frames, rt, k);
        SwapWithIgnoresProjection(fp.value, options.value["model"], Projection(m0, source, rt), Projection(m1, source, rt),
                                  source, targets[k], frames[k], rt);
      }
    }
  }

  /** One more swap, done with the same state, extends the record. */
  lemma ReplaysExtend(fp: Option<Session>, options: Option<Options>, matrix: Option<ModelMatrix>, source: Face,
                      targets: seq<Face>, frames: seq<Frame>, target: Face, next: Frame, rt: SwapRuntime)
    requires Replays(fp, options, matrix, source, targets, frames, rt)
    requires fp.Some? && options.Some? && "model" in options.value
    requires "source" in rt.inputNames(fp.value) ==> matrix.Some?
    requires SwapWith(fp.value, options.value["model"], Projection(matrix, source, rt), source, target,
                      frames[|frames| - 1], rt) == Ok(next)
    ensures Replays(fp, options, matrix, source, targets + [target], frames + [next], rt)
  {
    var ts, fs := targets + [target], frames + [next];
    forall k | 0 <= k < |ts|
      ensures SwapStep(fp.value, options.value, matrix, source, ts, fs, rt, k)
    {
      if k < |targets| {
        assert SwapStep(fp.value, options.value, matrix, source, targets, frames, rt, k);
        assert ts[k] == targets[k] && fs[k] == frames[k] && fs[k + 1] == frames[k + 1];
      }
    }
  }

  /** A swap that left a started record's state in place, or that started
      the record, extends it. */
  lemma ReplaysStep(fp0: Option<Session>, op0: Option<Options>, m0: Option<ModelMatrix>,
                    fp1: Option<Session>, op1: Option<Options>, m1: Option<ModelMatrix>, source: Face,
                    targets: seq<Face>, frames: seq<Frame>, target: Face, next: Frame, rt: SwapRuntime)
    requires Replays(fp0, op0, m0, source, targets, frames, rt)
    requires targets != [] ==> fp1 == fp0 && op1 == op0 && (m0.Some? ==> m1 == m0)
    requires fp1.Some? && op1.Some? && "model" in op1.value
    requires "source" in rt.inputNames(fp1.value) ==> m1.Some?
    requires SwapWith(fp1.value, op1.value["model"], Projection(m1, source, rt), source, target,
                      frames[|frames| - 1], rt) == Ok(next)
    ensures Replays(fp1, op1, m1, source, targets + [target], frames + [next], rt)
  {
    if targets != [] {
      ReplaysCarryOver(fp0, op0, m0, m1, source, targets, frames, rt);
    }
    ReplaysExtend(fp1, op1, m1, source, targets, frames, target, next, rt);
  }

  /** What the reference branch of `process_frame` leaves behind: nothing
      when the selector mode does not mention `reference`; otherwise the
      analyser state after `get_many_faces` on the frame and, when the branch
      succeeded, the similar faces found on it. */
  predicate ReferencePass(cache0: FaceCache, handle0: Option<AnalyserHandle>, frame: Frame, s: Settings,
                          drt: DetectorRuntime, reference: Face, succeeded: bool, similar: seq<Face>,
                          cache1: FaceCache, handle1: Option<AnalyserHandle>) {
    && (!Contains(s.faceSelectorMode, "reference") ==> similar == [] && cache1 == cache0 && handle1 == handle0)
    && (Contains(s.faceSelectorMode, "reference") ==>
          && cache1 == CacheAfter(cache0, handle0, frame, s, drt)
          && handle1 == HandleAfter(cache0, handle0, frame, s))
    && (Contains(s.faceSelectorMode, "reference") && succeeded ==>
          && ManyFaces(cache0, handle0, frame, s, drt).Ok?
          && SimilarFaces(ManyFaces(cache0, handle0, frame, s, drt).value, reference, s.referenceFaceDistance) == Ok(similar))
  }

  /** What the many branch of `process_frame` leaves behind: nothing when
      the selector mode does not mention `many`; otherwise the analyser state
      after `get_many_faces` on the frame and, when the branch succeeded,
      every face it returns, which are the faces swapped. */
  predicate ManyPass(cache0: FaceCache, handle0: Option<AnalyserHandle>, frame: Frame, s: Settings,
                     drt: DetectorRuntime, succeeded: bool, many: seq<Face>,
                     cache1: FaceCache, handle1: Option<AnalyserHandle>) {
    && (!Contains(s.faceSelectorMode, "many") ==> many == [] && cache1 == cache0 && handle1 == handle0)
    && (Contains(s.faceSelectorMode, "many") ==>
          && cache1 == CacheAfter(cache0, handle0, frame, s, drt)
          && handle1 == HandleAfter(cache0, handle0, frame, s))
    && (Contains(s.faceSelectorMode, "many") && succeeded ==> ManyFaces(cache0, handle0, frame, s, drt) == Ok(many))
  }

  /** Two records where the second starts at the last frame of the first
      join into one, provided the second left a started first record's state
      in place. */
  lemma ReplaysConcat(fp0: Option<Session>, op0: Option<Options>, m0: Option<ModelMatrix>,
                      fp1: Option<Session>, op1: Option<Options>, m1: Option<ModelMatrix>, source: Face,
                      t1: seq<Face>, f1: seq<Frame>, t2: seq<Face>, f2: seq<Frame>, rt: SwapRuntime)
    requires Replays(fp0, op0, m0, source, t1, f1, rt)
    requires Replays(fp1, op1, m1, source, t2, f2, rt)
    requires f1[|f1| - 1] == f2[0]
    requires t1 != [] ==> fp1 == fp0 && op1 == op0 && (m0.Some? ==> m1 == m0)
    ensures Replays(fp1, op1, m1, source, t1 + t2, f1 + f2[1..], rt)
  {
    if t1 != [] {
      ReplaysCarryOver(fp0, op0, m0, m1, source, t1, f1, rt);
    }
    var ts, fs := t1 + t2, f1 + f2[1..];
    if ts != [] {
      forall k | 0 <= k < |ts|
        ensures SwapStep(fp1.value, op1.value, m1, source, ts, fs, rt, k)
      {
        if k < |t1| {
          assert SwapStep(fp1.value, op1.value, m1, source, t1, f1, rt, k);
          assert ts[k] == t1[k] && fs[k] == f1[k] && fs[k + 1] == f1[k + 1];
        } else {
          var j := k - |t1|;
          assert SwapStep(fp1.value, op1.value, m1, source, t2, f2, rt, j);
          assert ts[k] == t2[j] && fs[k] == f2[j] && fs[k + 1] == f2[j + 1];
        }
      }
    }
  }

  class FaceSwapper {
    var options: Option<Options>
    var frameProcessor: Option<Session>
    var modelMatrix: Option<ModelMatrix>
    /** How many sessions and matrices have been created so far. */
    var loads: nat

    /** Options, once created, always hold the model descriptor; a session or
        matrix exists only after the options, and each was created earlier. */
    predicate Valid()
      reads this
    {
      && (options.Some? ==> "model" in options.value)
      && (frameProcessor.Some? || modelMatrix.Some? ==> options.Some?)
      && (frameProcessor.Some? ==> frameProcessor.value.serial < loads)
      && (modelMatrix.Some? ==> modelMatrix.value.serial < loads)
    }

    constructor()
      ensures Valid()
      ensures options == None && frameProcessor == None && modelMatrix == None && loads == 0
    {
      options := None;
      frameProcessor := None;
      modelMatrix := None;
      loads := 0;
    }

    /** `get_options(key)`: initialise the options on first use only. */
    method GetOptions(swapperModel: string, key: string) returns (r: Result<Option<ModelDescriptor>>)
      requires Valid()
      modifies this`options
      ensures Valid()
      ensures options == OptionsAfter(old(options), swapperModel)
      ensures old(options).None? && swapperModel !in SwapperModelTable ==> r == Err(KeyError)
      ensures options.Some? ==> r == Ok(OptionsGet(options.value, key))
    {
      if options.None? {
        if swapperModel !in SwapperModelTable {
          return Err(KeyError);
        }
        options := Some(map["model" := SwapperModelTable[swapperModel]]);
      }
      return Ok(OptionsGet(options.value, key));
    }

    /** `set_options(key, value)`: overwrite one key; item assignment on unset
        options raises TypeError. */
    method SetOptions(key: string, value: ModelDescriptor) returns (r: Result<()>)
      requires Valid()
      modifies this`options
      ensures Valid()
      ensures old(options).None? ==> r == Err(TypeError) && options == None
      ensures old(options).Some? ==> r == Ok(()) && options == Some(old(options).value[key := value])
    {
      if options.None? {
        return Err(TypeError);
      }
      options := Some(options.value[key := value]);
      return Ok(());
    }

    /** `get_frame_processor`: create the session once, from the model path. */
    method GetFrameProcessor(swapperModel: string) returns (r: Result<Session>)
      requires Valid()
      modifies this`frameProcessor, this`options, this`loads
      ensures Valid()
      ensures old(frameProcessor).Some? ==>
        r == Ok(old(frameProcessor).value) && frameProcessor == old(frameProcessor) && options == old(options) && loads == old(loads)
      ensures old(frameProcessor).None? ==> options == OptionsAfter(old(options), swapperModel)
      ensures old(frameProcessor).None? && ModelOf(old(options), swapperModel).Err? ==>
        r == Err(KeyError) && frameProcessor == None && loads == old(loads)
      ensures old(frameProcessor).None? && ModelOf(old(options), swapperModel).Ok? ==>
        && r == Ok(Session(ModelOf(old(options), swapperModel).value.path, old(loads)))
        && frameProcessor == Some(r.value) && loads == old(loads) + 1
    {
      if frameProcessor.None? {
        var model := GetOptions(swapperModel, "model");
        if model.Err? {
          return Err(model.error);
        }
        frameProcessor := Some(Session(model.value.value.path, loads));
        loads := loads + 1;
      }
      return Ok(frameProcessor.value);
    }

    method ClearFrameProcessor()
      requires Valid()
      modifies this`frameProcessor
      ensures Valid() && frameProcessor == None
    {
      frameProcessor := None;
    }

    /** `get_model_matrix`: read the matrix once, from the model path. */
    method GetModelMatrix(swapperModel: string) returns (r: Result<ModelMatrix>)
      requires Valid()
      modifies this`modelMatrix, this`options, this`loads
      ensures Valid()
      ensures old(modelMatrix).Some? ==>
        r == Ok(old(modelMatrix).value) && modelMatrix == old(modelMatrix) && options == old(options) && loads == old(loads)
      ensures old(modelMatrix).None? ==> options == OptionsAfter(old(options), swapperModel)
      ensures old(modelMatrix).None? && ModelOf(old(options), swapperModel).Err? ==>
        r == Err(KeyError) && modelMatrix == None && loads == old(loads)
      ensures old(modelMatrix).None? && ModelOf(old(options), swapperModel).Ok? ==>
        && r == Ok(ModelMatrix(ModelOf(old(options), swapperModel).value.path, old(loads)))
        && modelMatrix == Some(r.value) && loads == old(loads) + 1
    {
      if modelMatrix.None? {
        var model := GetOptions(swapperModel, "model");
        if model.Err? {
          return Err(model.error);
        }
        modelMatrix := Some(ModelMatrix(model.value.value.path, loads));
        loads := loads + 1;
      }
      return Ok(modelMatrix.value);
    }

    method ClearModelMatrix()
      requires Valid()
      modifies this`modelMatrix
      ensures Valid() && modelMatrix == None
    {
      modelMatrix := None;
    }

    /** `post_process`: drop the session, the matrix and the analyser handle. */
    method PostProcess(analyser: FaceAnalyser)
      requires Valid()
      modifies this`frameProcessor, this`modelMatrix, analyser`handle
      ensures Valid()
      ensures frameProcessor == None && modelMatrix == None && analyser.handle == None
    {
      ClearFrameProcessor();
      ClearModelMatrix();
      analyser.ClearFaceAnalyser();
    }

    /** The input loop of `swap_face`: fill the slot of each declared name, in
        order, loading the matrix the first time `source` comes up. */
    method FillInputs(names: seq<string>, source: Face, crop: seq<Grid<real>>, swapperModel: string, rt: SwapRuntime)
      returns (r: Result<map<string, SlotValue>>)
      requires Valid() && options.Some?
      modifies this`modelMatrix, this`options, this`loads
      ensures Valid() && options == old(options)
      ensures old(modelMatrix).Some? ==> modelMatrix == old(modelMatrix)
      ensures r.Ok? && "source" in names ==> modelMatrix.Some?
      ensures r == InputMap(names, Projection(modelMatrix, source, rt), source.normedEmbedding, crop)
    {
      var inputs: map<string, SlotValue> := map[];
      for i := 0 to |names|
        invariant Valid() && options == old(options)
        invariant old(modelMatrix).Some? ==> modelMatrix == old(modelMatrix)
        invariant modelMatrix.Some? || "source" !in names[..i]
        invariant InputMap(names[..i], Projection(modelMatrix, source, rt), source.normedEmbedding, crop) == Ok(inputs)
      {
        var name := names[i];
        assert names[..i + 1] == names[..i] + [name];
        assert names[..i + 1][..i] == names[..i];
        if name == "source" {
          ghost var m0 := modelMatrix;
          var matrix := GetModelMatrix(swapperModel);
          if m0.None? {
            InputMapIgnoresProjection(names[..i], Projection(m0, source, rt), Projection(modelMatrix, source, rt),
                                      source.normedEmbedding, crop);
          }
          inputs := inputs[name := SourceSlot(rt.project(source.embedding, matrix.value))];
        }
        if name == "source_embedding" {
          if source.normedEmbedding.None? {
            InputMapFails(names, Projection(modelMatrix, source, rt), source.normedEmbedding, crop);
            return Err(AttributeError);
          }
          inputs := inputs[name := EmbeddingSlot(source.normedEmbedding.value)];
        }
        if name == "target" {
          inputs := inputs[name := TargetSlot(crop)];
        }
      }
      assert names[..|names|] == names;
      return Ok(inputs);
    }

    /** `swap_face`. After the session exists, the result is `SwapWith` on the
        state left behind; no state that was set is replaced. */
    method SwapFace(source: Face, target: Face, frame: Frame, swapperModel: string, rt: SwapRuntime)
      returns (r: Result<Frame>)
      requires Valid()
      modifies this`frameProcessor, this`options, this`loads, this`modelMatrix
      ensures Valid()
      ensures old(frameProcessor).Some? ==> frameProcessor == old(frameProcessor)
      ensures old(options).Some? ==> options == old(options)
      ensures old(modelMatrix).Some? ==> modelMatrix == old(modelMatrix)
      ensures r.Err? ==> r.error == KeyError || r.error == AttributeError
      ensures old(frameProcessor).None? && ModelOf(old(options), swapperModel).Err? ==> r == Err(KeyError)
      ensures !(old(frameProcessor).None? && ModelOf(old(options), swapperModel).Err?) ==>
        && frameProcessor.Some? && options.Some? && "model" in options.value
        && r == SwapWith(frameProcessor.value, options.value["model"], Projection(modelMatrix, source, rt),
                         source, target, frame, rt)
        && (r.Ok? && "source" in rt.inputNames(frameProcessor.value) ==> modelMatrix.Some?)
    {
      var fp := GetFrameProcessor(swapperModel);
      if fp.Err? {
        return Err(fp.error);
      }
      var session := fp.value;
      var model := GetOptions(swapperModel, "model");
      var d := model.value.value;
      var warped := rt.warp(frame, target.kps, d.template, d.size);
      var crop := PrepareCropFrame(d.name, warped.0);
      var inputs := FillInputs(rt.inputNames(session), source, crop, swapperModel, rt);
      if inputs.Err? {
        InputMapFails(rt.inputNames(session), Projection(modelMatrix, source, rt), source.normedEmbedding, crop);
        return Err(inputs.error);
      }
      var output := rt.run(session, inputs.value);
      r := Ok(rt.pasteBack(frame, NormalizeCropFrame(d.name, output), warped.1));
    }

    /** One swap of the loop in `process_frame`, extending the record of swaps. */
    method SwapNext(source: Face, target: Face, frame: Frame, swapperModel: string, rt: SwapRuntime,
                    ghost doneTargets: seq<Face>, ghost doneFrames: seq<Frame>)
      returns (r: Result<Frame>)
      requires Valid()
      requires Replays(frameProcessor, options, modelMatrix, source, doneTargets, doneFrames, rt)
      requires doneFrames[|doneFrames| - 1] == frame
      modifies this`frameProcessor, this`options, this`loads, this`modelMatrix
      ensures Valid()
      ensures old(frameProcessor).Some? ==> frameProcessor == old(frameProcessor)
      ensures old(options).Some? ==> options == old(options)
      ensures old(modelMatrix).Some? ==> modelMatrix == old(modelMatrix)
      ensures r.Err? ==> r.error == KeyError || r.error == AttributeError
      ensures r.Ok? ==> Replays(frameProcessor, options, modelMatrix, source, doneTargets + [target], doneFrames + [r.value], rt)
    {
      ghost var fp0, op0, m0 := frameProcessor, options, modelMatrix;
      r := SwapFace(source, target, frame, swapperModel, rt);
      if r.Ok? {
        ReplaysStep(fp0, op0, m0, frameProcessor, options, modelMatrix, source, doneTargets, doneFrames, target, r.value, rt);
      }
    }

    /** The swap loop of `process_frame`: swap each target into the frame in
        turn; frame `k + 1` of the record is frame `k` with target `k` swapped in. */
    method SwapEach(source: Face, targets: seq<Face>, frame: Frame, swapperModel: string, rt: SwapRuntime)
      returns (r: Result<Frame>, ghost frames: seq<Frame>)
      requires Valid()
      modifies this`frameProcessor, this`options, this`loads, this`modelMatrix
      ensures Valid()
      ensures old(frameProcessor).Some? ==> frameProcessor == old(frameProcessor)
      ensures old(options).Some? ==> options == old(options)
      ensures old(modelMatrix).Some? ==> modelMatrix == old(modelMatrix)
      ensures r.Err? ==> r.error == KeyError || r.error == AttributeError
      ensures r.Ok? ==> && Replays(frameProcessor, options, modelMatrix, source, targets, frames, rt)
                        && frames[0] == frame && r.value == frames[|frames| - 1]
    {
      var temp := frame;
      frames := [frame];
      for i := 0 to |targets|
        invariant Valid()
        invariant old(frameProcessor).Some? ==> frameProcessor == old(frameProcessor)
        invariant old(options).Some? ==> options == old(options)
        invariant old(modelMatrix).Some? ==> modelMatrix == old(modelMatrix)
        invariant Replays(frameProcessor, options, modelMatrix, source, targets[..i], frames, rt)
        invariant frames[0] == frame && temp == frames[|frames| - 1]
      {
        var next := SwapNext(source, targets[i], temp, swapperModel, rt, targets[..i], frames);
        if next.Err? {
          return Err(next.error), frames;
        }
        assert targets[..i + 1] == targets[..i] + [targets[i]];
        frames := frames + [next.value];
        temp := next.value;
      }
      assert targets[..|targets|] == targets;
      return Ok(temp), frames;
    }

    /** The reference branch of `process_frame`: when the selector mode
        mentions `reference`, swap every face of the frame that is similar to
        the reference, in the order they were found. */
    method SwapReferenceFaces(source: Face, reference: Face, frame: Frame, s: Settings, swapperModel: string,
                              analyser: FaceAnalyser, drt: DetectorRuntime, rt: SwapRuntime)
      returns (r: Result<Frame>, ghost similar: seq<Face>, ghost frames: seq<Frame>)
      requires Valid()
      modifies this`frameProcessor, this`options, this`loads, this`modelMatrix, analyser
      ensures Valid()
      ensures !Contains(s.faceSelectorMode, "reference") ==> r == Ok(frame) && frames == [frame]
      ensures ReferencePass(old(analyser.cache), old(analyser.handle), frame, s, drt, reference, r.Ok?, similar,
                            analyser.cache, analyser.handle)
      ensures r.Ok? ==>
        && Replays(frameProcessor, options, modelMatrix, source, similar, frames, rt)
        && frames[0] == frame && r.value == frames[|frames| - 1]
    {
      similar, frames := [], [frame];
      if !Contains(s.faceSelectorMode, "reference") {
        return Ok(frame), similar, frames;
      }
      var found := analyser.FindSimilarFaces(frame, reference, s.referenceFaceDistance, s, drt);
      if found.Err? {
        return Err(found.error), similar, frames;
      }
      var selected := found.value;
      similar := selected;
      if selected == [] {
        return Ok(frame), similar, frames;
      }
      r, frames := SwapEach(source, selected, frame, swapperModel, rt);
    }

    /** The many branch of `process_frame`: when the selector mode mentions
        `many`, swap every face found on the frame as it stands, extending the
        record of swaps done before. */
    method SwapManyFaces(source: Face, frame: Frame, s: Settings, swapperModel: string,
                         analyser: FaceAnalyser, drt: DetectorRuntime, rt: SwapRuntime,
                         ghost doneTargets: seq<Face>, ghost doneFrames: seq<Frame>)
      returns (r: Result<Frame>, ghost many: seq<Face>, ghost frames: seq<Frame>)
      requires Valid()
      requires Replays(frameProcessor, options, modelMatrix, source, doneTargets, doneFrames, rt)
      requires doneFrames[|doneFrames| - 1] == frame
      modifies this`frameProcessor, this`options, this`loads, this`modelMatrix, analyser
      ensures Valid()
      ensures !Contains(s.faceSelectorMode, "many") ==> r == Ok(frame)
      ensures ManyPass(old(analyser.cache), old(analyser.handle), frame, s, drt, r.Ok?, many,
                       analyser.cache, analyser.handle)
      ensures r.Ok? ==>
        && Replays(frameProcessor, options, modelMatrix, source, doneTargets + many, frames, rt)
        && frames[0] == doneFrames[0] && frames[|doneFrames| - 1] == frame && r.value == frames[|frames| - 1]
    {
      many, frames := [], doneFrames;
      assert doneTargets + many == doneTargets;
      if !Contains(s.faceSelectorMode, "many") {
        return Ok(frame), many, frames;
      }
      var got := analyser.GetManyFaces(frame, s, drt);
      if got.Err? {
        return Err(got.error), many, frames;
      }
      var everyFace := got.value;
      many := everyFace;
      if everyFace == [] {
        return Ok(frame), many, frames;
      }
      ghost var fp0, op0, m0 := frameProcessor, options, modelMatrix;
      ghost var more;
      r, more := SwapEach(source, everyFace, frame, swapperModel, rt);
      if r.Ok? {
        ReplaysConcat(fp0, op0, m0, frameProcessor, options, modelMatrix, source, doneTargets, doneFrames, everyFace, more, rt);
        frames := doneFrames + more[1..];
      }
    }

    /** `process_frame`: with `reference` in the selector mode, swap every face
        similar to the reference in order; then with `many`, swap every face
        `get_many_faces` finds on the frame as updated so far. */
    method ProcessFrame(source: Face, reference: Face, frame: Frame, s: Settings, swapperModel: string,
                        analyser: FaceAnalyser, drt: DetectorRuntime, rt: SwapRuntime)
      returns (r: Result<Frame>, ghost similar: seq<Face>, ghost many: seq<Face>, ghost frames: seq<Frame>,
               ghost referenceDone: bool, ghost midFrame: Frame,
               ghost midCache: FaceCache, ghost midHandle: Option<AnalyserHandle>)
      requires Valid()
      modifies this`frameProcessor, this`options, this`loads, this`modelMatrix, analyser
      ensures Valid()
      ensures !Contains(s.faceSelectorMode, "reference") && !Contains(s.faceSelectorMode, "many") ==> r == Ok(frame)
      ensures !Contains(s.faceSelectorMode, "reference") ==> referenceDone && midFrame == frame
      ensures ReferencePass(old(analyser.cache), old(analyser.handle), frame, s, drt, reference, referenceDone, similar,
                            midCache, midHandle)
      ensures !referenceDone ==> r.Err? && analyser.cache == midCache && analyser.handle == midHandle
      ensures referenceDone ==>
        ManyPass(midCache, midHandle, midFrame, s, drt, r.Ok?, many, analyser.cache, analyser.handle)
      ensures r.Ok? ==>
        && Replays(frameProcessor, options, modelMatrix, source, similar + many, frames, rt)
        && frames[0] == frame && r.value == frames[|frames| - 1] && midFrame == frames[|similar|]
    {
      ghost var before;
      var afterReference;
      afterReference, similar, before := SwapReferenceFaces(source, reference, frame, s, swapperModel, analyser, drt, rt);
      midCache, midHandle := analyser.cache, analyser.handle;
      many, frames := [], before;
      referenceDone := afterReference.Ok?;
      midFrame := if afterReference.Ok? then afterReference.value else frame;
      if afterReference.Err? {
        return afterReference, similar, many, frames, referenceDone, midFrame, midCache, midHandle;
      }
      r, many, frames := SwapManyFaces(source, afterReference.value, s, swapperModel, analyser, drt, rt, similar, before);
    }

    /** `pre_process`: the options are read first (KeyError when they cannot be
        created); once the file checks pass, the analyser is asked for the
        first face of the source frame, and the checks decide in order. */
    method PreProcess(mode: string, swapperModel: string, p: Probes, analyser: FaceAnalyser, sourceFrame: Frame,
                      s: Settings, drt: DetectorRuntime) returns (r: Result<Option<Status>>)
      requires Valid()
      modifies this`options, analyser
      ensures Valid()
      ensures options == OptionsAfter(old(options), swapperModel)
      ensures ModelOf(old(options), swapperModel).Err? ==>
        r == Err(KeyError) && analyser.cache == old(analyser.cache) && analyser.handle == old(analyser.handle)
      ensures ModelOf(old(options), swapperModel).Ok? && !ReachesSourceFace(s.skipDownload, p) ==>
        r == Ok(PreProcessDecision(mode, s.skipDownload, p, false)) && analyser.cache == old(analyser.cache)
        && analyser.handle == old(analyser.handle)
      ensures ModelOf(old(options), swapperModel).Ok? && ReachesSourceFace(s.skipDownload, p) ==>
        var found := ManyFaces(old(analyser.cache), old(analyser.handle), sourceFrame, s, drt);
        && (found.Err? ==> r == Err(found.error))
        && (found.Ok? ==> r == Ok(PreProcessDecision(mode, s.skipDownload, p, found.value != [])))
        && analyser.cache == CacheAfter(old(analyser.cache), old(analyser.handle), sourceFrame, s, drt)
        && analyser.handle == HandleAfter(old(analyser.cache), old(analyser.handle), sourceFrame, s)
    {
      var url := GetOptions(swapperModel, "model");
      if url.Err? {
        return Err(url.error);
      }
      var path := GetOptions(swapperModel, "model");
      var sourceFaceFound := false;
      if ReachesSourceFace(s.skipDownload, p) {
        var face := analyser.GetOneFace(sourceFrame, 0, s, drt);
        if face.Err? {
          return Err(face.error);
        }
        sourceFaceFound := face.value.Some?;
      }
      return Ok(PreProcessDecision(mode, s.skipDownload, p, sourceFaceFound));
    }
  }

  /** Python's `sub in s` on strings: `sub` starts at some position of `s`. */
  predicate Contains(s: string, sub: string)
    decreases |s|
  {
    (|sub| <= |s| && s[..|sub|] == sub) || (s != [] && Contains(s[1..], sub))
  }
}
