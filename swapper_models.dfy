/** The face swapper's model table, the swapper models as an enumeration, and
    `apply_args`, which picks the face recognizer that matches the swapper. */
module SwapperModels {
  import opened Common
  import Choices
  import AnalyserRegistry
  import opened Config

  datatype SwapperModel =
    | GhostUnet1Block
    | GhostUnet2Block
    | GhostUnet3Block
    | Inswapper128
    | Inswapper128Fp16
    | Simswap244

  datatype Family = Ghost | Inswapper | Simswap

  function Key(m: SwapperModel): string {
    match m
    case GhostUnet1Block => "ghost_unet_1_block"
    case GhostUnet2Block => "ghost_unet_2_block"
    case GhostUnet3Block => "ghost_unet_3_block"
    case Inswapper128 => "inswapper_128"
    case Inswapper128Fp16 => "inswapper_128_fp16"
    case Simswap244 => "simswap_244"
  }

  function ParseSwapperModel(s: string): Option<SwapperModel> {
    if s == "ghost_unet_1_block" then Some(GhostUnet1Block)
    else if s == "ghost_unet_2_block" then Some(GhostUnet2Block)
    else if s == "ghost_unet_3_block" then Some(GhostUnet3Block)
    else if s == "inswapper_128" then Some(Inswapper128)
    else if s == "inswapper_128_fp16" then Some(Inswapper128Fp16)
    else if s == "simswap_244" then Some(Simswap244)
    else None
  }

  function FamilyOf(m: SwapperModel): Family {
    match m
    case GhostUnet1Block | GhostUnet2Block | GhostUnet3Block => Ghost
    case Inswapper128 | Inswapper128Fp16 => Inswapper
    case Simswap244 => Simswap
  }

  /** Names and keys are in one-to-one correspondence. */
  lemma ParseKeyRoundTrip(m: SwapperModel, s: string)
    ensures ParseSwapperModel(Key(m)) == Some(m)
    ensures ParseSwapperModel(s) == Some(m) ==> s == Key(m)
  {
  }

  /** A swapper model's descriptor: download URL, relative model path, the
      family name the pixel normalisation switches on, the warp template and
      the crop size. */
  datatype ModelDescriptor = ModelDescriptor(url: string, path: string, name: string, template: string, size: (int, int))

  const SwapperModelTable: map<string, ModelDescriptor> := map[
    "ghost_unet_1_block" := ModelDescriptor(
      "https://github.com/harisreedhar/Face-Swappers-ONNX/releases/download/ghost/ghost_unet_1_block.onnx",
      "../.assets/models/ghost_unet_1_block.onnx", "ghost", "ghost", (112, 256)),
    "ghost_unet_2_block" := ModelDescriptor(
      "https://github.com/harisreedhar/Face-Swappers-ONNX/releases/download/ghost/ghost_unet_2_block.onnx",
      "../.assets/models/ghost_unet_2_block.onnx", "ghost", "ghost", (112, 256)),
    "ghost_unet_3_block" := ModelDescriptor(
      "https://github.com/harisreedhar/Face-Swappers-ONNX/releases/download/ghost/ghost_unet_3_block.onnx",
      "../.assets/models/ghost_unet_3_block.onnx", "ghost", "ghost", (112, 256)),
    "inswapper_128" := ModelDescriptor(
      "https://github.com/facefusion/facefusion-assets/releases/download/models/inswapper_128.onnx",
      "../.assets/models/inswapper_128.onnx", "inswapper", "arcface", (128, 128)),
    "inswapper_128_fp16" := ModelDescriptor(
      "https://github.com/facefusion/facefusion-assets/releases/download/models/inswapper_128_fp16.onnx",
      "../.assets/models/inswapper_128_fp16.onnx", "inswapper", "arcface", (128, 128)),
    "simswap_244" := ModelDescriptor(
      "https://github.com/facefusion/facefusion-assets/releases/download/models/simswap_244.onnx",
      "../.assets/models/simswap_244.onnx", "simswap", "arcface", (112, 224))
  ]

  function FamilyName(f: Family): string {
    match f
    case Ghost => "ghost"
    case Inswapper => "inswapper"
    case Simswap => "simswap"
  }

  function FamilyTemplate(f: Family): string {
    match f
    case Ghost => "ghost"
    case Inswapper | Simswap => "arcface"
  }

  function FamilySize(f: Family): (int, int) {
    match f
    case Ghost => (112, 256)
    case Inswapper => (128, 128)
    case Simswap => (112, 224)
  }

  /** Every model has a descriptor, and the name, template and size depend
      only on its family. */
  lemma DescriptorByFamily(m: SwapperModel)
    ensures Key(m) in SwapperModelTable
    ensures SwapperModelTable[Key(m)].name == FamilyName(FamilyOf(m))
    ensures SwapperModelTable[Key(m)].template == FamilyTemplate(FamilyOf(m))
    ensures SwapperModelTable[Key(m)].size == FamilySize(FamilyOf(m))
  {
  }

  /** The command-line choices are exactly the keys of the model table, listed
      in the order of the enumeration, and the default is one of them. */
  lemma ChoicesAreTableKeys()
    ensures SwapperModelTable.Keys == set s | s in Choices.FaceSwapperModels
    ensures |Choices.FaceSwapperModels| == 6
    ensures forall k :: 0 <= k < 6 ==> ParseSwapperModel(Choices.FaceSwapperModels[k]).Some?
    ensures "inswapper_128" in Choices.FaceSwapperModels && "inswapper_128" in SwapperModelTable
  {
  }

  // ---------------------------------------------------------------------------
  // apply_args
  // ---------------------------------------------------------------------------

  predicate GhostBranch(swapperModel: string) {
    swapperModel == "ghost_unet_1_block" || swapperModel == "ghost_unet_2_block" || swapperModel == "ghost_unet_3_block"
  }

  predicate InswapperBranch(swapperModel: string) {
    swapperModel == "inswapper_128" || swapperModel == "inswapper_128_fp16"
  }

  predicate SimswapBranch(swapperModel: string) {
    swapperModel == "simswap_244"
  }

  /** How many of the three `if` tests of `apply_args` hold. */
  function BranchesTaken(swapperModel: string): nat {
    (if GhostBranch(swapperModel) then 1 else 0)
    + (if InswapperBranch(swapperModel) then 1 else 0)
    + (if SimswapBranch(swapperModel) then 1 else 0)
  }

  /** The recognizer `apply_args` leaves in the globals: the three `if`s run
      one after another, each overwriting the recognizer when its test holds. */
  function RecognizerAfterArgs(current: string, swapperModel: string): string {
    var afterGhost := if GhostBranch(swapperModel) then "ghost_arcface" else current;
    var afterInswapper := if InswapperBranch(swapperModel) then "inswapper_webface" else afterGhost;
    if SimswapBranch(swapperModel) then "simswap_arcface" else afterInswapper
  }

  /** The recognizer each family is meant to run with. */
  function RecognizerOf(f: Family): string {
    match f
    case Ghost => "ghost_arcface"
    case Inswapper => "inswapper_webface"
    case Simswap => "simswap_arcface"
  }

  /** Each known model takes exactly one branch, which installs its family's
      recognizer whatever the previous setting was; any other name takes no
      branch and leaves the recognizer alone. */
  lemma ApplyArgsMapping(swapperModel: string, current: string)
    ensures ParseSwapperModel(swapperModel).Some? ==>
      && BranchesTaken(swapperModel) == 1
      && RecognizerAfterArgs(current, swapperModel) == RecognizerOf(FamilyOf(ParseSwapperModel(swapperModel).value))
    ensures ParseSwapperModel(swapperModel).None? ==>
      BranchesTaken(swapperModel) == 0 && RecognizerAfterArgs(current, swapperModel) == current
  {
  }

  /** Every command-line choice is handled by exactly one branch. */
  lemma EveryChoiceHandled()
    ensures forall k :: 0 <= k < |Choices.FaceSwapperModels| ==> BranchesTaken(Choices.FaceSwapperModels[k]) == 1
  {
    forall k | 0 <= k < |Choices.FaceSwapperModels|
      ensures BranchesTaken(Choices.FaceSwapperModels[k]) == 1
    {
      ApplyArgsMapping(Choices.FaceSwapperModels[k], "");
    }
  }

  /** `apply_args` for a parsed `--face-swapper-model`. */
  method ApplyArgs(g: Globals, swapperModel: string)
    modifies g
    ensures g.faceSwapperModel == swapperModel
    ensures g.settings == old(g.settings).(faceRecognizerModel :=
      RecognizerAfterArgs(old(g.settings.faceRecognizerModel), swapperModel))
  {
    g.faceSwapperModel := swapperModel;
    if swapperModel == "ghost_unet_1_block" || swapperModel == "ghost_unet_2_block" || swapperModel == "ghost_unet_3_block" {
      g.settings := g.settings.(faceRecognizerModel := "ghost_arcface");
    }
    if swapperModel == "inswapper_128" || swapperModel == "inswapper_128_fp16" {
      g.settings := g.settings.(faceRecognizerModel := "inswapper_webface");
    }
    if swapperModel == "simswap_244" {
      g.settings := g.settings.(faceRecognizerModel := "simswap_arcface");
    }
  }

  /** With the corrected registry key, the recognizer `apply_args` selects for
      any known swapper opens, given a known detector. */
  lemma ApplyArgsRecognizerOpens(m: SwapperModel, current: string, detectorModel: string)
    requires AnalyserRegistry.DetectorKey(detectorModel).Some?
    ensures AnalyserRegistry.OpenAnalyser(detectorModel, RecognizerAfterArgs(current, Key(m))).Ok?
  {
    ApplyArgsMapping(Key(m), current);
    AnalyserRegistry.OpenAnalyserSpec(detectorModel, RecognizerAfterArgs(current, Key(m)));
  }

  /** As written, every ghost swapper leaves the analyser unable to open. */
  lemma GhostSwapperBreaksAnalyserAsWritten(m: SwapperModel, current: string, detectorModel: string)
    requires FamilyOf(m) == Ghost
    ensures AnalyserRegistry.OpenAnalyserAsWritten(detectorModel, RecognizerAfterArgs(current, Key(m))) == Err(AttributeError)
  {
    ApplyArgsMapping(Key(m), current);
    AnalyserRegistry.GhostRecognizerNeverOpensAsWritten(detectorModel);
  }
}
