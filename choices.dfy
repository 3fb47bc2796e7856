/** The command-line choice lists of the frame processors. */
module Choices {

  const FaceSwapperModels: seq<string> := [
    "ghost_unet_1_block", "ghost_unet_2_block", "ghost_unet_3_block",
    "inswapper_128", "inswapper_128_fp16", "simswap_244"
  ]

  const FaceEnhancerModels: seq<string> := [
    "codeformer", "gfpgan_1.2", "gfpgan_1.3", "gfpgan_1.4", "gpen_bfr_512", "restoreformer"
  ]

  const FrameEnhancerModels: seq<string> := [
    "real_esrgan_x2plus", "real_esrgan_x4plus", "real_esrnet_x4plus"
  ]

  /** `numpy.arange(start, stop, 1).tolist()`: the integers from `start` up to
      but excluding `stop`. */
  function Arange(start: int, stop: int): (r: seq<int>)
    decreases stop - start
  {
    if start >= stop then [] else [start] + Arange(start + 1, stop)
  }

  const FaceEnhancerBlendRange: seq<int> := Arange(0, 101)
  const FrameEnhancerBlendRange: seq<int> := Arange(0, 101)

  predicate NoDuplicates(s: seq<string>) {
    forall i, j :: 0 <= i < j < |s| ==> s[i] != s[j]
  }

  /** `Arange` counts up by one from `start` and stops just before `stop`. */
  lemma {:induction false} ArangeSpec(start: int, stop: int)
    ensures |Arange(start, stop)| == if start <= stop then stop - start else 0
    ensures forall k :: 0 <= k < |Arange(start, stop)| ==> Arange(start, stop)[k] == start + k
    decreases stop - start
  {
    if start < stop {
      ArangeSpec(start + 1, stop);
    }
  }

  /** Both blend ranges are 0, 1, ..., 100 in ascending order. */
  lemma BlendRanges()
    ensures |FaceEnhancerBlendRange| == 101 && |FrameEnhancerBlendRange| == 101
    ensures forall k :: 0 <= k < 101 ==> FaceEnhancerBlendRange[k] == k && FrameEnhancerBlendRange[k] == k
    ensures forall i, j :: 0 <= i < j < 101 ==> FaceEnhancerBlendRange[i] < FaceEnhancerBlendRange[j]
    ensures forall v :: v in FaceEnhancerBlendRange <==> 0 <= v <= 100
    ensures FrameEnhancerBlendRange == FaceEnhancerBlendRange
  {
    ArangeSpec(0, 101);
    forall v | 0 <= v <= 100 ensures v in FaceEnhancerBlendRange {
      assert FaceEnhancerBlendRange[v] == v;
    }
  }

  /** No model name is offered twice. */
  lemma ChoiceListsDistinct()
    ensures |FaceSwapperModels| == 6 && NoDuplicates(FaceSwapperModels)
    ensures |FaceEnhancerModels| == 6 && NoDuplicates(FaceEnhancerModels)
    ensures |FrameEnhancerModels| == 3 && NoDuplicates(FrameEnhancerModels)
  {
  }
}
