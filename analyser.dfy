/** The stateful face analyser: the lazily opened analyser handle
    (`FACE_ANALYSER`), the per-frame face cache, and the operations built on
    them: `get_face_analyser`, `clear_face_analyser`, `extract_faces`,
    `get_many_faces`, `get_one_face` and `find_similar_faces`. */
module Analyser {
  import opened Common
  import opened Faces
  import opened AnalyserRegistry
  import opened Detection
  import opened Selection
  import opened Config

  type FaceCache = map<Frame, seq<Face>>

  /** `if faces_cache:`: a cached list counts only when it is non-empty. */
  function CacheHit(cache: FaceCache, frame: Frame): Option<seq<Face>> {
    if frame in cache && cache[frame] != [] then Some(cache[frame]) else None
  }

  /** What `get_face_analyser` returns, given the current handle and what
      opening the sessions would give. */
  function AnalyserOutcome(handle: Option<AnalyserHandle>, opening: Result<AnalyserHandle>): Result<AnalyserHandle> {
    if handle.Some? then Ok(handle.value) else opening
  }

  /** The handle after `get_face_analyser`: kept when present, otherwise the
      newly opened one; an exception while opening leaves it unset. */
  function HandleAfterOpen(handle: Option<AnalyserHandle>, opening: Result<AnalyserHandle>): Option<AnalyserHandle> {
    if handle.Some? then handle else if opening.Ok? then Some(opening.value) else None
  }

  /** `extract_faces`: obtain the analyser, then detect with its sessions,
      which were opened for the settings in force when the handle was set. */
  function ExtractOutcome(handle: Option<AnalyserHandle>, opening: Result<AnalyserHandle>, frame: Frame,
                          s: Settings, rt: DetectorRuntime): Result<seq<Face>> {
    var held :- AnalyserOutcome(handle, opening);
    ExtractedFaces(frame, held, s.faceDetectorModel, s.faceDetectorSize, s.faceDetectorScore, rt)
  }

  /** `get_many_faces` for a given result of opening the sessions: the cached
      list when non-empty, the extracted list otherwise, then the selection
      policy; AttributeError and ValueError become the empty list. */
  function ManyFacesWith(cache: FaceCache, handle: Option<AnalyserHandle>, opening: Result<AnalyserHandle>,
                         frame: Frame, s: Settings, rt: DetectorRuntime): Result<seq<Face>> {
    match CacheHit(cache, frame)
    case Some(faces) => Ok(SelectFaces(faces, s.policy))
    case None =>
      match ExtractOutcome(handle, opening, frame, s, rt)
      case Ok(faces) => Ok(SelectFaces(faces, s.policy))
      case Err(e) => if CaughtBySelection(e) then Ok([]) else Err(e)
  }

  /** The cache after `get_many_faces`: an extraction stores its result, even
      an empty one; a hit or an exception leaves the cache as it was. */
  function CacheAfterWith(cache: FaceCache, handle: Option<AnalyserHandle>, opening: Result<AnalyserHandle>,
                          frame: Frame, s: Settings, rt: DetectorRuntime): FaceCache {
    if CacheHit(cache, frame).Some? then cache
    else match ExtractOutcome(handle, opening, frame, s, rt)
      case Ok(faces) => cache[frame := faces]
      case Err(_) => cache
  }

  function HandleAfterWith(cache: FaceCache, handle: Option<AnalyserHandle>, opening: Result<AnalyserHandle>,
                           frame: Frame): Option<AnalyserHandle> {
    if CacheHit(cache, frame).Some? then handle else HandleAfterOpen(handle, opening)
  }

  /** The sessions the settings open (with the corrected recognizer key). */
  function Opened(s: Settings): Result<AnalyserHandle> {
    OpenAnalyser(s.faceDetectorModel, s.faceRecognizerModel)
  }

  function ManyFaces(cache: FaceCache, handle: Option<AnalyserHandle>, frame: Frame, s: Settings,
                     rt: DetectorRuntime): Result<seq<Face>> {
    ManyFacesWith(cache, handle, Opened(s), frame, s, rt)
  }

  function CacheAfter(cache: FaceCache, handle: Option<AnalyserHandle>, frame: Frame, s: Settings,
                      rt: DetectorRuntime): FaceCache {
    CacheAfterWith(cache, handle, Opened(s), frame, s, rt)
  }

  function HandleAfter(cache: FaceCache, handle: Option<AnalyserHandle>, frame: Frame, s: Settings): Option<AnalyserHandle> {
    HandleAfterWith(cache, handle, Opened(s), frame)
  }

  /** The list `get_many_faces` selects from: the cached list on a hit, the
      extracted list otherwise, nothing when extraction raised. */
  function SourceFaces(cache: FaceCache, handle: Option<AnalyserHandle>, frame: Frame, s: Settings,
                       rt: DetectorRuntime): seq<Face> {
    match CacheHit(cache, frame)
    case Some(faces) => faces
    case None =>
      match ExtractOutcome(handle, Opened(s), frame, s, rt)
      case Ok(faces) => faces
      case Err(_) => []
  }

  class FaceAnalyser {
    var handle: Option<AnalyserHandle>
    var cache: FaceCache

    constructor()
      ensures handle == None && cache == map[]
    {
      handle := None;
      cache := map[];
    }

    /** `get_face_analyser`: open the sessions once and keep the handle. */
    method GetFaceAnalyser(s: Settings) returns (r: Result<AnalyserHandle>)
      modifies this`handle
      ensures r == AnalyserOutcome(old(handle), Opened(s))
      ensures handle == HandleAfterOpen(old(handle), Opened(s))
      ensures r.Ok? ==> handle == Some(r.value)
    {
      if handle.None? {
        var opening := OpenAnalyser(s.faceDetectorModel, s.faceRecognizerModel);
        if opening.Err? {
          return opening;
        }
        handle := Some(opening.value);
      }
      return Ok(handle.value);
    }

    /** `clear_face_analyser`; the face cache is kept. */
    method ClearFaceAnalyser()
      modifies this`handle
      ensures handle == None
    {
      handle := None;
    }

    /** `extract_faces`. */
    method ExtractFaces(frame: Frame, s: Settings, rt: DetectorRuntime) returns (r: Result<seq<Face>>)
      modifies this`handle
      ensures r == ExtractOutcome(old(handle), Opened(s), frame, s, rt)
      ensures handle == HandleAfterOpen(old(handle), Opened(s))
    {
      var analyser := GetFaceAnalyser(s);
      if analyser.Err? {
        return Err(analyser.error);
      }
      r := DetectFaces(frame, analyser.value, s.faceDetectorModel, s.faceDetectorSize, s.faceDetectorScore, rt);
    }

    /** `get_many_faces`. */
    method GetManyFaces(frame: Frame, s: Settings, rt: DetectorRuntime) returns (r: Result<seq<Face>>)
      modifies this
      ensures r == ManyFaces(old(cache), old(handle), frame, s, rt)
      ensures cache == CacheAfter(old(cache), old(handle), frame, s, rt)
      ensures handle == HandleAfter(old(cache), old(handle), frame, s)
    {
      var faces: seq<Face>;
      if frame in cache && cache[frame] != [] {
        faces := cache[frame];
      } else {
        var extracted := ExtractFaces(frame, s, rt);
        if extracted.Err? {
          if CaughtBySelection(extracted.error) {
            return Ok([]);
          }
          return Err(extracted.error);
        }
        faces := extracted.value;
        cache := cache[frame := faces];
      }
      if IsSet(s.policy.direction) {
        faces := SortByDirection(faces, s.policy.direction.value);
      }
      if IsSet(s.policy.age) {
        faces := FilterByAge(faces, s.policy.age.value);
      }
      if IsSet(s.policy.gender) {
        faces := FilterByGender(faces, s.policy.gender.value);
      }
      return Ok(faces);
    }

    /** `get_one_face`. */
    method GetOneFace(frame: Frame, position: int, s: Settings, rt: DetectorRuntime) returns (r: Result<Option<Face>>)
      modifies this
      ensures ManyFaces(old(cache), old(handle), frame, s, rt).Ok? ==>
        r == Ok(PickFace(ManyFaces(old(cache), old(handle), frame, s, rt).value, position))
      ensures ManyFaces(old(cache), old(handle), frame, s, rt).Err? ==>
        r == Err(ManyFaces(old(cache), old(handle), frame, s, rt).error)
      ensures cache == CacheAfter(old(cache), old(handle), frame, s, rt)
      ensures handle == HandleAfter(old(cache), old(handle), frame, s)
    {
      var many := GetManyFaces(frame, s, rt);
      if many.Err? {
        return Err(many.error);
      }
      return Ok(PickFace(many.value, position));
    }

    /** `find_similar_faces`: an exception from the dot product is not caught. */
    method FindSimilarFaces(frame: Frame, reference: Face, distance: real, s: Settings, rt: DetectorRuntime)
      returns (r: Result<seq<Face>>)
      modifies this
      ensures ManyFaces(old(cache), old(handle), frame, s, rt).Ok? ==>
        r == SimilarFaces(ManyFaces(old(cache), old(handle), frame, s, rt).value, reference, distance)
      ensures ManyFaces(old(cache), old(handle), frame, s, rt).Err? ==>
        r == Err(ManyFaces(old(cache), old(handle), frame, s, rt).error)
      ensures cache == CacheAfter(old(cache), old(handle), frame, s, rt)
      ensures handle == HandleAfter(old(cache), old(handle), frame, s)
    {
      var many := GetManyFaces(frame, s, rt);
      if many.Err? {
        return Err(many.error);
      }
      if many.value != [] {
        r := CollectSimilarFaces(many.value, reference, distance);
      } else {
        r := Ok([]);
      }
    }
  }

  /** Every face `get_many_faces` returns comes from the cached or extracted
      list, no more often than it occurs there. */
  lemma ManyFacesFromSource(cache: FaceCache, handle: Option<AnalyserHandle>, frame: Frame, s: Settings,
                            rt: DetectorRuntime)
    ensures ManyFaces(cache, handle, frame, s, rt).Ok? ==>
      multiset(ManyFaces(cache, handle, frame, s, rt).value) <= multiset(SourceFaces(cache, handle, frame, s, rt))
  {
    SelectFacesFromInput(SourceFaces(cache, handle, frame, s, rt), s.policy);
  }

  /** A non-empty cache entry skips extraction: the result does not depend on
      the handle or on what the detector would report, and neither the cache
      nor the handle changes. */
  lemma CacheHitSkipsExtraction(cache: FaceCache, h1: Option<AnalyserHandle>, h2: Option<AnalyserHandle>,
                                frame: Frame, s: Settings, rt1: DetectorRuntime, rt2: DetectorRuntime)
    requires frame in cache && cache[frame] != []
    ensures ManyFaces(cache, h1, frame, s, rt1) == ManyFaces(cache, h2, frame, s, rt2)
    ensures CacheAfter(cache, h1, frame, s, rt1) == cache && HandleAfter(cache, h1, frame, s) == h1
  {
  }

  /** Exceptions: `get_many_faces` raises exactly when there is no usable
      cache entry and extraction raised something other than AttributeError
      or ValueError; those two give the empty list. */
  lemma ManyFacesErrors(cache: FaceCache, handle: Option<AnalyserHandle>, frame: Frame, s: Settings,
                        rt: DetectorRuntime, e: ErrorKind)
    ensures ManyFaces(cache, handle, frame, s, rt) == Err(e) <==>
      CacheHit(cache, frame).None? && ExtractOutcome(handle, Opened(s), frame, s, rt) == Err(e) && !CaughtBySelection(e)
    ensures CacheHit(cache, frame).None? && ExtractOutcome(handle, Opened(s), frame, s, rt) == Err(e) && CaughtBySelection(e)
      ==> ManyFaces(cache, handle, frame, s, rt) == Ok([]) && CacheAfter(cache, handle, frame, s, rt) == cache
  {
  }

  /** Asking again for a frame whose extraction found faces is answered from
      the cache: the second call returns what the first returned, whatever the
      detector would report now. */
  lemma SecondCallUsesCache(cache: FaceCache, handle: Option<AnalyserHandle>, frame: Frame, s: Settings,
                            rt: DetectorRuntime, later: DetectorRuntime)
    requires CacheHit(cache, frame).None?
    requires ExtractOutcome(handle, Opened(s), frame, s, rt).Ok?
    requires ExtractOutcome(handle, Opened(s), frame, s, rt).value != []
    ensures ManyFaces(CacheAfter(cache, handle, frame, s, rt), HandleAfter(cache, handle, frame, s), frame, s, later)
      == ManyFaces(cache, handle, frame, s, rt)
  {
  }

  /** As written, choosing the ghost recognizer makes every uncached frame
      yield no faces, and the handle is never set, so each call tries again
      and fails again. */
  lemma GhostRecognizerFindsNoFacesAsWritten(cache: FaceCache, frame: Frame, s: Settings, rt: DetectorRuntime)
    requires s.faceRecognizerModel == "ghost_arcface" && CacheHit(cache, frame).None?
    ensures ManyFacesWith(cache, None, OpenAnalyserAsWritten(s.faceDetectorModel, s.faceRecognizerModel), frame, s, rt) == Ok([])
    ensures HandleAfterWith(cache, None, OpenAnalyserAsWritten(s.faceDetectorModel, s.faceRecognizerModel), frame) == None
  {
    GhostRecognizerNeverOpensAsWritten(s.faceDetectorModel);
  }

  /** With the corrected key the same settings open the analyser and the
      faces come from the detector. */
  lemma GhostRecognizerOpensCorrected(cache: FaceCache, frame: Frame, s: Settings, rt: DetectorRuntime)
    requires s.faceRecognizerModel == "ghost_arcface" && CacheHit(cache, frame).None?
    requires s.faceDetectorModel == "retinaface" || s.faceDetectorModel == "yunet"
    ensures HandleAfter(cache, None, frame, s).Some?
    ensures Opened(s).Ok? && ExtractOutcome(None, Opened(s), frame, s, rt)
      == ExtractedFaces(frame, Opened(s).value, s.faceDetectorModel, s.faceDetectorSize, s.faceDetectorScore, rt)
  {
    OpenAnalyserSpec(s.faceDetectorModel, s.faceRecognizerModel);
  }

  /** The handle is opened once. When `face_detector_model` names the other
      detector than the held sessions were opened for, extraction reaches a
      call the held detector does not have and raises AttributeError instead
      of detecting: an uncached frame yields no faces, nothing is cached and
      the stale handle stays. */
  lemma SwitchedDetectorFindsNothing(cache: FaceCache, held: AnalyserHandle, frame: Frame, s: Settings,
                                    rt: DetectorRuntime)
    requires CacheHit(cache, frame).None?
    requires s.faceDetectorModel == "retinaface" || s.faceDetectorModel == "yunet"
    requires IsOpenCvDetector(held) <==> s.faceDetectorModel == "retinaface"
    ensures ExtractOutcome(Some(held), Opened(s), frame, s, rt).Err?
    ensures ManyFaces(cache, Some(held), frame, s, rt).Ok? ==> ManyFaces(cache, Some(held), frame, s, rt).value == []
    ensures CacheAfter(cache, Some(held), frame, s, rt) == cache
    ensures HandleAfter(cache, Some(held), frame, s) == Some(held)
  {
  }
}
