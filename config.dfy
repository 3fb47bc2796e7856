/** The process-wide settings the core reads (`facefusion.globals` and the
    frame-processor globals), and the object that holds them. */
module Config {
  import Selection

  /** The settings the analyser and the swapper read at call time. */
  datatype Settings = Settings(
    faceDetectorModel: string,
    faceDetectorSize: string,
    faceDetectorScore: real,
    faceRecognizerModel: string,
    policy: Selection.Policy,
    faceSelectorMode: string,
    referenceFaceDistance: real,
    referenceFacePosition: int,
    skipDownload: bool)

  /** The mutable globals: the analyser settings and the chosen swapper model
      (`frame_processors_globals.face_swapper_model`). */
  class Globals {
    var settings: Settings
    var faceSwapperModel: string

    constructor(settings: Settings, faceSwapperModel: string)
      ensures this.settings == settings && this.faceSwapperModel == faceSwapperModel
    {
      this.settings := settings;
      this.faceSwapperModel := faceSwapperModel;
    }
  }
}
