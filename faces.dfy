/** The values the analyser produces and consumes: frames (by content), boxes,
    landmark points and the Face record built once per detected face. */
module Faces {
  import opened Common

  /** A frame, identified by its pixel content. Two frames with the same
      content are equal, which is how the face cache keys them; the pixels
      themselves only reach opaque collaborators. */
  datatype Frame = Frame(content: nat, height: nat, width: nat)

  datatype Point = Point(x: real, y: real)

  /** A bounding box `[x1, y1, x2, y2]` in original-frame pixels. */
  datatype Bbox = Bbox(x1: real, y1: real, x2: real, y2: real)

  /** The five landmark points of a face (eyes, nose, mouth corners). */
  type Kps = seq<Point>

  /** One analysed face. `normedEmbedding` is optional so that a face without
      a normalised embedding is representable; the similarity search skips it. */
  datatype Face = Face(
    bbox: Bbox,
    kps: Kps,
    score: real,
    embedding: seq<real>,
    normedEmbedding: Option<seq<real>>,
    gender: int,
    age: int)
}
