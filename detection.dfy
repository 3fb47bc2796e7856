/** The bookkeeping around the face detectors in `extract_faces` and
    `create_faces`: parsing the detector size, the scale ratios back to the
    original frame, per-stride thresholding of the RetinaFace outputs, the
    YuNet row conversion, and assembling one Face per index kept by
    non-maximum suppression. The networks, the anchor decoding and the
    suppression itself are opaque and enter as function values. */
module Detection {
  import opened Common
  import opened Faces
  import opened AnalyserRegistry

  // ---------------------------------------------------------------------------
  // The detector size string "WxH"
  // ---------------------------------------------------------------------------

  /** Python's `s.split(sep)` for a one-character separator. */
  function Split(s: string, sep: char): (parts: seq<string>)
    ensures |parts| >= 1
  {
    if s == [] then [[]]
    else
      var rest := Split(s[1..], sep);
      if s[0] == sep then [[]] + rest else [[s[0]] + rest[0]] + rest[1..]
  }

  lemma {:induction false} SplitWithoutSeparator(s: string, sep: char)
    requires sep !in s
    ensures Split(s, sep) == [s]
  {
    if s != [] {
      SplitWithoutSeparator(s[1..], sep);
      assert [s[0]] + s[1..] == s;
    }
  }

  lemma {:induction false} SplitAtFirstSeparator(a: string, sep: char, b: string)
    requires sep !in a
    ensures Split(a + [sep] + b, sep) == [a] + Split(b, sep)
  {
    if a == [] {
      assert a + [sep] + b == [sep] + b;
      assert ([sep] + b)[1..] == b;
    } else {
      SplitAtFirstSeparator(a[1..], sep, b);
      assert (a + [sep] + b)[1..] == a[1..] + [sep] + b;
      assert [a[0]] + a[1..] == a;
    }
  }

  predicate IsDigit(c: char) {
    '0' <= c <= '9'
  }

  predicate AllDigits(s: string) {
    forall i :: 0 <= i < |s| ==> IsDigit(s[i])
  }

  function DigitsValue(s: string): nat
    requires AllDigits(s)
  {
    if s == [] then 0 else DigitsValue(s[..|s| - 1]) * 10 + ((s[|s| - 1] as int) - ('0' as int))
  }

  /** Python's `int(s)` for an optional sign followed by decimal digits; any
      other text raises ValueError (None). */
  function ParseInt(s: string): Option<int> {
    if |s| > 0 && (s[0] == '-' || s[0] == '+') then
      if |s| > 1 && AllDigits(s[1..]) then
        var magnitude: int := DigitsValue(s[1..]);
        Some(if s[0] == '-' then -magnitude else magnitude)
      else None
    else if |s| > 0 && AllDigits(s) then Some(DigitsValue(s))
    else None
  }

  /** Decimal text of a natural number, as `str(n)` writes it. */
  function NatToString(n: nat): string {
    if n < 10 then [('0' as int + n) as char] else NatToString(n / 10) + [('0' as int + n % 10) as char]
  }

  lemma {:induction false} NatToStringDigits(n: nat)
    ensures |NatToString(n)| > 0 && AllDigits(NatToString(n))
    ensures DigitsValue(NatToString(n)) == n
  {
    if n >= 10 {
      NatToStringDigits(n / 10);
      var s := NatToString(n);
      assert s[..|s| - 1] == NatToString(n / 10);
    }
  }

  /** `map(int, size.split('x'))` unpacked into width and then height: exactly
      two parts, both integers, or ValueError. */
  function ParseDetectorSize(size: string): Result<(int, int)> {
    var parts := Split(size, 'x');
    if |parts| != 2 then Err(ValueError)
    else match (ParseInt(parts[0]), ParseInt(parts[1]))
      case (Some(width), Some(height)) => Ok((width, height))
      case _ => Err(ValueError)
  }

  /** Writing a width and a height as "WxH" and parsing it gives back the width
      first and the height second. */
  lemma DetectorSizeRoundTrip(width: nat, height: nat)
    ensures ParseDetectorSize(NatToString(width) + "x" + NatToString(height)) == Ok((width, height))
  {
    var w, h := NatToString(width), NatToString(height);
    NatToStringDigits(width);
    NatToStringDigits(height);
    assert 'x' !in w && 'x' !in h by {
      assert !IsDigit('x');
    }
    SplitAtFirstSeparator(w, 'x', h);
    SplitWithoutSeparator(h, 'x');
    assert w + "x" + h == w + ['x'] + h;
  }

  /** Splitting gives one part more than there are separators. */
  lemma {:induction false} SplitCount(s: string, sep: char)
    ensures |Split(s, sep)| == multiset(s)[sep] + 1
  {
    if s != [] {
      SplitCount(s[1..], sep);
      assert s == [s[0]] + s[1..];
      assert multiset(s) == multiset([s[0]]) + multiset(s[1..]);
    }
  }

  /** A size string with no "x", or with two or more, is rejected with
      ValueError, whatever its parts: only one separator unpacks into a width
      and a height. */
  lemma DetectorSizeNeedsOneSeparator(size: string)
    ensures multiset(size)['x'] != 1 ==> ParseDetectorSize(size) == Err(ValueError)
    ensures ParseDetectorSize(size).Ok? ==> multiset(size)['x'] == 1
  {
    SplitCount(size, 'x');
  }

  // ---------------------------------------------------------------------------
  // Scale ratios between the resized detector frame and the original frame
  // ---------------------------------------------------------------------------

  datatype Ratios = Ratios(width: real, height: real)

  /** `ratio_height = frame_height / temp_frame_height`, then the width ratio;
      a zero dimension raises ZeroDivisionError. */
  function FrameRatios(frame: Frame, tempHeight: nat, tempWidth: nat): Result<Ratios> {
    if tempHeight == 0 || tempWidth == 0 then Err(ZeroDivisionError)
    else Ok(Ratios(frame.width as real / tempWidth as real, frame.height as real / tempHeight as real))
  }

  /** x-coordinates scale by the width ratio, y-coordinates by the height ratio. */
  function RescaleBox(b: Bbox, r: Ratios): Bbox {
    Bbox(b.x1 * r.width, b.y1 * r.height, b.x2 * r.width, b.y2 * r.height)
  }

  function RescalePoint(p: Point, r: Ratios): Point {
    Point(p.x * r.width, p.y * r.height)
  }

  /** `kps * [[ratio_width, ratio_height]]`. */
  function RescaleKps(kps: Kps, r: Ratios): (scaled: Kps)
    ensures |scaled| == |kps|
  {
    seq(|kps|, i requires 0 <= i < |kps| => RescalePoint(kps[i], r))
  }

  /** Rescaling keeps a box's corner order and can be undone axis by axis. */
  lemma RescaleBoxAxes(b: Bbox, r: Ratios)
    requires r.width > 0.0 && r.height > 0.0
    ensures var s := RescaleBox(b, r);
      && s.x1 / r.width == b.x1 && s.x2 / r.width == b.x2
      && s.y1 / r.height == b.y1 && s.y2 / r.height == b.y2
      && (b.x1 <= b.x2 <==> s.x1 <= s.x2)
      && (b.y1 <= b.y2 <==> s.y1 <= s.y2)
  {
    var s := RescaleBox(b, r);
    assert s.x2 - s.x1 == (b.x2 - b.x1) * r.width;
    assert s.y2 - s.y1 == (b.y2 - b.y1) * r.height;
  }

  // ---------------------------------------------------------------------------
  // RetinaFace: per-stride thresholding and candidate lists
  // ---------------------------------------------------------------------------

  /** A two-dimensional network output, row by row. */
  type Tensor = seq<seq<real>>

  const FeatureStrides: seq<nat> := [8, 16, 32]
  const FeatureMapChannel: nat := 3
  const AnchorTotal: nat := 2

  /** The anchor grid of one stride: `anchor_total` anchors on a grid of
      `height // stride` rows and `width // stride` columns. */
  datatype AnchorGrid = AnchorGrid(stride: nat, anchors: nat, rows: int, columns: int)

  function GridFor(stride: nat, detectorHeight: int, detectorWidth: int): (g: AnchorGrid)
    requires stride > 0
    ensures g.rows * stride <= detectorHeight < (g.rows + 1) * stride
    ensures g.columns * stride <= detectorWidth < (g.columns + 1) * stride
    ensures g.anchors == AnchorTotal && g.stride == stride
  {
    AnchorGrid(stride, AnchorTotal, detectorHeight / stride, detectorWidth / stride)
  }

  /** The opaque `create_static_anchors` followed by `distance_to_bbox` and
      `distance_to_kps`: decoded rows for a grid and a raw output. */
  datatype RetinaDecoder = RetinaDecoder(
    boxes: (AnchorGrid, Tensor) -> seq<Bbox>,
    kps: (AnchorGrid, Tensor) -> seq<Kps>)

  /** `raw * feature_stride`, element by element. */
  function Scale(t: Tensor, k: real): Tensor {
    seq(|t|, i requires 0 <= i < |t| => seq(|t[i]|, j requires 0 <= j < |t[i]| => t[i][j] * k))
  }

  /** The row index of each element of one row that reaches the threshold. */
  function RowHits(i: nat, row: seq<real>, threshold: real): (hits: seq<nat>)
    ensures forall k :: 0 <= k < |hits| ==> hits[k] == i
  {
    if row == [] then []
    else RowHits(i, row[..|row| - 1], threshold) + if row[|row| - 1] >= threshold then [i] else []
  }

  /** `numpy.where(scores >= threshold)[0]`: the row index of every element that
      reaches the threshold, in row-major order. */
  function KeptRows(scores: Tensor, threshold: real): (keep: seq<nat>)
    ensures forall k :: 0 <= k < |keep| ==> keep[k] < |scores| && |scores[keep[k]]| > 0
  {
    if scores == [] then []
    else
      var i := |scores| - 1;
      var hits := RowHits(i, scores[i], threshold);
      assert hits != [] ==> |scores[i]| > 0;
      KeptRows(scores[..i], threshold) + hits
  }

  lemma {:induction false} RowHitsNonEmpty(i: nat, row: seq<real>, threshold: real)
    ensures RowHits(i, row, threshold) != [] <==> exists j :: 0 <= j < |row| && row[j] >= threshold
  {
    if row != [] {
      var init := row[..|row| - 1];
      RowHitsNonEmpty(i, init, threshold);
      if exists j :: 0 <= j < |init| && init[j] >= threshold {
        var j :| 0 <= j < |init| && init[j] >= threshold;
        assert row[j] == init[j];
      }
    }
  }

  /** A row is kept exactly when one of its scores reaches the threshold. */
  lemma {:induction false} KeptRowsMembership(scores: Tensor, threshold: real, i: nat)
    ensures i in KeptRows(scores, threshold) <==>
      i < |scores| && exists j :: 0 <= j < |scores[i]| && scores[i][j] >= threshold
  {
    if scores != [] {
      var n := |scores| - 1;
      var init := scores[..n];
      KeptRowsMembership(init, threshold, i);
      RowHitsNonEmpty(n, scores[n], threshold);
      var hits := RowHits(n, scores[n], threshold);
      var before := KeptRows(init, threshold);
      assert KeptRows(scores, threshold) == before + hits;
      if i < n {
        assert i !in hits;
        assert scores[i] == init[i];
      } else if i == n {
        assert i !in before;
        if hits != [] {
          assert hits[0] == n;
        }
      } else {
        assert i !in hits && i !in before;
      }
    }
  }

  /** A higher threshold keeps a subset of the rows a lower one keeps. */
  lemma KeptRowsMonotone(scores: Tensor, t1: real, t2: real, i: nat)
    requires t1 <= t2
    ensures i in KeptRows(scores, t2) ==> i in KeptRows(scores, t1)
  {
    KeptRowsMembership(scores, t1, i);
    KeptRowsMembership(scores, t2, i);
  }

  /** `keep_indices.any()` as written: true when some kept index is non-zero,
      so a stride whose only kept row is row 0 is skipped. */
  predicate KeepGuardAsWritten(keep: seq<nat>) {
    exists k :: 0 <= k < |keep| && keep[k] != 0
  }

  /** The evidently intended test: some row was kept. */
  predicate KeepGuard(keep: seq<nat>) {
    |keep| > 0
  }

  /** With the intended guard a stride is used exactly when one of its scores
      reaches the threshold. */
  lemma StrideUsedIffScoreReached(scores: Tensor, threshold: real)
    ensures KeepGuard(KeptRows(scores, threshold)) <==>
      exists i, j :: 0 <= i < |scores| && 0 <= j < |scores[i]| && scores[i][j] >= threshold
  {
    var keep := KeptRows(scores, threshold);
    if keep != [] {
      KeptRowsMembership(scores, threshold, keep[0]);
    }
    if exists i, j :: 0 <= i < |scores| && 0 <= j < |scores[i]| && scores[i][j] >= threshold {
      var i, j :| 0 <= i < |scores| && 0 <= j < |scores[i]| && scores[i][j] >= threshold;
      KeptRowsMembership(scores, threshold, i);
    }
  }

  /** The guard as written drops a detection: with one anchor row scoring 0.9
      against a threshold of 0.5, row 0 is kept but the stride is skipped. */
  lemma KeepGuardAsWrittenDropsRowZero()
    ensures KeptRows([[0.9], [0.1]], 0.5) == [0]
    ensures !KeepGuardAsWritten(KeptRows([[0.9], [0.1]], 0.5))
    ensures KeepGuard(KeptRows([[0.9], [0.1]], 0.5))
  {
    var t: Tensor := [[0.9], [0.1]];
    assert t[..1] == [[0.9]];
    assert t[..1][..0] == [];
    assert [0.9][..0] == [];
    assert [0.1][..0] == [];
  }

  /** The three candidate lists, `bbox_list`, `kps_list` and `score_list`. */
  datatype Candidates = Candidates(bboxes: seq<Bbox>, kpss: seq<Kps>, scores: seq<real>)

  const NoCandidates := Candidates([], [], [])

  /** The lists grow in lockstep: entry k of each belongs to the same detection. */
  predicate Lockstep(c: Candidates) {
    |c.bboxes| == |c.kpss| == |c.scores|
  }

  function Join(a: Candidates, b: Candidates): Candidates {
    Candidates(a.bboxes + b.bboxes, a.kpss + b.kpss, a.scores + b.scores)
  }

  predicate InBounds(keep: seq<nat>, n: nat) {
    forall k :: 0 <= k < |keep| ==> keep[k] < n
  }

  /** `distance_to_bbox(...)[keep_indices]`, each box rescaled to the frame. */
  function KeptBoxes(keep: seq<nat>, boxes: seq<Bbox>, r: Ratios): (kept: seq<Bbox>)
    requires InBounds(keep, |boxes|)
    ensures |kept| == |keep|
  {
    seq(|keep|, k requires 0 <= k < |keep| => RescaleBox(boxes[keep[k]], r))
  }

  function KeptKps(keep: seq<nat>, kps: seq<Kps>, r: Ratios): (kept: seq<Kps>)
    requires InBounds(keep, |kps|)
    ensures |kept| == |keep|
  {
    seq(|keep|, k requires 0 <= k < |keep| => RescaleKps(kps[keep[k]], r))
  }

  /** `detections[index][keep_indices]`, then `score[0]` of each kept row. */
  function KeptScores(keep: seq<nat>, scores: Tensor): (kept: seq<real>)
    requires forall k :: 0 <= k < |keep| ==> keep[k] < |scores| && |scores[keep[k]]| > 0
    ensures |kept| == |keep|
  {
    seq(|keep|, k requires 0 <= k < |keep| => scores[keep[k]][0])
  }

  /** One iteration of the stride loop: scores from output `index`, boxes from
      output `index + 3`, landmarks from output `index + 6`, both scaled by
      the stride before decoding. A missing output or a kept index the decoded
      rows do not cover raises IndexError. */
  function StrideCandidates(detections: seq<Tensor>, index: nat, threshold: real,
                            detectorHeight: int, detectorWidth: int, r: Ratios, decoder: RetinaDecoder): (c: Result<Candidates>)
    requires index < |FeatureStrides|
    ensures c.Ok? ==> Lockstep(c.value)
  {
    if index >= |detections| then Err(IndexError)
    else
      var keep := KeptRows(detections[index], threshold);
      if !KeepGuard(keep) then Ok(NoCandidates)
      else if index + 2 * FeatureMapChannel >= |detections| then Err(IndexError)
      else
        var stride := FeatureStrides[index];
        var grid := GridFor(stride, detectorHeight, detectorWidth);
        var boxes := decoder.boxes(grid, Scale(detections[index + FeatureMapChannel], stride as real));
        var kps := decoder.kps(grid, Scale(detections[index + 2 * FeatureMapChannel], stride as real));
        if !InBounds(keep, |boxes|) || !InBounds(keep, |kps|) then Err(IndexError)
        else Ok(Candidates(KeptBoxes(keep, boxes, r), KeptKps(keep, kps, r), KeptScores(keep, detections[index])))
  }

  /** The first `n` strides, their candidates concatenated in stride order. */
  function RetinaCandidates(detections: seq<Tensor>, threshold: real, detectorHeight: int, detectorWidth: int,
                            r: Ratios, decoder: RetinaDecoder, n: nat): (c: Result<Candidates>)
    requires n <= |FeatureStrides|
    ensures c.Ok? ==> Lockstep(c.value)
  {
    if n == 0 then Ok(NoCandidates)
    else
      var before :- RetinaCandidates(detections, threshold, detectorHeight, detectorWidth, r, decoder, n - 1);
      var more :- StrideCandidates(detections, n - 1, threshold, detectorHeight, detectorWidth, r, decoder);
      Ok(Join(before, more))
  }

  /** An exception in an early stride ends the loop: later strides do not run. */
  lemma {:induction false} RetinaErrorPersists(detections: seq<Tensor>, threshold: real, detectorHeight: int,
                                               detectorWidth: int, r: Ratios, decoder: RetinaDecoder, n: nat, m: nat)
    requires n <= m <= |FeatureStrides|
    requires RetinaCandidates(detections, threshold, detectorHeight, detectorWidth, r, decoder, n).Err?
    ensures RetinaCandidates(detections, threshold, detectorHeight, detectorWidth, r, decoder, m)
      == RetinaCandidates(detections, threshold, detectorHeight, detectorWidth, r, decoder, n)
    decreases m
  {
    if n < m {
      RetinaErrorPersists(detections, threshold, detectorHeight, detectorWidth, r, decoder, n, m - 1);
    }
  }

  /** `bbox_list.append(bbox * ratio)` over the kept rows. */
  method AppendBoxes(list: seq<Bbox>, keep: seq<nat>, boxes: seq<Bbox>, r: Ratios) returns (out: seq<Bbox>)
    requires InBounds(keep, |boxes|)
    ensures out == list + KeptBoxes(keep, boxes, r)
  {
    out := list;
    for k := 0 to |keep|
      invariant out == list + KeptBoxes(keep, boxes, r)[..k]
    {
      assert KeptBoxes(keep, boxes, r)[..k + 1] == KeptBoxes(keep, boxes, r)[..k] + [RescaleBox(boxes[keep[k]], r)];
      out := out + [RescaleBox(boxes[keep[k]], r)];
    }
    assert KeptBoxes(keep, boxes, r)[..|keep|] == KeptBoxes(keep, boxes, r);
  }

  /** `kps_list.append(kps * ratio)` over the kept rows. */
  method AppendKps(list: seq<Kps>, keep: seq<nat>, kps: seq<Kps>, r: Ratios) returns (out: seq<Kps>)
    requires InBounds(keep, |kps|)
    ensures out == list + KeptKps(keep, kps, r)
  {
    out := list;
    for k := 0 to |keep|
      invariant out == list + KeptKps(keep, kps, r)[..k]
    {
      assert KeptKps(keep, kps, r)[..k + 1] == KeptKps(keep, kps, r)[..k] + [RescaleKps(kps[keep[k]], r)];
      out := out + [RescaleKps(kps[keep[k]], r)];
    }
    assert KeptKps(keep, kps, r)[..|keep|] == KeptKps(keep, kps, r);
  }

  /** `score_list.append(score)` over the kept rows. */
  method AppendScores(list: seq<real>, keep: seq<nat>, scores: Tensor) returns (out: seq<real>)
    requires forall k :: 0 <= k < |keep| ==> keep[k] < |scores| && |scores[keep[k]]| > 0
    ensures out == list + KeptScores(keep, scores)
  {
    out := list;
    for k := 0 to |keep|
      invariant out == list + KeptScores(keep, scores)[..k]
    {
      assert KeptScores(keep, scores)[..k + 1] == KeptScores(keep, scores)[..k] + [scores[keep[k]][0]];
      out := out + [scores[keep[k]][0]];
    }
    assert KeptScores(keep, scores)[..|keep|] == KeptScores(keep, scores);
  }

  /** One pass of the stride loop: append this stride's candidates to the lists. */
  method AppendStride(detections: seq<Tensor>, index: nat, threshold: real, detectorHeight: int, detectorWidth: int,
                      r: Ratios, decoder: RetinaDecoder, lists: Candidates) returns (c: Result<Candidates>)
    requires index < |FeatureStrides|
    ensures StrideCandidates(detections, index, threshold, detectorHeight, detectorWidth, r, decoder).Err? ==>
      c == Err(StrideCandidates(detections, index, threshold, detectorHeight, detectorWidth, r, decoder).error)
    ensures StrideCandidates(detections, index, threshold, detectorHeight, detectorWidth, r, decoder).Ok? ==>
      c == Ok(Join(lists, StrideCandidates(detections, index, threshold, detectorHeight, detectorWidth, r, decoder).value))
  {
    if index >= |detections| {
      return Err(IndexError);
    }
    var keep := KeptRows(detections[index], threshold);
    if !KeepGuard(keep) {
      assert Join(lists, NoCandidates) == lists;
      return Ok(lists);
    }
    if index + 2 * FeatureMapChannel >= |detections| {
      return Err(IndexError);
    }
    var stride := FeatureStrides[index];
    var grid := GridFor(stride, detectorHeight, detectorWidth);
    var boxes := decoder.boxes(grid, Scale(detections[index + FeatureMapChannel], stride as real));
    var kps := decoder.kps(grid, Scale(detections[index + 2 * FeatureMapChannel], stride as real));
    if !InBounds(keep, |boxes|) || !InBounds(keep, |kps|) {
      return Err(IndexError);
    }
    var bboxList := AppendBoxes(lists.bboxes, keep, boxes, r);
    var kpsList := AppendKps(lists.kpss, keep, kps, r);
    var scoreList := AppendScores(lists.scores, keep, detections[index]);
    return Ok(Candidates(bboxList, kpsList, scoreList));
  }

  /** The RetinaFace branch of `extract_faces`: for each stride, three loops
      that append the kept boxes, landmarks and scores to the three lists. */
  method ExtractRetinaCandidates(detections: seq<Tensor>, threshold: real, detectorHeight: int, detectorWidth: int,
                                 r: Ratios, decoder: RetinaDecoder) returns (c: Result<Candidates>)
    ensures c == RetinaCandidates(detections, threshold, detectorHeight, detectorWidth, r, decoder, |FeatureStrides|)
    ensures c.Ok? ==> Lockstep(c.value)
  {
    var lists := NoCandidates;
    for index := 0 to |FeatureStrides|
      invariant RetinaCandidates(detections, threshold, detectorHeight, detectorWidth, r, decoder, index) == Ok(lists)
    {
      var next := AppendStride(detections, index, threshold, detectorHeight, detectorWidth, r, decoder, lists);
      if next.Err? {
        RetinaErrorPersists(detections, threshold, detectorHeight, detectorWidth, r, decoder, index + 1, |FeatureStrides|);
        return next;
      }
      lists := next.value;
    }
    return Ok(lists);
  }

  /** The candidates as a set of detections, each a box, its landmarks and its score. */
  function Detections(c: Candidates): set<(Bbox, Kps, real)>
    requires Lockstep(c)
  {
    set k | 0 <= k < |c.scores| :: (c.bboxes[k], c.kpss[k], c.scores[k])
  }

  lemma DetectionsOfJoin(a: Candidates, b: Candidates)
    requires Lockstep(a) && Lockstep(b)
    ensures Lockstep(Join(a, b)) && Detections(Join(a, b)) == Detections(a) + Detections(b)
  {
    var j := Join(a, b);
    forall d | d in Detections(a) ensures d in Detections(j) {
      var k :| 0 <= k < |a.scores| && d == (a.bboxes[k], a.kpss[k], a.scores[k]);
      assert (j.bboxes[k], j.kpss[k], j.scores[k]) == d;
    }
    forall d | d in Detections(j) ensures d in Detections(a) + Detections(b) {
      var k :| 0 <= k < |j.scores| && d == (j.bboxes[k], j.kpss[k], j.scores[k]);
      if k >= |a.scores| {
        var m := k - |a.scores|;
        assert (b.bboxes[m], b.kpss[m], b.scores[m]) == d;
      }
    }
    forall d | d in Detections(b) ensures d in Detections(j) {
      var m :| 0 <= m < |b.scores| && d == (b.bboxes[m], b.kpss[m], b.scores[m]);
      var k := m + |a.scores|;
      assert (j.bboxes[k], j.kpss[k], j.scores[k]) == d;
    }
  }

  /** Raising the threshold of one stride can only remove detections: when the
      lower threshold succeeds the higher one succeeds too, with a subset. */
  lemma StrideThresholdMonotone(detections: seq<Tensor>, index: nat, t1: real, t2: real,
                                detectorHeight: int, detectorWidth: int, r: Ratios, decoder: RetinaDecoder)
    requires index < |FeatureStrides| && t1 <= t2
    requires StrideCandidates(detections, index, t1, detectorHeight, detectorWidth, r, decoder).Ok?
    ensures StrideCandidates(detections, index, t2, detectorHeight, detectorWidth, r, decoder).Ok?
    ensures Detections(StrideCandidates(detections, index, t2, detectorHeight, detectorWidth, r, decoder).value)
      <= Detections(StrideCandidates(detections, index, t1, detectorHeight, detectorWidth, r, decoder).value)
  {
    var keep1, keep2 := KeptRows(detections[index], t1), KeptRows(detections[index], t2);
    if KeepGuard(keep2) {
      KeptRowsMonotone(detections[index], t1, t2, keep2[0]);
      assert KeepGuard(keep1);
      var stride := FeatureStrides[index];
      var grid := GridFor(stride, detectorHeight, detectorWidth);
      var boxes := decoder.boxes(grid, Scale(detections[index + FeatureMapChannel], stride as real));
      var kps := decoder.kps(grid, Scale(detections[index + 2 * FeatureMapChannel], stride as real));
      forall k | 0 <= k < |keep2| ensures keep2[k] in keep1 {
        KeptRowsMonotone(detections[index], t1, t2, keep2[k]);
      }
      assert InBounds(keep2, |boxes|) && InBounds(keep2, |kps|) by {
        forall k | 0 <= k < |keep2| ensures keep2[k] < |boxes| && keep2[k] < |kps| {
          var m :| 0 <= m < |keep1| && keep1[m] == keep2[k];
        }
      }
      var c1 := StrideCandidates(detections, index, t1, detectorHeight, detectorWidth, r, decoder).value;
      var c2 := StrideCandidates(detections, index, t2, detectorHeight, detectorWidth, r, decoder).value;
      forall d | d in Detections(c2) ensures d in Detections(c1) {
        var k :| 0 <= k < |c2.scores| && d == (c2.bboxes[k], c2.kpss[k], c2.scores[k]);
        var m :| 0 <= m < |keep1| && keep1[m] == keep2[k];
        assert (c1.bboxes[m], c1.kpss[m], c1.scores[m]) == d;
      }
    }
  }

  /** Across all strides: a higher threshold yields a subset of the candidates
      a lower one yields, before suppression. */
  lemma {:induction false} RetinaThresholdMonotone(detections: seq<Tensor>, t1: real, t2: real,
                                                   detectorHeight: int, detectorWidth: int, r: Ratios,
                                                   decoder: RetinaDecoder, n: nat)
    requires n <= |FeatureStrides| && t1 <= t2
    requires RetinaCandidates(detections, t1, detectorHeight, detectorWidth, r, decoder, n).Ok?
    ensures RetinaCandidates(detections, t2, detectorHeight, detectorWidth, r, decoder, n).Ok?
    ensures Detections(RetinaCandidates(detections, t2, detectorHeight, detectorWidth, r, decoder, n).value)
      <= Detections(RetinaCandidates(detections, t1, detectorHeight, detectorWidth, r, decoder, n).value)
  {
    if n > 0 {
      RetinaThresholdMonotone(detections, t1, t2, detectorHeight, detectorWidth, r, decoder, n - 1);
      StrideThresholdMonotone(detections, n - 1, t1, t2, detectorHeight, detectorWidth, r, decoder);
      var a1 := RetinaCandidates(detections, t1, detectorHeight, detectorWidth, r, decoder, n - 1).value;
      var a2 := RetinaCandidates(detections, t2, detectorHeight, detectorWidth, r, decoder, n - 1).value;
      var b1 := StrideCandidates(detections, n - 1, t1, detectorHeight, detectorWidth, r, decoder).value;
      var b2 := StrideCandidates(detections, n - 1, t2, detectorHeight, detectorWidth, r, decoder).value;
      assert RetinaCandidates(detections, t1, detectorHeight, detectorWidth, r, decoder, n) == Ok(Join(a1, b1));
      assert RetinaCandidates(detections, t2, detectorHeight, detectorWidth, r, decoder, n) == Ok(Join(a2, b2));
      DetectionsOfJoin(a1, b1);
      DetectionsOfJoin(a2, b2);
    }
  }

  // ---------------------------------------------------------------------------
  // YuNet: one row of 15 numbers per detection
  // ---------------------------------------------------------------------------

  /** A YuNet box `(x, y, w, h)` as corners `(x1, y1, x2, y2)`, rescaled. */
  function YunetBox(x: real, y: real, w: real, h: real, r: Ratios): Bbox {
    Bbox(x * r.width, y * r.height, (x + w) * r.width, (y + h) * r.height)
  }

  /** With non-negative extent and ratios the converted corners are ordered. */
  lemma YunetBoxOrdered(x: real, y: real, w: real, h: real, r: Ratios)
    requires w >= 0.0 && h >= 0.0 && r.width >= 0.0 && r.height >= 0.0
    ensures YunetBox(x, y, w, h, r).x1 <= YunetBox(x, y, w, h, r).x2
    ensures YunetBox(x, y, w, h, r).y1 <= YunetBox(x, y, w, h, r).y2
    ensures YunetBox(x, y, w, h, r).x2 - YunetBox(x, y, w, h, r).x1 == w * r.width
    ensures YunetBox(x, y, w, h, r).y2 - YunetBox(x, y, w, h, r).y1 == h * r.height
  {
    assert (x + w) * r.width == x * r.width + w * r.width;
    assert (y + h) * r.height == y * r.height + h * r.height;
    assert w * r.width >= 0.0;
    assert h * r.height >= 0.0;
  }

  /** `detection[4:14].reshape((5, 2))`, each point rescaled. */
  function YunetKps(row: seq<real>, r: Ratios): (kps: Kps)
    requires |row| >= 14
    ensures |kps| == 5
  {
    seq(5, p requires 0 <= p < 5 => RescalePoint(Point(row[4 + 2 * p], row[5 + 2 * p]), r))
  }

  /** One detection row: fewer than 4 numbers raise IndexError, fewer than 14
      make the reshape raise ValueError, and a missing score raises IndexError. */
  function YunetRow(row: seq<real>, r: Ratios): Result<(Bbox, Kps, real)> {
    if |row| < 4 then Err(IndexError)
    else if |row| < 14 then Err(ValueError)
    else if |row| < 15 then Err(IndexError)
    else Ok((YunetBox(row[0], row[1], row[2], row[3], r), YunetKps(row, r), row[14]))
  }

  function YunetRows(rows: seq<seq<real>>, r: Ratios): (c: Result<Candidates>)
    ensures c.Ok? ==> Lockstep(c.value) && |c.value.scores| == |rows|
  {
    if rows == [] then Ok(NoCandidates)
    else
      var before :- YunetRows(rows[..|rows| - 1], r);
      var d :- YunetRow(rows[|rows| - 1], r);
      Ok(Join(before, Candidates([d.0], [d.1], [d.2])))
  }

  /** A row that fails ends the loop with its exception. */
  lemma {:induction false} YunetErrorPersists(rows: seq<seq<real>>, r: Ratios, i: nat)
    requires i <= |rows| && YunetRows(rows[..i], r).Err?
    ensures YunetRows(rows, r) == YunetRows(rows[..i], r)
    decreases |rows| - i
  {
    if i < |rows| {
      assert rows[..i + 1][..i] == rows[..i];
      YunetErrorPersists(rows, r, i + 1);
    } else {
      assert rows[..i] == rows;
    }
  }

  /** `detections.any()`: some number in the output is non-zero. */
  predicate AnyNonZero(rows: seq<seq<real>>) {
    exists i, j :: 0 <= i < |rows| && 0 <= j < |rows[i]| && rows[i][j] != 0.0
  }

  /** The YuNet branch: no output at all (`None.any()`) raises AttributeError;
      an all-zero output adds nothing. */
  function YunetCandidates(detections: Option<seq<seq<real>>>, r: Ratios): (c: Result<Candidates>)
    ensures c.Ok? ==> Lockstep(c.value)
  {
    match detections
    case None => Err(AttributeError)
    case Some(rows) => if AnyNonZero(rows) then YunetRows(rows, r) else Ok(NoCandidates)
  }

  /** The YuNet loop appending to the three lists, one detection per row. */
  method ExtractYunetCandidates(detections: Option<seq<seq<real>>>, r: Ratios) returns (c: Result<Candidates>)
    ensures c == YunetCandidates(detections, r)
  {
    if detections.None? {
      return Err(AttributeError);
    }
    var rows := detections.value;
    var bboxList: seq<Bbox> := [];
    var kpsList: seq<Kps> := [];
    var scoreList: seq<real> := [];
    if AnyNonZero(rows) {
      for i := 0 to |rows|
        invariant YunetRows(rows[..i], r) == Ok(Candidates(bboxList, kpsList, scoreList))
      {
        var detection := rows[i];
        assert rows[..i + 1][..i] == rows[..i];
        if |detection| < 4 {
          YunetErrorPersists(rows, r, i + 1);
          return Err(IndexError);
        }
        bboxList := bboxList + [YunetBox(detection[0], detection[1], detection[2], detection[3], r)];
        if |detection| < 14 {
          YunetErrorPersists(rows, r, i + 1);
          return Err(ValueError);
        }
        kpsList := kpsList + [YunetKps(detection, r)];
        if |detection| < 15 {
          YunetErrorPersists(rows, r, i + 1);
          return Err(IndexError);
        }
        scoreList := scoreList + [detection[14]];
      }
      assert rows[..|rows|] == rows;
    }
    return Ok(Candidates(bboxList, kpsList, scoreList));
  }

  // ---------------------------------------------------------------------------
  // detect_gender_age's decoding and create_faces
  // ---------------------------------------------------------------------------

  /** `numpy.round`: to the nearest integer, halves to the even neighbour. */
  function RoundHalfEven(x: real): (n: int)
    ensures x - 0.5 <= n as real <= x + 0.5
    ensures x - x.Floor as real != 0.5 ==> x - 0.5 < n as real < x + 0.5
    ensures x - x.Floor as real == 0.5 ==> n % 2 == 0
  {
    var f := x.Floor;
    var d := x - f as real;
    if d < 0.5 then f else if d > 0.5 then f + 1 else if f % 2 == 0 then f else f + 1
  }

  lemma RoundIntegral(n: int)
    ensures RoundHalfEven(n as real) == n
  {
  }

  /** `argmax(prediction[:2])` for the gender (the first maximum wins, argmax
      of nothing raises ValueError) and `round(prediction[2] * 100)` for the
      age (IndexError when there is no third entry). */
  function DecodeGenderAge(prediction: seq<real>): (r: Result<(int, int)>)
    ensures r.Ok? <==> |prediction| >= 3
    ensures |prediction| == 0 ==> r == Err(ValueError)
    ensures r.Ok? ==> (r.value.0 == 1 <==> prediction[1] > prediction[0]) && (r.value.0 == 0 || r.value.0 == 1)
    ensures r.Ok? ==> prediction[2] * 100.0 - 0.5 <= r.value.1 as real <= prediction[2] * 100.0 + 0.5
  {
    if |prediction| == 0 then Err(ValueError)
    else
      var gender := if |prediction| >= 2 && prediction[1] > prediction[0] then 1 else 0;
      if |prediction| < 3 then Err(IndexError) else Ok((gender, RoundHalfEven(prediction[2] * 100.0)))
  }

  /** What the opaque recognizer and gender/age networks give for one face:
      the raw embedding, its L2-normalised form and the gender/age output. */
  datatype Description = Description(embedding: seq<real>, normedEmbedding: seq<real>, genderAge: seq<real>)

  /** One iteration of `create_faces`: `bbox_list[index]`, `kps_list[index]`
      and `score_list[index]` (Python indexing), then the description. */
  function MakeFace(frame: Frame, c: Candidates, index: int, describe: (Frame, Kps) -> Description): Result<Face> {
    match (PyIndex(|c.bboxes|, index), PyIndex(|c.kpss|, index), PyIndex(|c.scores|, index))
    case (Some(b), Some(k), Some(s)) =>
      var d := describe(frame, c.kpss[k]);
      var genderAge :- DecodeGenderAge(d.genderAge);
      Ok(Face(c.bboxes[b], c.kpss[k], c.scores[s], d.embedding, Some(d.normedEmbedding), genderAge.0, genderAge.1))
    case _ => Err(IndexError)
  }

  /** The faces for the kept indices, in the order suppression returned them;
      the first failing index decides the error. */
  function AssembleFaces(frame: Frame, c: Candidates, keep: seq<int>, describe: (Frame, Kps) -> Description): Result<seq<Face>> {
    if keep == [] then Ok([])
    else
      var before :- AssembleFaces(frame, c, keep[..|keep| - 1], describe);
      var face :- MakeFace(frame, c, keep[|keep| - 1], describe);
      Ok(before + [face])
  }

  /** A failing index ends `create_faces` with its exception. */
  lemma {:induction false} AssembleErrorPersists(frame: Frame, c: Candidates, keep: seq<int>,
                                                 describe: (Frame, Kps) -> Description, i: nat)
    requires i <= |keep| && AssembleFaces(frame, c, keep[..i], describe).Err?
    ensures AssembleFaces(frame, c, keep, describe) == AssembleFaces(frame, c, keep[..i], describe)
    decreases |keep| - i
  {
    if i < |keep| {
      assert keep[..i + 1][..i] == keep[..i];
      AssembleErrorPersists(frame, c, keep, describe, i + 1);
    } else {
      assert keep[..i] == keep;
    }
  }

  /** Non-maximum suppression (`cv2.dnn.NMSBoxes`) is opaque: boxes, scores, the
      score threshold and the IoU threshold give the kept indices. */
  type Suppression = (seq<Bbox>, seq<real>, real, real) -> seq<int>

  const NmsThreshold: real := 0.4

  /** `create_faces`: one face appended per kept index. */
  method CreateFaces(frame: Frame, c: Candidates, threshold: real, nms: Suppression,
                     describe: (Frame, Kps) -> Description) returns (r: Result<seq<Face>>)
    ensures r == AssembleFaces(frame, c, nms(c.bboxes, c.scores, threshold, NmsThreshold), describe)
  {
    var keep := nms(c.bboxes, c.scores, threshold, NmsThreshold);
    var faces: seq<Face> := [];
    for i := 0 to |keep|
      invariant AssembleFaces(frame, c, keep[..i], describe) == Ok(faces)
    {
      assert keep[..i + 1][..i] == keep[..i];
      var face := MakeFace(frame, c, keep[i], describe);
      if face.Err? {
        AssembleErrorPersists(frame, c, keep, describe, i + 1);
        return Err(face.error);
      }
      faces := faces + [face.value];
    }
    assert keep[..|keep|] == keep;
    return Ok(faces);
  }

  /** When suppression returns valid indices into lockstep lists, face k takes
      its box, landmarks and score from the same kept index, and an error can
      only come from decoding a gender/age output. */
  lemma {:induction false} AssembledFacesFromSameIndex(frame: Frame, c: Candidates, keep: seq<int>,
                                                       describe: (Frame, Kps) -> Description)
    requires Lockstep(c)
    requires forall k :: 0 <= k < |keep| ==> 0 <= keep[k] < |c.scores|
    ensures var r := AssembleFaces(frame, c, keep, describe);
      && (r.Ok? <==> forall k :: 0 <= k < |keep| ==> |describe(frame, c.kpss[keep[k]]).genderAge| >= 3)
      && (r.Ok? ==> |r.value| == |keep| && forall k :: 0 <= k < |keep| ==>
            && r.value[k].bbox == c.bboxes[keep[k]]
            && r.value[k].kps == c.kpss[keep[k]]
            && r.value[k].score == c.scores[keep[k]])
  {
    if keep != [] {
      var init := keep[..|keep| - 1];
      AssembledFacesFromSameIndex(frame, c, init, describe);
      var last := keep[|keep| - 1];
      var r := AssembleFaces(frame, c, keep, describe);
      if r.Ok? {
        forall k | 0 <= k < |keep| ensures |describe(frame, c.kpss[keep[k]]).genderAge| >= 3 {
          if k < |init| {
            assert keep[k] == init[k];
          }
        }
      }
      if forall k :: 0 <= k < |keep| ==> |describe(frame, c.kpss[keep[k]]).genderAge| >= 3 {
        assert forall k :: 0 <= k < |init| ==> init[k] == keep[k];
        assert |describe(frame, c.kpss[last]).genderAge| >= 3;
      }
    }
  }

  // ---------------------------------------------------------------------------
  // The whole of extract_faces after the analyser handle is obtained
  // ---------------------------------------------------------------------------

  /** The opaque collaborators of `extract_faces`. */
  datatype DetectorRuntime = DetectorRuntime(
    resize: (Frame, int, int) -> (nat, nat),          // resize_frame_dimension: height and width of the resized frame
    retinaRun: (Frame, int, int) -> seq<Tensor>,      // RetinaFace inference on the padded, normalised frame
    decoder: RetinaDecoder,
    yunetDetect: (Frame, nat, nat, real, real) -> Option<seq<seq<real>>>,  // input size, score and IoU thresholds
    nms: Suppression,
    describe: AnalyserHandle -> (Frame, Kps) -> Description)  // recognizer and gender/age runs on the handle's sessions

  /** The padded RetinaFace canvas cannot be built: `numpy.zeros` of a negative
      size, or a resized frame that does not fit into it, raises ValueError. */
  predicate PaddingFails(width: int, height: int, tempHeight: nat, tempWidth: nat) {
    height < 0 || width < 0 || tempHeight > height || tempWidth > width
  }

  /** The detector branch chosen by `face_detector_model`, run on the detector
      session of the held handle: RetinaFace pads the resized frame into a
      `height` by `width` canvas first and then calls `run`, YuNet starts with
      `setInputSize`, so a session of the other kind raises AttributeError;
      an unknown model contributes no candidates. */
  function DetectorCandidates(frame: Frame, detectorModel: string, handle: AnalyserHandle, width: int, height: int,
                              tempHeight: nat, tempWidth: nat, threshold: real, r: Ratios, rt: DetectorRuntime)
    : (c: Result<Candidates>)
    ensures c.Ok? ==> Lockstep(c.value)
    ensures detectorModel != "retinaface" && detectorModel != "yunet" ==> c == Ok(NoCandidates)
    ensures detectorModel == "retinaface" && PaddingFails(width, height, tempHeight, tempWidth) ==> c == Err(ValueError)
    ensures detectorModel == "retinaface" && !PaddingFails(width, height, tempHeight, tempWidth) && IsOpenCvDetector(handle)
      ==> c == Err(AttributeError)
    ensures detectorModel == "yunet" && !IsOpenCvDetector(handle) ==> c == Err(AttributeError)
  {
    if detectorModel == "retinaface" then
      if PaddingFails(width, height, tempHeight, tempWidth) then Err(ValueError)
      else if IsOpenCvDetector(handle) then Err(AttributeError)
      else RetinaCandidates(rt.retinaRun(frame, width, height), threshold, height, width, r, rt.decoder, |FeatureStrides|)
    else if detectorModel == "yunet" then
      if !IsOpenCvDetector(handle) then Err(AttributeError)
      else YunetCandidates(rt.yunetDetect(frame, tempWidth, tempHeight, threshold, NmsThreshold), r)
    else Ok(NoCandidates)
  }

  /** `extract_faces` from the size parse on, with the sessions of `handle`. */
  function ExtractedFaces(frame: Frame, handle: AnalyserHandle, detectorModel: string, detectorSize: string,
                          threshold: real, rt: DetectorRuntime): Result<seq<Face>>
  {
    var size :- ParseDetectorSize(detectorSize);
    var temp := rt.resize(frame, size.0, size.1);
    var r :- FrameRatios(frame, temp.0, temp.1);
    var c :- DetectorCandidates(frame, detectorModel, handle, size.0, size.1, temp.0, temp.1, threshold, r, rt);
    AssembleFaces(frame, c, rt.nms(c.bboxes, c.scores, threshold, NmsThreshold), rt.describe(handle))
  }

  /** The statements of `extract_faces` from the size parse on, run in order. */
  method DetectFaces(frame: Frame, handle: AnalyserHandle, detectorModel: string, detectorSize: string,
                     threshold: real, rt: DetectorRuntime) returns (faces: Result<seq<Face>>)
    ensures faces == ExtractedFaces(frame, handle, detectorModel, detectorSize, threshold, rt)
  {
    var size := ParseDetectorSize(detectorSize);
    if size.Err? {
      return Err(size.error);
    }
    var width, height := size.value.0, size.value.1;
    var temp := rt.resize(frame, width, height);
    var tempHeight, tempWidth := temp.0, temp.1;
    var ratios := FrameRatios(frame, tempHeight, tempWidth);
    if ratios.Err? {
      return Err(ratios.error);
    }
    var c: Result<Candidates> := Ok(NoCandidates);
    if detectorModel == "retinaface" {
      if PaddingFails(width, height, tempHeight, tempWidth) {
        return Err(ValueError);
      }
      if IsOpenCvDetector(handle) {
        return Err(AttributeError);
      }
      var detections := rt.retinaRun(frame, width, height);
      c := ExtractRetinaCandidates(detections, threshold, height, width, ratios.value, rt.decoder);
    }
    if detectorModel == "yunet" {
      if !IsOpenCvDetector(handle) {
        return Err(AttributeError);
      }
      var detections := rt.yunetDetect(frame, tempWidth, tempHeight, threshold, NmsThreshold);
      c := ExtractYunetCandidates(detections, ratios.value);
    }
    if c.Err? {
      return Err(c.error);
    }
    faces := CreateFaces(frame, c.value, threshold, rt.nms, rt.describe(handle));
  }
}
