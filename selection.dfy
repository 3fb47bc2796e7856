/** The face selection policy of the analyser: ordering by direction, the age
    and gender filters, picking one face by position, and the similarity
    search against a reference face. */
module Selection {
  import opened Common
  import opened Faces

  // ---------------------------------------------------------------------------
  // sort_by_direction
  // ---------------------------------------------------------------------------

  /** What a direction sorts by: the left edge `bbox[0]`, the top edge
      `bbox[1]`, or the box area. */
  datatype SortKey = LeftEdge | TopEdge | BoxArea

  /** A key and whether the order is reversed (`reverse = True`). */
  datatype Order = Order(key: SortKey, reverse: bool)

  function KeyOf(k: SortKey, f: Face): real {
    match k
    case LeftEdge => f.bbox.x1
    case TopEdge => f.bbox.y1
    case BoxArea => (f.bbox.x2 - f.bbox.x1) * (f.bbox.y2 - f.bbox.y1)
  }

  /** The six direction names; anything else is not a direction. */
  function ParseDirection(direction: string): Option<Order> {
    if direction == "left-right" then Some(Order(LeftEdge, false))
    else if direction == "right-left" then Some(Order(LeftEdge, true))
    else if direction == "top-bottom" then Some(Order(TopEdge, false))
    else if direction == "bottom-top" then Some(Order(TopEdge, true))
    else if direction == "small-large" then Some(Order(BoxArea, false))
    else if direction == "large-small" then Some(Order(BoxArea, true))
    else None
  }

  /** `a` may stand before `b`: keys non-decreasing, or non-increasing when reversed. */
  predicate InOrder(o: Order, a: Face, b: Face) {
    if o.reverse then KeyOf(o.key, a) >= KeyOf(o.key, b) else KeyOf(o.key, a) <= KeyOf(o.key, b)
  }

  predicate Sorted(o: Order, s: seq<Face>) {
    forall i, j :: 0 <= i < j < |s| ==> InOrder(o, s[i], s[j])
  }

  /** The faces whose key equals `v`; stability says their relative order survives. */
  function SameKey(k: SortKey, v: real): Face -> bool {
    (f: Face) => KeyOf(k, f) == v
  }

  /** Inserts `x` in front of the first face it may precede, hence in front of
      every face with an equal key. */
  function Insert(o: Order, x: Face, s: seq<Face>): (r: seq<Face>)
    ensures |r| == |s| + 1
  {
    if s == [] || InOrder(o, x, s[0]) then [x] + s else [s[0]] + Insert(o, x, s[1..])
  }

  /** Python's stable `sorted`, with or without `reverse = True`. */
  function StableSort(o: Order, s: seq<Face>): (r: seq<Face>)
    ensures |r| == |s|
  {
    if s == [] then [] else Insert(o, s[0], StableSort(o, s[1..]))
  }

  /** `sort_by_direction`: an unknown direction returns the list unchanged. */
  function SortByDirection(faces: seq<Face>, direction: string): seq<Face> {
    match ParseDirection(direction)
    case None => faces
    case Some(o) => StableSort(o, faces)
  }

  lemma {:induction false} InsertPermutation(o: Order, x: Face, s: seq<Face>)
    ensures multiset(Insert(o, x, s)) == multiset{x} + multiset(s)
  {
    if s != [] && !InOrder(o, x, s[0]) {
      InsertPermutation(o, x, s[1..]);
      assert s == [s[0]] + s[1..];
    }
  }

  lemma {:induction false} InsertSorted(o: Order, x: Face, s: seq<Face>)
    requires Sorted(o, s)
    ensures Sorted(o, Insert(o, x, s))
  {
    if s == [] || InOrder(o, x, s[0]) {
      var r := [x] + s;
      forall i, j | 0 <= i < j < |r| ensures InOrder(o, r[i], r[j]) {
        if i == 0 && j > 1 {
          assert InOrder(o, s[0], s[j - 1]);
        }
      }
    } else {
      var t := Insert(o, x, s[1..]);
      InsertSorted(o, x, s[1..]);
      InsertPermutation(o, x, s[1..]);
      forall k | 0 <= k < |t| ensures InOrder(o, s[0], t[k]) {
        assert t[k] in multiset(t);
        if t[k] != x {
          assert t[k] in multiset(s[1..]);
          var m :| 0 <= m < |s[1..]| && s[1..][m] == t[k];
          assert InOrder(o, s[0], s[m + 1]);
        }
      }
      var r := [s[0]] + t;
      forall i, j | 0 <= i < j < |r| ensures InOrder(o, r[i], r[j]) {
        if i > 0 {
          assert r[i] == t[i - 1] && r[j] == t[j - 1];
        }
      }
    }
  }

  lemma {:induction false} InsertStable(o: Order, x: Face, s: seq<Face>, v: real)
    ensures Filter(Insert(o, x, s), SameKey(o.key, v)) == Filter([x], SameKey(o.key, v)) + Filter(s, SameKey(o.key, v))
  {
    var p := SameKey(o.key, v);
    if s == [] || InOrder(o, x, s[0]) {
      FilterConcat([x], s, p);
    } else {
      var t := s[1..];
      InsertStable(o, x, t, v);
      FilterConcat([s[0]], Insert(o, x, t), p);
      assert [s[0]] + t == s;
      FilterConcat([s[0]], t, p);
      FilterSingleton(x, p);
      FilterSingleton(s[0], p);
      assert KeyOf(o.key, x) != KeyOf(o.key, s[0]);
    }
  }

  /** The stable sort is a permutation of its input, is ordered by the key, and
      keeps the input order of faces with equal keys. */
  lemma {:induction false} StableSortCorrect(o: Order, s: seq<Face>, v: real)
    ensures multiset(StableSort(o, s)) == multiset(s)
    ensures Sorted(o, StableSort(o, s))
    ensures Filter(StableSort(o, s), SameKey(o.key, v)) == Filter(s, SameKey(o.key, v))
  {
    if s != [] {
      var t := s[1..];
      StableSortCorrect(o, t, v);
      InsertPermutation(o, s[0], StableSort(o, t));
      InsertSorted(o, s[0], StableSort(o, t));
      InsertStable(o, s[0], StableSort(o, t), v);
      assert [s[0]] + t == s;
      FilterConcat([s[0]], t, SameKey(o.key, v));
    }
  }

  /** `sort_by_direction` returns a permutation of its input; for a known
      direction it is ordered by that direction's key and faces with equal keys
      keep their input order (also with `reverse = True`); for an unknown
      direction it is the input itself. */
  lemma SortByDirectionCorrect(faces: seq<Face>, direction: string)
    ensures multiset(SortByDirection(faces, direction)) == multiset(faces)
    ensures ParseDirection(direction).None? ==> SortByDirection(faces, direction) == faces
    ensures ParseDirection(direction).Some? ==>
      var o := ParseDirection(direction).value;
      && Sorted(o, SortByDirection(faces, direction))
      && forall v :: Filter(SortByDirection(faces, direction), SameKey(o.key, v)) == Filter(faces, SameKey(o.key, v))
  {
    match ParseDirection(direction)
    case None =>
    case Some(o) =>
      StableSortCorrect(o, faces, 0.0);
      forall v ensures Filter(SortByDirection(faces, direction), SameKey(o.key, v)) == Filter(faces, SameKey(o.key, v)) {
        StableSortCorrect(o, faces, v);
      }
  }

  /** "left-right" orders by non-decreasing left edge and "right-left" by
      non-increasing left edge. */
  lemma LeftRightOrders(faces: seq<Face>, i: nat, j: nat)
    requires i < j < |faces|
    ensures SortByDirection(faces, "left-right")[i].bbox.x1 <= SortByDirection(faces, "left-right")[j].bbox.x1
    ensures SortByDirection(faces, "right-left")[i].bbox.x1 >= SortByDirection(faces, "right-left")[j].bbox.x1
  {
    SortByDirectionCorrect(faces, "left-right");
    SortByDirectionCorrect(faces, "right-left");
  }

  // ---------------------------------------------------------------------------
  // filter_by_age and filter_by_gender
  // ---------------------------------------------------------------------------

  /** The `if/elif` chain of `filter_by_age`: the bands are cumulative upper
      bounds, so "teen" also keeps children and "adult" keeps every age below 60. */
  predicate AgeKeeps(age: string, faceAge: int) {
    || (faceAge < 13 && age == "child")
    || (faceAge < 19 && age == "teen")
    || (faceAge < 60 && age == "adult")
    || (faceAge > 59 && age == "senior")
  }

  function AgeFilter(age: string): Face -> bool {
    (f: Face) => AgeKeeps(age, f.age)
  }

  /** `filter_by_age`: one pass appending each face whose age is in the band. */
  method FilterByAge(faces: seq<Face>, age: string) returns (kept: seq<Face>)
    ensures kept == Filter(faces, AgeFilter(age))
  {
    kept := [];
    for i := 0 to |faces|
      invariant kept == Filter(faces[..i], AgeFilter(age))
    {
      FilterStep(faces, i, AgeFilter(age));
      var face := faces[i];
      if face.age < 13 && age == "child" {
        kept := kept + [face];
      } else if face.age < 19 && age == "teen" {
        kept := kept + [face];
      } else if face.age < 60 && age == "adult" {
        kept := kept + [face];
      } else if face.age > 59 && age == "senior" {
        kept := kept + [face];
      }
    }
    assert faces[..|faces|] == faces;
  }

  /** The age filter keeps, in order and with their multiplicity, exactly the
      faces inside the band: child below 13, teen below 19, adult below 60,
      senior above 59; any other value keeps nothing. */
  lemma AgeFilterBands(faces: seq<Face>, age: string, f: Face)
    ensures multiset(Filter(faces, AgeFilter(age)))[f] ==
      if (age == "child" && f.age < 13) || (age == "teen" && f.age < 19)
        || (age == "adult" && f.age < 60) || (age == "senior" && f.age >= 60)
      then multiset(faces)[f] else 0
    ensures age !in {"child", "teen", "adult", "senior"} ==> Filter(faces, AgeFilter(age)) == []
  {
    FilterCount(faces, AgeFilter(age), f);
    if age !in {"child", "teen", "adult", "senior"} {
      FilterNone(faces, AgeFilter(age));
    }
  }

  /** The bands nest: whatever "child" keeps "teen" keeps, and whatever "teen"
      keeps "adult" keeps. So the four bands do not partition the ages. */
  lemma AgeBandsCumulative(faces: seq<Face>)
    ensures multiset(Filter(faces, AgeFilter("child"))) <= multiset(Filter(faces, AgeFilter("teen")))
    ensures multiset(Filter(faces, AgeFilter("teen"))) <= multiset(Filter(faces, AgeFilter("adult")))
  {
    FilterMonotone(faces, AgeFilter("child"), AgeFilter("teen"));
    FilterMonotone(faces, AgeFilter("teen"), AgeFilter("adult"));
  }

  /** `filter_by_gender`: gender 0 is "female", gender 1 is "male". */
  predicate GenderKeeps(gender: string, g: int) {
    (g == 0 && gender == "female") || (g == 1 && gender == "male")
  }

  function GenderFilter(gender: string): Face -> bool {
    (f: Face) => GenderKeeps(gender, f.gender)
  }

  /** `filter_by_gender`: two independent `if`s per face, of which at most one holds. */
  method FilterByGender(faces: seq<Face>, gender: string) returns (kept: seq<Face>)
    ensures kept == Filter(faces, GenderFilter(gender))
  {
    kept := [];
    for i := 0 to |faces|
      invariant kept == Filter(faces[..i], GenderFilter(gender))
    {
      FilterStep(faces, i, GenderFilter(gender));
      var face := faces[i];
      if face.gender == 0 && gender == "female" {
        kept := kept + [face];
      }
      if face.gender == 1 && gender == "male" {
        kept := kept + [face];
      }
    }
    assert faces[..|faces|] == faces;
  }

  /** The gender filter keeps each face as often as it occurs in the input
      exactly when its gender matches, never twice as often; any value other
      than "female" or "male" keeps nothing. */
  lemma GenderFilterExact(faces: seq<Face>, gender: string, f: Face)
    ensures multiset(Filter(faces, GenderFilter(gender)))[f] ==
      if (gender == "female" && f.gender == 0) || (gender == "male" && f.gender == 1)
      then multiset(faces)[f] else 0
    ensures gender != "female" && gender != "male" ==> Filter(faces, GenderFilter(gender)) == []
  {
    FilterCount(faces, GenderFilter(gender), f);
    if gender != "female" && gender != "male" {
      FilterNone(faces, GenderFilter(gender));
    }
  }

  // ---------------------------------------------------------------------------
  // The get_many_faces policy and get_one_face
  // ---------------------------------------------------------------------------

  /** The three selection settings; each may be unset. */
  datatype Policy = Policy(direction: Option<string>, age: Option<string>, gender: Option<string>)

  /** Python truthiness of an optional string setting. */
  predicate IsSet(setting: Option<string>) {
    setting.Some? && setting.value != ""
  }

  /** Sort, then age filter, then gender filter, each only when its setting is set. */
  function SelectFaces(faces: seq<Face>, p: Policy): seq<Face> {
    var sorted := if IsSet(p.direction) then SortByDirection(faces, p.direction.value) else faces;
    var aged := if IsSet(p.age) then Filter(sorted, AgeFilter(p.age.value)) else sorted;
    if IsSet(p.gender) then Filter(aged, GenderFilter(p.gender.value)) else aged
  }

  /** Every selected face comes from the input, no more often than it occurs
      there; with nothing set the input is returned as it is. */
  lemma SelectFacesFromInput(faces: seq<Face>, p: Policy)
    ensures multiset(SelectFaces(faces, p)) <= multiset(faces)
    ensures !IsSet(p.direction) && !IsSet(p.age) && !IsSet(p.gender) ==> SelectFaces(faces, p) == faces
  {
    var sorted := if IsSet(p.direction) then SortByDirection(faces, p.direction.value) else faces;
    if IsSet(p.direction) {
      SortByDirectionCorrect(faces, p.direction.value);
    }
    var aged := if IsSet(p.age) then Filter(sorted, AgeFilter(p.age.value)) else sorted;
    if IsSet(p.age) {
      FilterSubMultiset(sorted, AgeFilter(p.age.value));
    }
    if IsSet(p.gender) {
      FilterSubMultiset(aged, GenderFilter(p.gender.value));
    }
  }

  /** `get_one_face` on an already selected list: `faces[position]`, with
      Python's negative indices, falling back to the last face when the index
      is out of range, and nothing for an empty list. */
  function PickFace(faces: seq<Face>, position: int): (r: Option<Face>)
    ensures r.None? <==> faces == []
    ensures 0 <= position < |faces| ==> r == Some(faces[position])
    ensures position >= |faces| > 0 ==> r == Some(faces[|faces| - 1])
    ensures r.Some? ==> r.value in faces
  {
    if faces == [] then None
    else match PyIndex(|faces|, position)
      case Some(i) => Some(faces[i])
      case None => Some(faces[|faces| - 1])
  }

  /** The clamp-to-last rule: any position past the end selects the same face
      as the last position (position 5 on two faces equals position 1). */
  lemma PickFaceClamps(faces: seq<Face>, position: int)
    requires |faces| > 0 && position >= |faces|
    ensures PickFace(faces, position) == PickFace(faces, |faces| - 1)
  {
  }

  // ---------------------------------------------------------------------------
  // find_similar_faces
  // ---------------------------------------------------------------------------

  function Dot(a: seq<real>, b: seq<real>): real
    requires |a| == |b|
  {
    if a == [] then 0.0 else Dot(a[..|a| - 1], b[..|b| - 1]) + a[|a| - 1] * b[|b| - 1]
  }

  /** Both faces carry a normed embedding (the two `hasattr` tests). */
  predicate Comparable(f: Face, reference: Face) {
    f.normedEmbedding.Some? && reference.normedEmbedding.Some?
  }

  /** `numpy.dot` of two vectors raises ValueError unless their lengths agree. */
  predicate DimensionsAgree(faces: seq<Face>, reference: Face) {
    forall i :: 0 <= i < |faces| && Comparable(faces[i], reference) ==>
      |faces[i].normedEmbedding.value| == |reference.normedEmbedding.value|
  }

  /** A face within `threshold` of the reference: both embeddings present and
      `1 - dot(face, reference)` strictly below the threshold. */
  function CloseTo(reference: Face, threshold: real): Face -> bool {
    (f: Face) =>
      && Comparable(f, reference)
      && |f.normedEmbedding.value| == |reference.normedEmbedding.value|
      && 1.0 - Dot(f.normedEmbedding.value, reference.normedEmbedding.value) < threshold
  }

  /** The loop of `find_similar_faces`, face by face, raising at the first face
      whose embedding length differs from the reference's. */
  function SimilarFaces(faces: seq<Face>, reference: Face, threshold: real): Result<seq<Face>>
  {
    if faces == [] then Ok([])
    else
      var similar :- SimilarFaces(faces[..|faces| - 1], reference, threshold);
      var f := faces[|faces| - 1];
      if Comparable(f, reference) then
        if |f.normedEmbedding.value| != |reference.normedEmbedding.value| then Err(ValueError)
        else if 1.0 - Dot(f.normedEmbedding.value, reference.normedEmbedding.value) < threshold then Ok(similar + [f])
        else Ok(similar)
      else Ok(similar)
  }

  /** When the embedding lengths agree the search returns, in order, exactly the
      faces closer than the threshold (faces without an embedding skipped);
      otherwise it raises ValueError. */
  lemma {:induction false} SimilarFacesIsFilter(faces: seq<Face>, reference: Face, threshold: real)
    ensures SimilarFaces(faces, reference, threshold) ==
      if DimensionsAgree(faces, reference) then Ok(Filter(faces, CloseTo(reference, threshold))) else Err(ValueError)
  {
    if faces != [] {
      var init := faces[..|faces| - 1];
      SimilarFacesIsFilter(init, reference, threshold);
      var f := faces[|faces| - 1];
      if DimensionsAgree(faces, reference) {
        assert Comparable(f, reference) ==> |f.normedEmbedding.value| == |reference.normedEmbedding.value| by {
          assert faces[|faces| - 1] == f;
        }
        var close := CloseTo(reference, threshold);
        assert close(f) <==> (Comparable(f, reference)
          && 1.0 - Dot(f.normedEmbedding.value, reference.normedEmbedding.value) < threshold);
        assert Filter(faces, close) == Filter(init, close) + if close(f) then [f] else [];
        assert DimensionsAgree(init, reference) by {
          forall i | 0 <= i < |init| && Comparable(init[i], reference)
            ensures |init[i].normedEmbedding.value| == |reference.normedEmbedding.value|
          {
            assert init[i] == faces[i];
          }
        }
        assert SimilarFaces(init, reference, threshold) == Ok(Filter(init, close));
        if Comparable(f, reference) {
          if close(f) {
            assert SimilarFaces(faces, reference, threshold) == Ok(Filter(init, close) + [f]);
          } else {
            assert SimilarFaces(faces, reference, threshold) == Ok(Filter(init, close));
            assert Filter(faces, close) == Filter(init, close) + [];
            assert Filter(init, close) + [] == Filter(init, close);
          }
        } else {
          assert SimilarFaces(faces, reference, threshold) == Ok(Filter(init, close));
          assert Filter(faces, close) == Filter(init, close) + [];
          assert Filter(init, close) + [] == Filter(init, close);
        }
      } else if DimensionsAgree(init, reference) {
        var i :| 0 <= i < |faces| && Comparable(faces[i], reference)
          && |faces[i].normedEmbedding.value| != |reference.normedEmbedding.value|;
        assert i == |faces| - 1;
      } else {
        assert !DimensionsAgree(faces, reference);
      }
    }
  }

  /** `find_similar_faces`' loop over the selected faces. */
  method CollectSimilarFaces(faces: seq<Face>, reference: Face, threshold: real) returns (r: Result<seq<Face>>)
    ensures r == SimilarFaces(faces, reference, threshold)
  {
    SimilarFacesIsFilter(faces, reference, threshold);
    var similar := [];
    for i := 0 to |faces|
      invariant similar == Filter(faces[..i], CloseTo(reference, threshold))
      invariant forall j :: 0 <= j < i && Comparable(faces[j], reference) ==>
        |faces[j].normedEmbedding.value| == |reference.normedEmbedding.value|
    {
      FilterStep(faces, i, CloseTo(reference, threshold));
      var face := faces[i];
      if face.normedEmbedding.Some? && reference.normedEmbedding.Some? {
        if |face.normedEmbedding.value| != |reference.normedEmbedding.value| {
          assert !DimensionsAgree(faces, reference);
          return Err(ValueError);
        }
        var distance := 1.0 - Dot(face.normedEmbedding.value, reference.normedEmbedding.value);
        if distance < threshold {
          similar := similar + [face];
        }
      }
    }
    assert faces[..|faces|] == faces;
    return Ok(similar);
  }

  /** The dot product of two vectors is at most the mean of their squared norms. */
  lemma {:induction false} DotBound(a: seq<real>, b: seq<real>)
    requires |a| == |b|
    ensures Dot(a, b) <= (Dot(a, a) + Dot(b, b)) / 2.0
  {
    if a != [] {
      DotBound(a[..|a| - 1], b[..|b| - 1]);
      var x, y := a[|a| - 1], b[|b| - 1];
      assert 0.0 <= (x - y) * (x - y) == x * x - 2.0 * x * y + y * y;
    }
  }

  /** Unit-length embeddings are never farther than distance 0 apart from
      below, so a threshold of 0 (or less) finds no similar face, even the
      reference itself. */
  lemma NothingSimilarBelowZero(faces: seq<Face>, reference: Face, threshold: real)
    requires threshold <= 0.0
    requires reference.normedEmbedding.Some? ==> Dot(reference.normedEmbedding.value, reference.normedEmbedding.value) == 1.0
    requires forall i :: 0 <= i < |faces| && faces[i].normedEmbedding.Some? ==>
      Dot(faces[i].normedEmbedding.value, faces[i].normedEmbedding.value) == 1.0
    ensures SimilarFaces(faces, reference, threshold).Ok? ==> SimilarFaces(faces, reference, threshold).value == []
  {
    SimilarFacesIsFilter(faces, reference, threshold);
    forall i | 0 <= i < |faces| ensures !CloseTo(reference, threshold)(faces[i]) {
      var f := faces[i];
      if Comparable(f, reference) && |f.normedEmbedding.value| == |reference.normedEmbedding.value| {
        DotBound(f.normedEmbedding.value, reference.normedEmbedding.value);
      }
    }
    FilterNone(faces, CloseTo(reference, threshold));
  }
}
