/** The recommendation filter of the prediction microservice
    (python_microservice/app/postprocess.py): the rows of the medicine table
    whose predicted disease equals the given one, the conventional or the
    alternative columns by preference, and one medicine-rating pair per row. */
module Postprocess {
  import opened Lists

  /** One row of the medicine table; ratings are carried as opaque values. */
  datatype Row<Rating> = Row(
    predictedDisease: string,
    alternativeMedicine: string,
    alternativeRating: Rating,
    conventionalMedicine: string,
    conventionalRating: Rating)

  datatype Recommendation<Rating> = Recommendation(medicine: string, rating: Rating)

  /** The function's result: the error dictionary or the list of pairs. */
  datatype Recommendations<Rating> = NotFound(error: string) | Found(entries: seq<Recommendation<Rating>>)

  const NoRecommendations := "No medicine recommendations found for this disease."
  const Pharmaceutical := "pharmaceutical"

  /** `df[df["predicteddisease"] == disease]`: the matching rows, in table order. */
  function Matching<Rating>(rows: seq<Row<Rating>>, disease: string): seq<Row<Rating>> {
    Filter((row: Row<Rating>) => row.predictedDisease == disease, rows)
  }

  /** The medicine column chosen by the preference, as a list. */
  function Medicines<Rating>(rows: seq<Row<Rating>>, preference: string): (r: seq<string>)
    ensures |r| == |rows|
  {
    seq(|rows|, i requires 0 <= i < |rows| =>
      if preference == Pharmaceutical then rows[i].conventionalMedicine else rows[i].alternativeMedicine)
  }

  /** The rating column chosen by the preference, as a list. */
  function Ratings<Rating>(rows: seq<Row<Rating>>, preference: string): (r: seq<Rating>)
    ensures |r| == |rows|
  {
    seq(|rows|, i requires 0 <= i < |rows| =>
      if preference == Pharmaceutical then rows[i].conventionalRating else rows[i].alternativeRating)
  }

  /** `[{"medicine": m, "rating": r} for m, r in zip(medicines, ratings)]`. */
  function Zip<Rating>(medicines: seq<string>, ratings: seq<Rating>): (r: seq<Recommendation<Rating>>)
    ensures |r| == if |medicines| <= |ratings| then |medicines| else |ratings|
    ensures forall k :: 0 <= k < |r| ==> r[k] == Recommendation(medicines[k], ratings[k])
  {
    var n := if |medicines| <= |ratings| then |medicines| else |ratings|;
    seq(n, k requires 0 <= k < n => Recommendation(medicines[k], ratings[k]))
  }

  /** `get_medicine_recommendations(predicted_disease, user_preference)`. */
  function GetMedicineRecommendations<Rating>(rows: seq<Row<Rating>>, disease: string, preference: string): (r: Recommendations<Rating>)
    ensures r.NotFound? <==> forall i :: 0 <= i < |rows| ==> rows[i].predictedDisease != disease
    ensures r.NotFound? ==> r.error == NoRecommendations
  {
    var filtered := Matching(rows, disease);
    if filtered == [] then
      NotFound(NoRecommendations)
    else
      assert filtered[0] in rows;
      Found(Zip(Medicines(filtered, preference), Ratings(filtered, preference)))
  }

  /** The pair the preference takes from one row. */
  function Pick<Rating>(row: Row<Rating>, preference: string): Recommendation<Rating> {
    if preference == Pharmaceutical then Recommendation(row.conventionalMedicine, row.conventionalRating)
    else Recommendation(row.alternativeMedicine, row.alternativeRating)
  }

  /** Whenever some row matches, entry k is the chosen pair of the k-th
      matching row: one entry per matching row, in table order, and the
      medicine and the rating of an entry come from the same row. */
  lemma RecommendationsFromMatchingRows<Rating>(rows: seq<Row<Rating>>, disease: string, preference: string)
    returns (positions: seq<nat>)
    requires GetMedicineRecommendations(rows, disease, preference).Found?
    ensures var entries := GetMedicineRecommendations(rows, disease, preference).entries;
      && |entries| == |positions|
      && (forall k :: 0 <= k < |positions| ==>
            && positions[k] < |rows|
            && rows[positions[k]].predictedDisease == disease
            && entries[k] == Pick(rows[positions[k]], preference))
      && (forall k, l :: 0 <= k < l < |positions| ==> positions[k] < positions[l])
      && (forall i :: 0 <= i < |rows| && rows[i].predictedDisease == disease ==> i in positions)
  {
    var p := (row: Row<Rating>) => row.predictedDisease == disease;
    positions := Positions(p, rows);
    FilterAtPositions(p, rows);
  }

  /** Rows of other diseases do not influence the result, wherever they stand. */
  lemma OtherRowsIgnored<Rating>(rows: seq<Row<Rating>>, i: nat, other: Row<Rating>, disease: string, preference: string)
    requires i <= |rows| && other.predictedDisease != disease
    ensures GetMedicineRecommendations(rows[..i] + [other] + rows[i..], disease, preference)
      == GetMedicineRecommendations(rows, disease, preference)
  {
    var p := (row: Row<Rating>) => row.predictedDisease == disease;
    FilterSkips(p, rows[..i], other, rows[i..]);
    assert rows[..i] + rows[i..] == rows;
  }

  /** Filtering skips an element the predicate rejects. */
  lemma {:induction false} FilterSkips<T>(p: T -> bool, a: seq<T>, x: T, b: seq<T>)
    requires !p(x)
    ensures Filter(p, a + [x] + b) == Filter(p, a + b)
    decreases |b|
  {
    if b == [] {
      assert a + [x] + b == a + [x];
      assert (a + [x])[..|a|] == a;
      assert a + b == a;
    } else {
      var b', last := b[..|b| - 1], b[|b| - 1];
      FilterSkips(p, a, x, b');
      assert (a + [x] + b)[..|a + [x] + b| - 1] == a + [x] + b';
      assert (a + b)[..|a + b| - 1] == a + b';
    }
  }
}
