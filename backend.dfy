/** The two route handlers of the Express backend, with the network calls
    replaced by their outcomes: the streaming recommendation route
    (validation, predictor call, generator call, segmenting and emitting)
    and the alternative-medicine lookup route (validation, brand-name
    de-duplication and the mapping of upstream failures to replies). */
module Backend {
  import opened Text
  import opened Lists
  import opened Segmenter
  import opened LayoutRoundTrip

  // ---------------------------------------------------------------------
  // Request bodies and replies
  // ---------------------------------------------------------------------

  /** A JSON value of a request body, as far as JavaScript truthiness can
      tell values apart (arrays and objects are always truthy). */
  datatype Json = Null | Bool(b: bool) | Number(n: int) | Str(s: string) | Composite

  /** JavaScript truthiness of a body field; a missing field is `undefined`. */
  predicate Truthy(field: Option<Json>) {
    match field
    case None => false
    case Some(v) =>
      match v
      case Null => false
      case Bool(b) => b
      case Number(n) => n != 0
      case Str(s) => s != []
      case Composite => true
  }

  /** The body of `POST /api/recommendations/stream`. */
  datatype RecommendationRequest = RecommendationRequest(
    symptoms: Option<Json>, healthFactors: Option<Json>, ageGroup: Option<Json>, severity: Option<Json>)

  /** The outbound services a handler calls. */
  datatype Service = Predictor | Generator | DrugLabels

  /** What an awaited call gives: its value, or the message of the error it throws. */
  datatype Outcome<T> = Done(value: T) | Thrown(message: string)

  /** JSON reply bodies. */
  datatype Body =
    | ErrorBody(error: string)
    | ErrorWithDetails(error: string, details: string)
    | AlternativesBody(medicineName: Json, alternatives: seq<string>)

  /** A reply: a status with a JSON body, or the chunks written to an event stream. */
  datatype Reply = JsonReply(status: nat, body: Body) | StreamReply(writes: seq<string>)

  /** A reply and the services called, in order, to produce it. */
  datatype Handled = Handled(reply: Reply, calls: seq<Service>)

  const AllFieldsRequired := "All fields are required."
  const MedicineNameRequired := "Medicine name is required."
  const NoAlternativesFound := "No alternative medicines found for this query."
  const LookupFailed := "Failed to fetch alternative medicines"
  const UnknownAlternative := "Unknown Alternative"

  // ---------------------------------------------------------------------
  // The recommendation route
  // ---------------------------------------------------------------------

  /** Line 43: every one of the four fields is truthy. */
  predicate AllFieldsGiven(req: RecommendationRequest) {
    Truthy(req.symptoms) && Truthy(req.healthFactors) && Truthy(req.ageGroup) && Truthy(req.severity)
  }

  /** The single line written when the pipeline throws (line 169). */
  function ErrorLine(message: string): string {
    ErrorPrefix + message + "\n\n"
  }

  const ErrorPrefix := "data: Error occurred: "

  /** The error line starts with the fixed prefix, ends with a blank line,
      and the message can be read back from between the two. */
  lemma ErrorLineCarriesMessage(message: string)
    ensures var line := ErrorLine(message);
      && StartsWith(line, ErrorPrefix)
      && |line| == |ErrorPrefix| + |message| + 2
      && line[|line| - 2..] == "\n\n"
      && line[|ErrorPrefix|..|line| - 2] == message
  {
    var line := ErrorLine(message);
    assert line[..|ErrorPrefix|] == ErrorPrefix;
    assert line[|ErrorPrefix|..|line| - 2] == message;
  }

  /** The writes of a successful stream: the layout of the segmented text. */
  function Streamed(disease: string, rawText: string): seq<string> {
    Layout(disease, Scan(CleanLines(rawText)).lists)
  }

  /** What the recommendation route does, given the predictor's disease
      label (or the error its call throws) and the generator's text (or the
      error thrown while calling it or reading the text out of its response). */
  function Recommendation(req: RecommendationRequest, prediction: Outcome<string>, generation: Outcome<string>): Handled {
    if !AllFieldsGiven(req) then Handled(JsonReply(400, ErrorBody(AllFieldsRequired)), [])
    else match prediction
      case Thrown(message) => Handled(StreamReply([ErrorLine(message)]), [Predictor])
      case Done(disease) =>
        match generation
        case Thrown(message) => Handled(StreamReply([ErrorLine(message)]), [Predictor, Generator])
        case Done(rawText) => Handled(StreamReply(Streamed(disease, rawText)), [Predictor, Generator])
  }

  /** A request missing a field is refused before any call; otherwise the
      predictor is called first, the generator only after a prediction, and
      the stream carries the error line, or the disease and the segmented
      lists. */
  lemma RecommendationOutcomes(req: RecommendationRequest, prediction: Outcome<string>, generation: Outcome<string>)
    ensures var h := Recommendation(req, prediction, generation);
      && (h.calls == [] <==> !AllFieldsGiven(req))
      && (h.reply.JsonReply? <==> !AllFieldsGiven(req))
      && (h.reply.JsonReply? ==> h.reply == JsonReply(400, ErrorBody(AllFieldsRequired)))
      && (h.calls != [] ==> h.calls[0] == Predictor)
      && (Generator in h.calls <==> AllFieldsGiven(req) && prediction.Done?)
      && (AllFieldsGiven(req) && (prediction.Thrown? || generation.Thrown?) ==>
            exists message :: h.reply == StreamReply([ErrorLine(message)]))
      && (AllFieldsGiven(req) && prediction.Done? && generation.Done? ==>
            && StartsWith(Concat(h.reply.writes), DiseaseLabel + "\n " + prediction.value)
            && h.reply.writes == Layout(prediction.value, Scan(CleanLines(generation.value)).lists))
  {
    if AllFieldsGiven(req) && prediction.Done? && generation.Done? {
      OutputStartsWithDisease(prediction.value, Scan(CleanLines(generation.value)).lists);
    }
  }

  /** Lines 40-171: validate, call the predictor, call the generator, segment
      its text and stream the layout; any thrown error becomes one error line. */
  method HandleRecommendation(req: RecommendationRequest, prediction: Outcome<string>, generation: Outcome<string>)
    returns (handled: Handled)
    ensures handled == Recommendation(req, prediction, generation)
  {
    if !Truthy(req.symptoms) || !Truthy(req.healthFactors) || !Truthy(req.ageGroup) || !Truthy(req.severity) {
      handled := Handled(JsonReply(400, ErrorBody(AllFieldsRequired)), []);
    } else {
      var calls := [Predictor];
      if prediction.Thrown? {
        handled := Handled(StreamReply([ErrorLine(prediction.message)]), calls);
      } else {
        var predictedDisease := prediction.value;
        calls := calls + [Generator];
        if generation.Thrown? {
          handled := Handled(StreamReply([ErrorLine(generation.message)]), calls);
        } else {
          var writes := StreamLayout(predictedDisease, generation.value);
          handled := Handled(StreamReply(writes), calls);
        }
      }
    }
  }

  /** Lines 124-163: segment the generated text, then write the layout. */
  method StreamLayout(disease: string, rawText: string) returns (writes: seq<string>)
    ensures writes == Streamed(disease, rawText)
  {
    var sections := SegmentText(rawText);
    writes := Emit(disease, sections);
  }

  // ---------------------------------------------------------------------
  // The alternative-medicine lookup route
  // ---------------------------------------------------------------------

  /** The `openfda` object of a drug label; `brandName` is `None` when the
      field is missing or null. */
  datatype OpenFdaFields = OpenFdaFields(brandName: Option<seq<string>>)

  /** A drug label; `openfda` is `None` when the label has no such object. */
  datatype LabelRecord = LabelRecord(openfda: Option<OpenFdaFields>)

  /** How the drug-label call ends: with a response holding `results`
      (`None` when the field is missing), with an HTTP error status, or
      without any response. */
  datatype LabelResponse =
    | Answered(results: Option<seq<LabelRecord>>)
    | HttpError(status: int, message: string)
    | NoResponse(message: string)

  /** The messages of the `TypeError`s thrown when a field is missing. */
  const ResultsMissingMessage := "Cannot read properties of undefined (reading 'map')"
  const OpenFdaMissingMessage := "Cannot read properties of undefined (reading 'brand_name')"

  /** `item.openfda.brand_name?.[0] || "Unknown Alternative"`. */
  function BrandName(fields: OpenFdaFields): (name: string)
    ensures name != []
    ensures name == UnknownAlternative <==>
      (fields.brandName.None? || |fields.brandName.value| == 0
       || fields.brandName.value[0] == [] || fields.brandName.value[0] == UnknownAlternative)
  {
    match fields.brandName
    case None => UnknownAlternative
    case Some(names) => if |names| > 0 && names[0] != [] then names[0] else UnknownAlternative
  }

  /** `results.map(...)`: the brand name of every label, in label order. */
  function AllBrandNames(fields: seq<OpenFdaFields>): (all: seq<string>)
    ensures |all| == |fields|
    ensures forall i :: 0 <= i < |fields| ==> all[i] == BrandName(fields[i])
  {
    seq(|fields|, i requires 0 <= i < |fields| => BrandName(fields[i]))
  }

  /** `[...new Set(results.map(...))]`: each brand name once, at most one
      per label, and every label's brand name among them. */
  function BrandNames(fields: seq<OpenFdaFields>): (names: seq<string>)
    ensures NoDuplicates(names)
    ensures |names| <= |fields|
    ensures forall i :: 0 <= i < |fields| ==> BrandName(fields[i]) in names
    ensures forall k :: 0 <= k < |names| ==> names[k] in AllBrandNames(fields)
  {
    var all := AllBrandNames(fields);
    assert forall i :: 0 <= i < |fields| ==> BrandName(fields[i]) == all[i];
    Dedup(all)
  }

  /** The brand names keep the order of their first occurrence among the labels. */
  lemma BrandNamesFirstOccurrenceOrder(fields: seq<OpenFdaFields>, k: nat, l: nat)
    requires k < l < |BrandNames(fields)|
    ensures BrandNames(fields)[k] in AllBrandNames(fields) && BrandNames(fields)[l] in AllBrandNames(fields)
    ensures IndexOf(AllBrandNames(fields), BrandNames(fields)[k]) < IndexOf(AllBrandNames(fields), BrandNames(fields)[l])
  {
    DedupFirstOccurrenceOrder(AllBrandNames(fields), k, l);
  }

  /** Applies `BrandName` to every label, or throws as `item.openfda.brand_name`
      does on the first label without an `openfda` object. */
  function ExtractBrandNames(results: seq<LabelRecord>): (r: Outcome<seq<string>>)
    ensures r.Thrown? <==> exists i :: 0 <= i < |results| && results[i].openfda.None?
    ensures r.Thrown? ==> r.message == OpenFdaMissingMessage
    ensures r.Done? ==> r.value == BrandNames(seq(|results|, i requires 0 <= i < |results| => results[i].openfda.value))
  {
    if forall i :: 0 <= i < |results| ==> results[i].openfda.Some? then
      Done(BrandNames(seq(|results|, i requires 0 <= i < |results| => results[i].openfda.value)))
    else
      Thrown(OpenFdaMissingMessage)
  }

  /** The outcome of the `try` block once the call has returned a response. */
  function LookupOutcome(response: LabelResponse): Outcome<seq<string>> {
    match response
    case Answered(None) => Thrown(ResultsMissingMessage)
    case Answered(Some(results)) => ExtractBrandNames(results)
    case HttpError(_, message) => Thrown(message)
    case NoResponse(message) => Thrown(message)
  }

  /** Lines 179-208: the lookup route, given how the drug-label call ends. */
  function LookupAlternatives(medicineName: Option<Json>, response: LabelResponse): (h: Handled)
    ensures !Truthy(medicineName) <==> h.calls == []
    ensures !Truthy(medicineName) ==> h.reply == JsonReply(400, ErrorBody(MedicineNameRequired))
    ensures Truthy(medicineName) ==>
      h.calls == [DrugLabels] && h.reply.JsonReply? && (h.reply.status == 200 || h.reply.status == 500)
    ensures Truthy(medicineName) && response.HttpError? && response.status == 404 ==>
      h.reply == JsonReply(200, AlternativesBody(medicineName.value, [NoAlternativesFound]))
    ensures Truthy(medicineName) && LookupOutcome(response).Done? ==>
      h.reply == JsonReply(200, AlternativesBody(medicineName.value, LookupOutcome(response).value))
    ensures h.reply.JsonReply? && h.reply.status == 500 <==>
      Truthy(medicineName) && LookupOutcome(response).Thrown? && !(response.HttpError? && response.status == 404)
    ensures h.reply.JsonReply? && h.reply.status == 500 ==>
      h.reply.body == ErrorWithDetails(LookupFailed, LookupOutcome(response).message)
  {
    if !Truthy(medicineName) then Handled(JsonReply(400, ErrorBody(MedicineNameRequired)), [])
    else
      var name := medicineName.value;
      match LookupOutcome(response)
      case Done(alternatives) => Handled(JsonReply(200, AlternativesBody(name, alternatives)), [DrugLabels])
      case Thrown(message) =>
        if response.HttpError? && response.status == 404 then
          Handled(JsonReply(200, AlternativesBody(name, [NoAlternativesFound])), [DrugLabels])
        else
          Handled(JsonReply(500, ErrorWithDetails(LookupFailed, message)), [DrugLabels])
  }

  /** A successful lookup lists each brand once, at most one per label, and
      "Unknown Alternative" exactly when some label has no usable brand name. */
  lemma LookupAlternativesBrands(medicineName: Option<Json>, results: seq<LabelRecord>)
    requires Truthy(medicineName)
    requires forall i :: 0 <= i < |results| ==> results[i].openfda.Some?
    ensures var h := LookupAlternatives(medicineName, Answered(Some(results)));
      && h.reply == JsonReply(200, h.reply.body) && h.reply.body.AlternativesBody?
      && NoDuplicates(h.reply.body.alternatives)
      && |h.reply.body.alternatives| <= |results|
      && (UnknownAlternative in h.reply.body.alternatives <==>
          exists i :: 0 <= i < |results| && BrandName(results[i].openfda.value) == UnknownAlternative)
  {
    var fields := seq(|results|, i requires 0 <= i < |results| => results[i].openfda.value);
    var names := BrandNames(fields);
    if UnknownAlternative in names {
      var k :| 0 <= k < |names| && names[k] == UnknownAlternative;
      var i := IndexOf(AllBrandNames(fields), names[k]);
      assert BrandName(results[i].openfda.value) == UnknownAlternative;
    }
    if exists i :: 0 <= i < |results| && BrandName(results[i].openfda.value) == UnknownAlternative {
      var i :| 0 <= i < |results| && BrandName(results[i].openfda.value) == UnknownAlternative;
      assert BrandName(fields[i]) in names;
    }
  }
}
