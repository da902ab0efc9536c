/**
  The three JSON endpoints of the Flask application. A handler reads the two
  model objects built once at start-up and never changes them, so each is a
  function of the models and of what `request.get_json()` produced.
 */
module Routes {
  import opened Wrappers
  import opened PyValues
  import opened Models
  import TextNormalizer

  /** A JSON response: the HTTP status and the value `jsonify` serialises. */
  datatype Response = Response(status: int, body: Value)

  /** `jsonify({'error': str(e)}), 500` */
  function ServerError(e: Exception): (resp: Response)
    ensures resp.status == 500 && resp.body.Dict? && "error" in resp.body.entries
    ensures resp.body.entries["error"] == Str(Message(e))
  {
    Response(500, Dict(map["error" := Str(Message(e))]))
  }

  /** A response of the shape every handler's `except` branch produces. */
  predicate IsErrorResponse(resp: Response) {
    resp.status == 500 && resp.body.Dict? && "error" in resp.body.entries &&
    resp.body.entries["error"].Str? && resp.body.entries["error"].s != ""
  }

  /** `data.get`: only a dictionary has it. */
  function Entries(data: Value): (r: Result<map<string, Value>, Exception>)
    ensures data.Dict? ==> r == Ok(data.entries)
    ensures !data.Dict? ==> r == Err(AttributeError(TypeName(data), "get"))
  {
    if data.Dict? then Ok(data.entries) else Err(AttributeError(TypeName(data), "get"))
  }

  // ---------------------------------------------------------------------------
  // POST /api/predict/hate-speech

  const NoTextProvided: Response := Response(400, Dict(map["error" := Str("No text provided")]))

  /** The body of the `try` block; an exception it raises becomes a 500. */
  function HateSpeechResult(model: HateSpeechDetector, request: Result<Value, Exception>): (r: Result<Response, Exception>)
    reads model
    requires model.Valid()
    ensures r.Ok? ==> r.value.status in {200, 400} && r.value.body.Dict?
    ensures r.Ok? && r.value.status == 200 ==> r.value.body.entries.Keys == {"prediction", "confidence", "text"}
    ensures r.Ok? && r.value.status == 400 ==> r.value == NoTextProvided
  {
    var data :- request;
    var entries :- Entries(data);
    var text := Get(entries, "text", Str(""));
    if !Truthy(text) then Ok(NoTextProvided)
    else
      var prediction :- model.Predict(text);
      var confidence :- model.GetConfidence(text);
      Ok(Response(200, Dict(map[
        "prediction" := Str(prediction),
        "confidence" := Float(confidence),
        "text" := text])))
  }

  /** `predict_hate_speech()` */
  function HandleHateSpeech(model: HateSpeechDetector, request: Result<Value, Exception>): (resp: Response)
    reads model
    requires model.Valid()
    ensures resp.status in {200, 400, 500}
    ensures resp.status == 500 ==> IsErrorResponse(resp)
    ensures resp.status == 400 ==> resp == NoTextProvided
    ensures request.Err? ==> resp == ServerError(request.error)
    ensures request.Ok? && !request.value.Dict? ==>
      resp == ServerError(AttributeError(TypeName(request.value), "get"))
  {
    match HateSpeechResult(model, request)
    case Ok(r) => r
    case Err(e) => ServerError(e)
  }

  /** A missing or falsy `text` gets the 400 answer, whatever the detector:
      the classifier is not consulted. */
  lemma EmptyTextRejected(m1: HateSpeechDetector, m2: HateSpeechDetector, entries: map<string, Value>)
    requires m1.Valid() && m2.Valid()
    requires "text" !in entries || !Truthy(entries["text"])
    ensures HandleHateSpeech(m1, Ok(Dict(entries))) == NoTextProvided
    ensures HandleHateSpeech(m2, Ok(Dict(entries))) == NoTextProvided
  {
  }

  /** The 400 answer is given exactly when `text` is missing or falsy. */
  lemma RejectedOnlyWhenEmpty(model: HateSpeechDetector, entries: map<string, Value>)
    requires model.Valid()
    ensures HandleHateSpeech(model, Ok(Dict(entries))).status == 400 <==>
      "text" !in entries || !Truthy(entries["text"])
  {
  }

  /** A string text gets a 200 answer that echoes the text unchanged beside
      the detector's label and confidence. */
  lemma HateSpeechSuccess(model: HateSpeechDetector, entries: map<string, Value>, s: string)
    requires model.Valid()
    requires "text" in entries && entries["text"] == Str(s) && s != ""
    ensures var resp := HandleHateSpeech(model, Ok(Dict(entries)));
      && resp.status == 200
      && resp.body == Dict(map[
        "prediction" := Str(model.Predict(Str(s)).value),
        "confidence" := Float(model.GetConfidence(Str(s)).value),
        "text" := Str(s)])
      && resp.body.entries["prediction"].s in {"Hate Speech", "Normal Speech", "Model not trained"}
  {
    if model.isTrained {
      var raw := model.fit.value.rawPredict(TextNormalizer.PreprocessText(s));
      assert SpeechLabel(raw) in {"Hate Speech", "Normal Speech"};
    }
  }

  /** A truthy text that is not a string reaches the detector, which raises. */
  lemma HateSpeechNonString(model: HateSpeechDetector, entries: map<string, Value>)
    requires model.Valid() && model.isTrained
    requires "text" in entries && Truthy(entries["text"]) && !entries["text"].Str?
    ensures HandleHateSpeech(model, Ok(Dict(entries))) ==
      ServerError(AttributeError(TypeName(entries["text"]), "lower"))
  {
  }

  // ---------------------------------------------------------------------------
  // POST /api/predict/diabetes

  /** The request keys, in feature-vector order. */
  const FeatureKeys: seq<string> := [
    "pregnancies", "glucose", "blood_pressure", "skin_thickness",
    "insulin", "bmi", "diabetes_pedigree", "age"]

  /** `float(data.get(key, 0))` for each key in turn; the first that raises
      ends the list. */
  function ExtractFrom(entries: map<string, Value>, keys: seq<string>, parse: string -> Option<real>): (r: Result<seq<real>, Exception>)
    ensures r.Ok? ==> |r.value| == |keys|
    ensures r.Ok? ==> forall k :: 0 <= k < |keys| ==>
      ToFloat(Get(entries, keys[k], Int(0)), parse) == Ok(r.value[k])
    ensures r.Err? <==> exists k :: 0 <= k < |keys| && ToFloat(Get(entries, keys[k], Int(0)), parse).Err?
  {
    if keys == [] then Ok([])
    else
      var x :- ToFloat(Get(entries, keys[0], Int(0)), parse);
      var rest :- ExtractFrom(entries, keys[1..], parse);
      assert forall k :: 1 <= k < |keys| ==> keys[k] == keys[1..][k - 1];
      Ok([x] + rest)
  }

  /** `keys[k]` is the first key, in order, whose value `float()` refuses. */
  predicate FirstRefused(entries: map<string, Value>, keys: seq<string>, parse: string -> Option<real>, k: int) {
    && 0 <= k < |keys|
    && (forall j :: 0 <= j < k ==> ToFloat(Get(entries, keys[j], Int(0)), parse).Ok?)
    && ToFloat(Get(entries, keys[k], Int(0)), parse).Err?
  }

  /** A failed extraction reports the error of the first key whose value
      `float()` refuses. */
  lemma {:induction false} ExtractFirstError(entries: map<string, Value>, keys: seq<string>, parse: string -> Option<real>)
    requires ExtractFrom(entries, keys, parse).Err?
    ensures exists k ::
      && FirstRefused(entries, keys, parse, k)
      && ExtractFrom(entries, keys, parse).error == ToFloat(Get(entries, keys[k], Int(0)), parse).error
  {
    if ToFloat(Get(entries, keys[0], Int(0)), parse).Ok? {
      ExtractFirstError(entries, keys[1..], parse);
      var k :| FirstRefused(entries, keys[1..], parse, k)
        && ExtractFrom(entries, keys[1..], parse).error == ToFloat(Get(entries, keys[1..][k], Int(0)), parse).error;
      FirstRefusedShift(entries, keys, parse, k);
    } else {
      assert FirstRefused(entries, keys, parse, 0);
    }
  }

  lemma FirstRefusedShift(entries: map<string, Value>, keys: seq<string>, parse: string -> Option<real>, k: int)
    requires keys != [] && ToFloat(Get(entries, keys[0], Int(0)), parse).Ok?
    requires FirstRefused(entries, keys[1..], parse, k)
    ensures FirstRefused(entries, keys, parse, k + 1) && keys[k + 1] == keys[1..][k]
  {
    assert forall j :: 0 < j < k + 1 ==> keys[j] == keys[1..][j - 1];
  }

  /** The feature vector of a request body. */
  function ExtractFeatures(entries: map<string, Value>, parse: string -> Option<real>): (r: Result<seq<real>, Exception>)
    ensures r.Ok? ==> IsRow(r.value)
  {
    ExtractFrom(entries, FeatureKeys, parse)
  }

  /** Eight entries, in the fixed key order, each the `float()` of its key's
      value; an absent key gives 0.0. */
  lemma FeatureVector(entries: map<string, Value>, parse: string -> Option<real>, k: nat)
    requires k < |FeatureKeys|
    requires ExtractFeatures(entries, parse).Ok?
    ensures |ExtractFeatures(entries, parse).value| == 8
    ensures FeatureKeys[k] !in entries ==> ExtractFeatures(entries, parse).value[k] == 0.0
    ensures FeatureKeys[k] in entries ==>
      ToFloat(entries[FeatureKeys[k]], parse) == Ok(ExtractFeatures(entries, parse).value[k])
  {
    assert ToFloat(Get(entries, FeatureKeys[k], Int(0)), parse) == Ok(ExtractFeatures(entries, parse).value[k]);
  }

  /** An empty body yields the all-zero vector. */
  lemma EmptyBodyFeatures(parse: string -> Option<real>)
    ensures ExtractFeatures(map[], parse) == Ok(seq(8, _ => 0.0))
  {
    ExtractAbsent(map[], FeatureKeys, parse);
  }

  /** Keys that are all absent give all zeros. */
  lemma {:induction false} ExtractAbsent(entries: map<string, Value>, keys: seq<string>, parse: string -> Option<real>)
    requires forall k :: 0 <= k < |keys| ==> keys[k] !in entries
    ensures ExtractFrom(entries, keys, parse) == Ok(seq(|keys|, _ => 0.0))
  {
    if keys != [] {
      assert forall k :: 0 <= k < |keys[1..]| ==> keys[1..][k] == keys[k + 1];
      ExtractAbsent(entries, keys[1..], parse);
      assert Get(entries, keys[0], Int(0)) == Int(0);
      assert ToFloat(Int(0), parse) == Ok(0.0);
      var zeros := seq(|keys| - 1, _ => 0.0);
      assert ExtractFrom(entries, keys[1..], parse) == Ok(zeros);
      assert ExtractFrom(entries, keys, parse) == Ok([0.0] + zeros);
      assert seq(|keys|, _ => 0.0) == [0.0] + zeros;
    } else {
      assert seq(|keys|, _ => 0.0) == [];
    }
  }

  /** `'High' if p > 0.7 else 'Medium' if p > 0.3 else 'Low'` */
  function RiskLevel(p: real): (level: string)
    ensures level in {"High", "Medium", "Low"}
  {
    if p > 0.7 then "High" else if p > 0.3 then "Medium" else "Low"
  }

  /** The three bands: each level is given exactly on its interval. */
  lemma RiskBands(p: real)
    ensures RiskLevel(p) == "High" <==> p > 0.7
    ensures RiskLevel(p) == "Medium" <==> 0.3 < p <= 0.7
    ensures RiskLevel(p) == "Low" <==> p <= 0.3
  {
  }

  function RiskRank(level: string): nat {
    if level == "High" then 2 else if level == "Medium" then 1 else 0
  }

  /** A higher probability never gets a lower band. */
  lemma RiskLevelMonotone(p: real, q: real)
    requires p <= q
    ensures RiskRank(RiskLevel(p)) <= RiskRank(RiskLevel(q))
  {
  }

  /** The body of the `try` block. */
  function DiabetesResult(model: DiabetesPredictor, request: Result<Value, Exception>, parse: string -> Option<real>): (r: Result<Response, Exception>)
    reads model
    requires model.Valid()
    ensures r.Ok? ==> r.value.status == 200 && r.value.body.Dict?
    ensures r.Ok? ==> r.value.body.entries.Keys == {"prediction", "probability", "risk_level"}
  {
    var data :- request;
    var entries :- Entries(data);
    var features :- ExtractFeatures(entries, parse);
    var prediction :- model.Predict(features);
    match model.GetProbability(features)
    case Err(e) => Err(e)
    case Ok(probability) =>
      Ok(Response(200, Dict(map[
        "prediction" := Int(prediction),
        "probability" := Float(probability),
        "risk_level" := Str(RiskLevel(probability))])))
  }

  /** `predict_diabetes()` */
  function HandleDiabetes(model: DiabetesPredictor, request: Result<Value, Exception>, parse: string -> Option<real>): (resp: Response)
    reads model
    requires model.Valid()
    ensures resp.status in {200, 500}
    ensures resp.status == 500 ==> IsErrorResponse(resp)
    ensures resp.status == 200 ==> (
      && resp.body.Dict?
      && resp.body.entries.Keys == {"prediction", "probability", "risk_level"}
      && resp.body.entries["probability"].Float?
      && resp.body.entries["risk_level"] == Str(RiskLevel(resp.body.entries["probability"].f)))
  {
    match DiabetesResult(model, request, parse)
    case Ok(r) => r
    case Err(e) => ServerError(e)
  }

  /** A well-formed body whose row the forest accepts gets the model's answer
      on its feature vector; an untrained model answers 0, 0.0 and "Low". */
  lemma DiabetesSuccess(model: DiabetesPredictor, entries: map<string, Value>, parse: string -> Option<real>)
    requires model.Valid()
    requires ExtractFeatures(entries, parse).Ok?
    requires !model.isTrained || Float32Finite(ExtractFeatures(entries, parse).value)
    ensures var f := ExtractFeatures(entries, parse).value;
      var resp := HandleDiabetes(model, Ok(Dict(entries)), parse);
      && resp.status == 200
      && resp.body.entries["prediction"] == Int(model.Predict(f).value)
      && resp.body.entries["probability"] == Float(model.GetProbability(f).value)
      && (!model.isTrained ==> resp.body == Dict(map[
        "prediction" := Int(0), "probability" := Float(0.0), "risk_level" := Str("Low")]))
  {
  }

  /** A trained model refuses a row with an entry beyond the `float32` range,
      and the handler answers 500 with the forest's message. */
  lemma DiabetesForestRefuses(model: DiabetesPredictor, entries: map<string, Value>, parse: string -> Option<real>)
    requires model.Valid() && model.isTrained
    requires ExtractFeatures(entries, parse).Ok?
    requires !Float32Finite(ExtractFeatures(entries, parse).value)
    ensures HandleDiabetes(model, Ok(Dict(entries)), parse) == ServerError(NonFiniteInput)
  {
  }

  /** For example, a glucose of 10^39 is a valid double but not a valid `float32`. */
  lemma HugeGlucoseRefused(model: DiabetesPredictor, parse: string -> Option<real>)
    requires model.Valid() && model.isTrained
    ensures HandleDiabetes(model, Ok(Dict(map["glucose" := Float(1e39)])), parse) == ServerError(NonFiniteInput)
  {
    var entries := map["glucose" := Float(1e39)];
    assert ExtractFeatures(entries, parse).Ok?;
    assert ExtractFeatures(entries, parse).value[Glucose] == 1e39 by {
      FeatureVector(entries, parse, Glucose);
    }
    ForestRefusesHugeEntry(ExtractFeatures(entries, parse).value, Glucose);
  }

  /** A value `float()` refuses gives a 500 whose error is that refusal. */
  lemma DiabetesBadFeature(model: DiabetesPredictor, entries: map<string, Value>, parse: string -> Option<real>)
    requires model.Valid()
    requires ExtractFeatures(entries, parse).Err?
    ensures HandleDiabetes(model, Ok(Dict(entries)), parse) == ServerError(ExtractFeatures(entries, parse).error)
  {
  }

  // ---------------------------------------------------------------------------
  // GET /api/visualizations

  /** `get_visualizations()`, given what `create_visualizations()` returned or raised. */
  function HandleVisualizations(charts: Result<Value, Exception>): (resp: Response)
    ensures charts.Ok? ==> resp == Response(200, charts.value)
    ensures charts.Err? ==> IsErrorResponse(resp) && resp == ServerError(charts.error)
  {
    match charts
    case Ok(v) => Response(200, v)
    case Err(e) => ServerError(e)
  }
}
