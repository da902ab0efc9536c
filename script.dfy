/**
  The browser-side decisions of the dashboard script: the diabetes form's
  range checks, the empty-text guard before a hate-speech request, the
  per-field range colouring, and the styles chosen for a result. Reading and
  writing the page, and the requests themselves, are not modelled.
 */
module Script {
  import opened Wrappers
  import opened PyValues
  import opened Models
  import opened Routes
  import PyStrings

  // ---------------------------------------------------------------------------
  // JavaScript numbers and comparisons

  /** A JavaScript number, with its finite values exact. */
  datatype JsNumber = NaN | NegInfinity | Finite(v: real) | PosInfinity

  /** `a < b`: false whenever either side is NaN. */
  predicate Less(a: JsNumber, b: JsNumber)
    ensures Less(a, b) ==> !a.NaN? && !b.NaN?
    ensures a.Finite? && b.Finite? ==> (Less(a, b) <==> a.v < b.v)
  {
    match (a, b)
    case (NaN, _) => false
    case (_, NaN) => false
    case (NegInfinity, _) => !b.NegInfinity?
    case (_, NegInfinity) => false
    case (PosInfinity, _) => false
    case (Finite(x), Finite(y)) => x < y
    case (Finite(_), PosInfinity) => true
  }

  /** `Less` is a strict order on the numbers other than NaN, and NaN is
      unordered with everything. */
  lemma LessIsStrictOrder(a: JsNumber, b: JsNumber, c: JsNumber)
    ensures !Less(a, a)
    ensures Less(a, b) ==> !Less(b, a)
    ensures Less(a, b) && Less(b, c) ==> Less(a, c)
    ensures a.NaN? || b.NaN? ==> !Less(a, b) && !Less(b, a)
    ensures !a.NaN? && !b.NaN? && a != b ==> Less(a, b) || Less(b, a)
  {
  }

  /** `x < lo || x > hi` */
  predicate OutOfRange(x: JsNumber, lo: real, hi: real)
    ensures x.NaN? ==> !OutOfRange(x, lo, hi)
  {
    Less(x, Finite(lo)) || Less(Finite(hi), x)
  }

  /** The range test rejects exactly the numbers outside `[lo, hi]`: both
      ends are accepted, and NaN is never rejected. */
  lemma OutOfRangeMeaning(x: JsNumber, lo: real, hi: real)
    requires lo <= hi
    ensures x.Finite? ==> (OutOfRange(x, lo, hi) <==> x.v < lo || x.v > hi)
    ensures !OutOfRange(Finite(lo), lo, hi) && !OutOfRange(Finite(hi), lo, hi)
    ensures x.NaN? ==> !OutOfRange(x, lo, hi)
    ensures x.NegInfinity? || x.PosInfinity? ==> OutOfRange(x, lo, hi)
  {
  }

  // ---------------------------------------------------------------------------
  // validateDiabetesInputs

  /** The diabetes form, each field already converted to a number. */
  datatype DiabetesForm = DiabetesForm(
    pregnancies: JsNumber, glucose: JsNumber, bloodPressure: JsNumber,
    skinThickness: JsNumber, insulin: JsNumber, bmi: JsNumber,
    diabetesPedigree: JsNumber, age: JsNumber)

  const GlucoseMessage: string := "Glucose level should be between 0-300 mg/dL"
  const BloodPressureMessage: string := "Blood pressure should be between 0-200 mmHg"
  const BmiMessage: string := "BMI should be between 0-50"
  const AgeMessage: string := "Age should be between 1-120 years"


  /** The messages of the violated ranges, in check order. */
  function Violations(d: DiabetesForm): (ms: seq<string>)
    ensures |ms| <= 4
  {
    Optional(OutOfRange(d.glucose, 0.0, 300.0), GlucoseMessage) +
    Optional(OutOfRange(d.bloodPressure, 0.0, 200.0), BloodPressureMessage) +
    Optional(OutOfRange(d.bmi, 0.0, 50.0), BmiMessage) +
    Optional(OutOfRange(d.age, 1.0, 120.0), AgeMessage)
  }

  /** What `validateDiabetesInputs` returns. */
  datatype Validation = Validation(isValid: bool, message: string)

  /** `validateDiabetesInputs(data)`: one message pushed per violated range,
      then the verdict and the messages joined with ", ". */
  method ValidateDiabetesInputs(d: DiabetesForm) returns (result: Validation)
    ensures result.isValid <==> Violations(d) == []
    ensures result.message == PyStrings.Join(Violations(d), ", ")
  {
    var g := Optional(OutOfRange(d.glucose, 0.0, 300.0), GlucoseMessage);
    var p := Optional(OutOfRange(d.bloodPressure, 0.0, 200.0), BloodPressureMessage);
    var b := Optional(OutOfRange(d.bmi, 0.0, 50.0), BmiMessage);
    var a := Optional(OutOfRange(d.age, 1.0, 120.0), AgeMessage);
    var errors: seq<string> := [];
    if Less(d.glucose, Finite(0.0)) || Less(Finite(300.0), d.glucose) {
      errors := errors + [GlucoseMessage];
    }
    assert errors == g;
    if Less(d.bloodPressure, Finite(0.0)) || Less(Finite(200.0), d.bloodPressure) {
      errors := errors + [BloodPressureMessage];
    }
    assert errors == g + p;
    if Less(d.bmi, Finite(0.0)) || Less(Finite(50.0), d.bmi) {
      errors := errors + [BmiMessage];
    }
    assert errors == g + p + b;
    if Less(d.age, Finite(1.0)) || Less(Finite(120.0), d.age) {
      errors := errors + [AgeMessage];
    }
    assert errors == Violations(d);
    result := Validation(|errors| == 0, PyStrings.Join(errors, ", "));
  }

  /** Joining non-empty messages gives "" exactly when there are none. */
  lemma {:induction false} JoinEmpty(ws: seq<string>, sep: string)
    requires forall k :: 0 <= k < |ws| ==> ws[k] != ""
    ensures PyStrings.Join(ws, sep) == "" <==> ws == []
  {
    if |ws| > 1 {
      assert |PyStrings.Join(ws, sep)| >= |ws[0]|;
    }
  }

  /** The form is valid exactly when the message is empty. */
  lemma ValidIffNoMessage(d: DiabetesForm)
    ensures Violations(d) == [] <==> PyStrings.Join(Violations(d), ", ") == ""
  {
    JoinEmpty(Violations(d), ", ");
  }

  /** The four messages are different from each other. */
  lemma MessagesDistinct()
    ensures GlucoseMessage != BloodPressureMessage && GlucoseMessage != BmiMessage
    ensures GlucoseMessage != AgeMessage && BloodPressureMessage != BmiMessage
    ensures BloodPressureMessage != AgeMessage && BmiMessage != AgeMessage
  {
    assert |GlucoseMessage| == 43 && |BloodPressureMessage| == 43 && |BmiMessage| == 26 && |AgeMessage| == 33;
    assert GlucoseMessage[42] == 'L' && BloodPressureMessage[42] == 'g';
  }

  /** The one-message list of a failed check, or the empty list. */
  function Optional(p: bool, m: string): (ms: seq<string>)
    ensures m in ms <==> p
    ensures |ms| <= 1
  {
    if p then [m] else []
  }

  /** A violated range contributes its message and a satisfied one none. */
  lemma ViolationCounts(d: DiabetesForm)
    ensures GlucoseMessage in Violations(d) <==> OutOfRange(d.glucose, 0.0, 300.0)
    ensures BloodPressureMessage in Violations(d) <==> OutOfRange(d.bloodPressure, 0.0, 200.0)
    ensures BmiMessage in Violations(d) <==> OutOfRange(d.bmi, 0.0, 50.0)
    ensures AgeMessage in Violations(d) <==> OutOfRange(d.age, 1.0, 120.0)
    ensures |Violations(d)| <= 4
  {
  }

  /** No message appears twice. */
  lemma ViolationsOnce(d: DiabetesForm)
    ensures forall i, j :: 0 <= i < j < |Violations(d)| ==> Violations(d)[i] != Violations(d)[j]
  {
    ViolationsInCheckOrder(d);
  }

  /** The messages keep the check order: glucose, blood pressure, BMI, age. */
  lemma ViolationsInCheckOrder(d: DiabetesForm)
    ensures forall i, j :: 0 <= i < j < |Violations(d)| ==>
      IndexOf(Violations(d)[i]) < IndexOf(Violations(d)[j])
  {
    MessagesDistinct();
  }

  /** Where a message stands among the four checks. */
  function IndexOf(m: string): nat {
    if m == GlucoseMessage then 0
    else if m == BloodPressureMessage then 1
    else if m == BmiMessage then 2
    else 3
  }

  /** Every range accepts both of its ends. */
  lemma EndpointsAccepted(d: DiabetesForm)
    requires d.glucose in {Finite(0.0), Finite(300.0)}
    requires d.bloodPressure in {Finite(0.0), Finite(200.0)}
    requires d.bmi in {Finite(0.0), Finite(50.0)}
    requires d.age in {Finite(1.0), Finite(120.0)}
    ensures Violations(d) == []
  {
  }

  /** Pregnancies, skin thickness, insulin and pedigree are never checked. */
  lemma UncheckedFields(d: DiabetesForm, e: DiabetesForm)
    requires d.glucose == e.glucose && d.bloodPressure == e.bloodPressure
    requires d.bmi == e.bmi && d.age == e.age
    ensures Violations(d) == Violations(e)
  {
  }

  /** A field that is not a number passes its check. */
  lemma NaNPasses(d: DiabetesForm)
    requires d.glucose.NaN? && d.bloodPressure.NaN? && d.bmi.NaN? && d.age.NaN?
    ensures Violations(d) == []
  {
  }

  /** The glucose range rejects exactly the values below 0 or above 300. */
  lemma GlucoseRange(d: DiabetesForm)
    requires d.glucose.Finite?
    ensures GlucoseMessage in Violations(d) <==> d.glucose.v < 0.0 || d.glucose.v > 300.0
  {
    ViolationCounts(d);
  }

  /** The blood-pressure range rejects exactly the values below 0 or above 200. */
  lemma BloodPressureRange(d: DiabetesForm)
    requires d.bloodPressure.Finite?
    ensures BloodPressureMessage in Violations(d) <==> d.bloodPressure.v < 0.0 || d.bloodPressure.v > 200.0
  {
    ViolationCounts(d);
  }

  /** The BMI range rejects exactly the values below 0 or above 50. */
  lemma BmiRange(d: DiabetesForm)
    requires d.bmi.Finite?
    ensures BmiMessage in Violations(d) <==> d.bmi.v < 0.0 || d.bmi.v > 50.0
  {
    ViolationCounts(d);
  }

  /** The age range rejects exactly the values below 1 or above 120. */
  lemma AgeRange(d: DiabetesForm)
    requires d.age.Finite?
    ensures AgeMessage in Violations(d) <==> d.age.v < 1.0 || d.age.v > 120.0
  {
    ViolationCounts(d);
  }

  // ---------------------------------------------------------------------------
  // The trim/empty guard of predictHateSpeech

  /** The characters `String.prototype.trim` removes: white space and line
      terminators. */
  predicate IsJsSpace(c: char) {
    var n := c as int;
    (9 <= n <= 13) || n == 32 || n == 0xA0 || n == 0x1680
    || (0x2000 <= n <= 0x200A) || n == 0x2028 || n == 0x2029 || n == 0x202F
    || n == 0x205F || n == 0x3000 || n == 0xFEFF
  }

  /** Length of the leading white-space run. */
  function LeadingSpace(s: string): (n: nat)
    ensures n <= |s|
    ensures forall i :: 0 <= i < n ==> IsJsSpace(s[i])
    ensures n < |s| ==> !IsJsSpace(s[n])
  {
    if s == [] || !IsJsSpace(s[0]) then 0 else 1 + LeadingSpace(s[1..])
  }

  /** Length of the trailing white-space run. */
  function TrailingSpace(s: string): (n: nat)
    ensures n <= |s|
    ensures forall i :: |s| - n <= i < |s| ==> IsJsSpace(s[i])
    ensures n < |s| ==> !IsJsSpace(s[|s| - 1 - n])
  {
    if s == [] || !IsJsSpace(s[|s| - 1]) then 0 else 1 + TrailingSpace(s[..|s| - 1])
  }

  /** Everything of `s` before `i` and from `j` on is white space. */
  predicate SpaceOutside(s: string, i: int, j: int) {
    && 0 <= i <= j <= |s|
    && (forall k :: 0 <= k < i ==> IsJsSpace(s[k]))
    && (forall k :: j <= k < |s| ==> IsJsSpace(s[k]))
  }

  /** Where the trimmed slice of `s` ends: before the trailing white space,
      or at the end when `s` is all white space. */
  function TrimEnd(s: string): (j: nat)
    ensures LeadingSpace(s) <= j <= |s|
  {
    if LeadingSpace(s) == |s| then |s| else |s| - TrailingSpace(s)
  }

  /** `s.trim()`: the slice of `s` between its leading and trailing white
      space, which starts and ends with a character that is not white space. */
  function JsTrim(s: string): (t: string)
    ensures exists i, j :: SpaceOutside(s, i, j) && t == s[i..j]
    ensures t != [] ==> !IsJsSpace(t[0]) && !IsJsSpace(t[|t| - 1])
    ensures t == [] <==> forall k :: 0 <= k < |s| ==> IsJsSpace(s[k])
  {
    s[LeadingSpace(s)..TrimEnd(s)]
  }

  datatype GuardOutcome = Reject(message: string) | Send(text: string)

  /** The first steps of `predictHateSpeech`: trim the entered text; refuse
      when nothing is left, and otherwise send what is left. */
  function HateSpeechGuard(input: string): (g: GuardOutcome)
    ensures g.Reject? <==> forall k :: 0 <= k < |input| ==> IsJsSpace(input[k])
    ensures g.Reject? ==> g.message == "Please enter some text to analyze."
    ensures g.Send? ==> g.text == JsTrim(input) && g.text != ""
  {
    var text := JsTrim(input);
    if text == "" then Reject("Please enter some text to analyze.") else Send(text)
  }

  /** Whatever the guard lets through, the server does not refuse as empty
      (the body `{text: t}` reaches the server as that string). */
  lemma GuardedTextAccepted(model: HateSpeechDetector, input: string)
    requires model.Valid()
    requires HateSpeechGuard(input).Send?
    ensures HandleHateSpeech(model, Ok(Dict(map["text" := Str(HateSpeechGuard(input).text)]))).status != 400
  {
    RejectedOnlyWhenEmpty(model, map["text" := Str(HateSpeechGuard(input).text)]);
  }

  // ---------------------------------------------------------------------------
  // validateNumericInput

  datatype InputStyle = InputStyle(borderColor: string, backgroundColor: string)

  const InvalidInput: InputStyle := InputStyle("#dc3545", "#fff5f5")
  const ValidInput: InputStyle := InputStyle("#28a745", "#f8fff8")

  /** The colours `validateNumericInput` gives a field, from the parsed value
      and the parsed `min` and `max` attributes. */
  function NumericInputStyle(value: JsNumber, min: JsNumber, max: JsNumber): (st: InputStyle)
    ensures st == InvalidInput <==> Less(value, min) || Less(max, value)
    ensures st == InvalidInput || st == ValidInput
  {
    if Less(value, min) || Less(max, value) then InvalidInput else ValidInput
  }

  /** An unparsable value, or two missing bounds, never mark the field
      invalid; a missing bound leaves only the other one checked; a finite
      value is marked exactly when it lies outside finite bounds. */
  lemma NumericInputMeaning(value: JsNumber, min: JsNumber, max: JsNumber)
    ensures value.NaN? || (min.NaN? && max.NaN?) ==> NumericInputStyle(value, min, max) == ValidInput
    ensures min.NaN? ==> (NumericInputStyle(value, min, max) == InvalidInput <==> Less(max, value))
    ensures max.NaN? ==> (NumericInputStyle(value, min, max) == InvalidInput <==> Less(value, min))
    ensures value.Finite? && min.Finite? && max.Finite? ==>
      (NumericInputStyle(value, min, max) == InvalidInput <==> value.v < min.v || value.v > max.v)
  {
  }

  // ---------------------------------------------------------------------------
  // Result styles

  datatype ResultStyle = ResultStyle(resultClass: string, riskClass: string, icon: string, color: string)

  /** The `switch (riskLevel)` of `displayDiabetesResult`. */
  function RiskStyle(level: string): (st: ResultStyle)
    ensures level == "High" ==> st == ResultStyle("result-danger", "risk-high", "fas fa-exclamation-triangle", "#dc3545")
    ensures level == "Medium" ==> st == ResultStyle("result-warning", "risk-medium", "fas fa-exclamation-circle", "#ffc107")
    ensures level != "High" && level != "Medium" ==>
      st == ResultStyle("result-success", "risk-low", "fas fa-check-circle", "#28a745")
  {
    match level
    case "High" => ResultStyle("result-danger", "risk-high", "fas fa-exclamation-triangle", "#dc3545")
    case "Medium" => ResultStyle("result-warning", "risk-medium", "fas fa-exclamation-circle", "#ffc107")
    case _ => ResultStyle("result-success", "risk-low", "fas fa-check-circle", "#28a745")
  }

  /** Composed with the server's banding, the style follows the probability:
      danger above 0.7, warning above 0.3, success otherwise. */
  lemma RiskStyleOfProbability(p: real)
    ensures RiskStyle(RiskLevel(p)).resultClass == "result-danger" <==> p > 0.7
    ensures RiskStyle(RiskLevel(p)).resultClass == "result-warning" <==> 0.3 < p <= 0.7
    ensures RiskStyle(RiskLevel(p)).resultClass == "result-success" <==> p <= 0.3
  {
    RiskBands(p);
  }

  /** `displayHateSpeechResult`: danger styling only for "Hate Speech". */
  function HateSpeechStyle(prediction: string): (st: ResultStyle)
    ensures st.resultClass == "result-danger" <==> prediction == "Hate Speech"
    ensures st.resultClass == "result-success" <==> prediction != "Hate Speech"
  {
    if prediction == "Hate Speech" then ResultStyle("result-danger", "", "fas fa-exclamation-triangle", "#dc3545")
    else ResultStyle("result-success", "", "fas fa-check-circle", "#28a745")
  }

  /** An untrained detector's answer, "Model not trained", is shown with the
      success styling of normal speech. */
  lemma UntrainedShownAsNormal(model: HateSpeechDetector, s: string)
    requires model.Valid() && !model.isTrained
    ensures HateSpeechStyle(model.Predict(Str(s)).value).resultClass == "result-success"
  {
    assert "Model not trained" != "Hate Speech";
  }

  /** The headline of `displayDiabetesResult`. */
  function DiabetesHeadline(prediction: int): (h: string)
    ensures h == "High Risk of Diabetes" <==> prediction == 1
    ensures h == "Low Risk of Diabetes" <==> prediction != 1
  {
    if prediction == 1 then "High Risk of Diabetes" else "Low Risk of Diabetes"
  }
}
