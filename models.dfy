/**
  The two classifiers: `HateSpeechDetector` and `DiabetesPredictor`.

  What scikit-learn fits is not modelled: each class is given a `learner`, the
  whole fitting step (vectorising, splitting, fitting) as one function from
  the training data to the fitted predictor, whose predictions are then
  uninterpreted functions. The random draws of the synthetic diabetes data
  are constructor parameters.
 */
module Models {
  import opened Wrappers
  import opened PyValues
  import opened PyStrings
  import opened TextNormalizer

  // ---------------------------------------------------------------------------
  // Training data

  /** `s * n`: the list `s` repeated `n` times. */
  function Repeat<T>(s: seq<T>, n: nat): (r: seq<T>)
    ensures |r| == n * |s|
  {
    if n == 0 then [] else s + Repeat(s, n - 1)
  }

  /** The repetition starts with the list and repeats with period `|s|`. */
  lemma {:induction false} RepeatPeriodic<T>(s: seq<T>, n: nat, i: nat)
    requires i < |Repeat(s, n)|
    ensures i < |s| ==> Repeat(s, n)[i] == s[i]
    ensures i >= |s| ==> Repeat(s, n)[i] == Repeat(s, n)[i - |s|]
  {
    var r, m := Repeat(s, n), |s|;
    assert r == s + Repeat(s, n - 1);
    if i >= m {
      var rest := Repeat(s, n - 1);
      assert r[i] == rest[i - m];
      if i - m < m {
        RepeatPeriodic(s, n - 1, i - m);
      } else {
        RepeatPeriodic(s, n - 1, i - m);
        assert r[i - m] == rest[i - m - m];
      }
    }
  }

  /** Every element occurs `n` times as often in the repetition. */
  lemma {:induction false} RepeatCounts<T>(s: seq<T>, n: nat, e: T)
    ensures multiset(Repeat(s, n))[e] == n * multiset(s)[e]
  {
    if n > 0 {
      RepeatCounts(s, n - 1, e);
      var c, rest := multiset(s)[e], Repeat(s, n - 1);
      assert multiset(s + rest) == multiset(s) + multiset(rest);
      assert multiset(rest)[e] == (n - 1) * c;
      assert (n - 1) * c + c == n * c;
    }
  }

  /** `zip(*pairs)`, first half. */
  function Texts(pairs: seq<(string, int)>): (r: seq<string>)
    ensures |r| == |pairs| && forall i :: 0 <= i < |r| ==> r[i] == pairs[i].0
  {
    seq(|pairs|, i requires 0 <= i < |pairs| => pairs[i].0)
  }

  /** `zip(*pairs)`, second half. */
  function Labels(pairs: seq<(string, int)>): (r: seq<int>)
    ensures |r| == |pairs| && forall i :: 0 <= i < |r| ==> r[i] == pairs[i].1
  {
    seq(|pairs|, i requires 0 <= i < |pairs| => pairs[i].1)
  }

  /** `[self.preprocess_text(text) for text in self.X]` */
  function PreprocessAll(xs: seq<string>): (r: seq<string>)
    ensures |r| == |xs|
    ensures forall i :: 0 <= i < |r| ==> r[i] == PreprocessText(xs[i]) && Normalized(r[i])
  {
    seq(|xs|, i requires 0 <= i < |xs| => PreprocessText(xs[i]))
  }

  /** How many times the example list is repeated to make the training set. */
  const Replication: nat := 10

  /** The training set holds ten copies of the examples: it starts with them,
      repeats with period `|corpus|`, and each label is exactly ten times as
      frequent as among the examples. */
  lemma TrainingSetLayout(corpus: seq<(string, int)>, i: nat, l: int)
    requires i < Replication * |corpus|
    ensures |Texts(Repeat(corpus, Replication))| == Replication * |corpus|
    ensures i < |corpus| ==> Texts(Repeat(corpus, Replication))[i] == corpus[i].0
    ensures i >= |corpus| ==>
      Texts(Repeat(corpus, Replication))[i] == Texts(Repeat(corpus, Replication))[i - |corpus|]
    ensures multiset(Labels(Repeat(corpus, Replication)))[l] == Replication * multiset(Labels(corpus))[l]
  {
    RepeatPeriodic(corpus, Replication, i);
    LabelsOfRepeat(corpus, Replication);
    RepeatCounts(Labels(corpus), Replication, l);
  }

  lemma {:induction false} LabelsOfRepeat(c: seq<(string, int)>, n: nat)
    ensures Labels(Repeat(c, n)) == Repeat(Labels(c), n)
  {
    if n > 0 {
      LabelsOfRepeat(c, n - 1);
      assert Labels(c + Repeat(c, n - 1)) == Labels(c) + Labels(Repeat(c, n - 1));
    }
  }

  // ---------------------------------------------------------------------------
  // Hate-speech detector

  /** A fitted vectoriser and logistic regression, applied to preprocessed text:
      the raw class label and the two class probabilities. */
  datatype TextFit = TextFit(rawPredict: string -> int, proba: string -> (real, real))

  /** The label text a raw prediction maps to. */
  function SpeechLabel(raw: int): (s: string)
    ensures s == "Hate Speech" <==> raw == 1
    ensures s == "Normal Speech" <==> raw != 1
  {
    if raw == 1 then "Hate Speech" else "Normal Speech"
  }

  /** `m` is the larger of the two probabilities: `max(probabilities)`. */
  predicate IsLarger(m: real, p: (real, real)) {
    m >= p.0 && m >= p.1 && (m == p.0 || m == p.1)
  }

  class HateSpeechDetector {
    /** Fitting: from the preprocessed texts and their labels to the fitted model. */
    const learner: (seq<string>, seq<int>) -> TextFit
    var x: seq<string>
    var y: seq<int>
    var isTrained: bool
    /** The fitted model; `None` until `train` has fitted it. */
    var fit: Option<TextFit>

    predicate Valid()
      reads this
    {
      |x| == |y| && (isTrained <==> fit.Some?)
    }

    /** `__init__`: field initialisation leaves the detector untrained; it then
        builds the training data from the examples and trains. */
    constructor (corpus: seq<(string, int)>, learner: (seq<string>, seq<int>) -> TextFit)
      ensures Valid()
      ensures this.learner == learner
      ensures x == Texts(Repeat(corpus, Replication)) && y == Labels(Repeat(corpus, Replication))
      ensures isTrained && fit == Some(learner(PreprocessAll(x), y))
    {
      this.learner := learner;
      x, y := [], [];
      isTrained := false;
      fit := None;
      new;
      CreateSampleData(corpus);
      Train();
    }

    /** `_create_sample_data`: the examples repeated ten times, split into texts
        and labels. */
    method CreateSampleData(corpus: seq<(string, int)>)
      requires Valid()
      modifies this
      ensures Valid()
      ensures x == Texts(Repeat(corpus, Replication)) && y == Labels(Repeat(corpus, Replication))
      ensures isTrained == old(isTrained) && fit == old(fit)
    {
      var expanded := Repeat(corpus, Replication);
      x := Texts(expanded);
      y := Labels(expanded);
    }

    /** `train`: fit on the preprocessed texts, and only then set the flag. */
    method Train()
      requires Valid()
      modifies this
      ensures Valid()
      ensures isTrained && fit == Some(learner(PreprocessAll(x), y))
      ensures x == old(x) && y == old(y)
    {
      var processed := PreprocessAll(x);
      fit := Some(learner(processed, y));
      isTrained := true;
    }

    /** `predict(text)`: the sentinel when untrained; otherwise the label of the
        raw prediction on the preprocessed text. A non-string has no `lower`. */
    function Predict(text: Value): (r: Result<string, Exception>)
      reads this
      requires Valid()
      ensures !isTrained ==> r == Ok("Model not trained")
      ensures isTrained && text.Str? ==>
        r == Ok(SpeechLabel(fit.value.rawPredict(PreprocessText(text.s))))
      ensures isTrained && !text.Str? ==> r == Err(AttributeError(TypeName(text), "lower"))
    {
      if !isTrained then Ok("Model not trained")
      else if text.Str? then Ok(SpeechLabel(fit.value.rawPredict(PreprocessText(text.s))))
      else Err(AttributeError(TypeName(text), "lower"))
    }

    /** `get_confidence(text)`: 0.0 when untrained; otherwise the larger of the
        two class probabilities of the preprocessed text. */
    function GetConfidence(text: Value): (r: Result<real, Exception>)
      reads this
      requires Valid()
      ensures !isTrained ==> r == Ok(0.0)
      ensures isTrained && text.Str? ==> r.Ok? && IsLarger(r.value, fit.value.proba(PreprocessText(text.s)))
      ensures isTrained && !text.Str? ==> r == Err(AttributeError(TypeName(text), "lower"))
    {
      if !isTrained then Ok(0.0)
      else if text.Str? then
        var (p0, p1) := fit.value.proba(PreprocessText(text.s));
        Ok(if p0 >= p1 then p0 else p1)
      else Err(AttributeError(TypeName(text), "lower"))
    }
  }

  /** Case does not matter to the detector: texts equal up to letter case get
      the same label and the same confidence. */
  lemma DetectorIgnoresCase(d: HateSpeechDetector, s: string, t: string)
    requires d.Valid()
    requires |s| == |t| && forall i :: 0 <= i < |s| ==> LowerChar(s[i]) == LowerChar(t[i])
    ensures d.Predict(Str(s)) == d.Predict(Str(t))
    ensures d.GetConfidence(Str(s)) == d.GetConfidence(Str(t))
  {
    PreprocessIgnoresCase(s, t);
  }

  /** Digits and punctuation do not matter to the detector: deleting one such
      character leaves the label and the confidence unchanged. */
  lemma DetectorIgnoresOtherChars(d: HateSpeechDetector, a: string, c: char, b: string)
    requires d.Valid()
    requires !IsAsciiLetter(c) && !IsSpace(c)
    ensures d.Predict(Str(a + [c] + b)) == d.Predict(Str(a + b))
    ensures d.GetConfidence(Str(a + [c] + b)) == d.GetConfidence(Str(a + b))
  {
    PreprocessIgnoresOtherChars(a, c, b);
  }

  // ---------------------------------------------------------------------------
  // Synthetic diabetes risk

  /** Columns of a feature row, in `np.column_stack` order. */
  const Pregnancies: nat := 0
  const Glucose: nat := 1
  const BloodPressure: nat := 2
  const SkinThickness: nat := 3
  const Insulin: nat := 4
  const Bmi: nat := 5
  const DiabetesPedigree: nat := 6
  const Age: nat := 7
  const FeatureCount: nat := 8

  /** Number of synthetic patients. */
  const SampleCount: nat := 1000

  predicate IsRow(f: seq<real>) {
    |f| == FeatureCount
  }

  /** `(cond) * w`: the weight when the threshold is exceeded, else 0. */
  function Indicator(exceeded: bool, w: real): real {
    if exceeded then w else 0.0
  }

  /** The hand-coded risk score of a feature row. */
  function RiskScore(f: seq<real>): (score: real)
    requires IsRow(f)
    ensures 0.0 <= score <= 1.0
  {
    Indicator(f[Glucose] > 140.0, 0.3) +
    Indicator(f[Bmi] > 30.0, 0.2) +
    Indicator(f[Age] > 45.0, 0.2) +
    Indicator(f[DiabetesPedigree] > 0.5, 0.15) +
    Indicator(f[BloodPressure] > 90.0, 0.1) +
    Indicator(f[Pregnancies] > 5.0, 0.05)
  }

  /** The six thresholds, as (column, threshold, weight). */
  const Rules: seq<(nat, real, real)> := [
    (Glucose, 140.0, 0.3), (Bmi, 30.0, 0.2), (Age, 45.0, 0.2),
    (DiabetesPedigree, 0.5, 0.15), (BloodPressure, 90.0, 0.1), (Pregnancies, 5.0, 0.05)]

  /** Reference definition: the sum of the weights of the rules whose
      threshold the row exceeds. */
  function ExceededWeight(f: seq<real>, rules: seq<(nat, real, real)>): real
    requires IsRow(f) && forall k :: 0 <= k < |rules| ==> rules[k].0 < FeatureCount
  {
    if rules == [] then 0.0
    else
      (if f[rules[0].0] > rules[0].1 then rules[0].2 else 0.0) + ExceededWeight(f, rules[1..])
  }

  /** The score is the sum of the weights of the exceeded thresholds. */
  lemma RiskScoreIsExceededWeight(f: seq<real>)
    requires IsRow(f)
    ensures RiskScore(f) == ExceededWeight(f, Rules)
  {
    var rules: seq<(nat, real, real)> := Rules;
    assert ExceededWeight(f, rules[5..]) == Indicator(f[Pregnancies] > 5.0, 0.05) by {
      assert |rules[5..][1..]| == 0;
    }
    assert ExceededWeight(f, rules[4..]) == Indicator(f[BloodPressure] > 90.0, 0.1) + ExceededWeight(f, rules[5..]) by {
      assert rules[4..][1..] == rules[5..];
    }
    assert ExceededWeight(f, rules[3..]) == Indicator(f[DiabetesPedigree] > 0.5, 0.15) + ExceededWeight(f, rules[4..]) by {
      assert rules[3..][1..] == rules[4..];
    }
    assert ExceededWeight(f, rules[2..]) == Indicator(f[Age] > 45.0, 0.2) + ExceededWeight(f, rules[3..]) by {
      assert rules[2..][1..] == rules[3..];
    }
    assert ExceededWeight(f, rules[1..]) == Indicator(f[Bmi] > 30.0, 0.2) + ExceededWeight(f, rules[2..]) by {
      assert rules[1..][1..] == rules[2..];
    }
    assert ExceededWeight(f, rules) == Indicator(f[Glucose] > 140.0, 0.3) + ExceededWeight(f, rules[1..]);
  }

  /** The score lies in [0, 1]. */
  lemma RiskScoreBounds(f: seq<real>)
    requires IsRow(f)
    ensures 0.0 <= RiskScore(f) <= 1.0
  {
  }

  /** The score is 1 exactly when all six thresholds are exceeded, and 0
      exactly when none is. */
  lemma RiskScoreExtremes(f: seq<real>)
    requires IsRow(f)
    ensures RiskScore(f) == 1.0 <==>
      f[Glucose] > 140.0 && f[Bmi] > 30.0 && f[Age] > 45.0 &&
      f[DiabetesPedigree] > 0.5 && f[BloodPressure] > 90.0 && f[Pregnancies] > 5.0
    ensures RiskScore(f) == 0.0 <==>
      f[Glucose] <= 140.0 && f[Bmi] <= 30.0 && f[Age] <= 45.0 &&
      f[DiabetesPedigree] <= 0.5 && f[BloodPressure] <= 90.0 && f[Pregnancies] <= 5.0
  {
  }

  /** Raising any feature never lowers the score. */
  lemma RiskScoreMonotone(f: seq<real>, g: seq<real>)
    requires IsRow(f) && IsRow(g)
    requires forall k :: 0 <= k < FeatureCount ==> f[k] <= g[k]
    ensures RiskScore(f) <= RiskScore(g)
  {
    assert f[Glucose] <= g[Glucose] && f[Bmi] <= g[Bmi] && f[Age] <= g[Age];
    assert f[DiabetesPedigree] <= g[DiabetesPedigree] && f[BloodPressure] <= g[BloodPressure];
    assert f[Pregnancies] <= g[Pregnancies];
  }

  /** `(diabetes_risk + noise) > 0.4`, as 0 or 1. */
  function Outcome(f: seq<real>, noise: real): (outcome: int)
    requires IsRow(f)
    ensures outcome == 1 <==> RiskScore(f) + noise > 0.4
    ensures outcome == 0 <==> RiskScore(f) + noise <= 0.4
  {
    if RiskScore(f) + noise > 0.4 then 1 else 0
  }

  /** The label column of the synthetic data. */
  function Outcomes(rows: seq<seq<real>>, noise: seq<real>): (y: seq<int>)
    requires |rows| == |noise| && forall i :: 0 <= i < |rows| ==> IsRow(rows[i])
    ensures |y| == |rows|
    ensures forall i :: 0 <= i < |y| ==> y[i] == Outcome(rows[i], noise[i])
  {
    seq(|rows|, i requires 0 <= i < |rows| => Outcome(rows[i], noise[i]))
  }

  /** Without noise, high glucose together with a high BMI already makes a
      positive example, and no single exceeded threshold does. */
  lemma NoiselessOutcomes(f: seq<real>)
    requires IsRow(f)
    ensures f[Glucose] > 140.0 && f[Bmi] > 30.0 ==> Outcome(f, 0.0) == 1
    ensures Outcome(f, 0.0) == 1 ==>
      (if f[Glucose] > 140.0 then 1 else 0) + (if f[Bmi] > 30.0 then 1 else 0) + (if f[Age] > 45.0 then 1 else 0) +
      (if f[DiabetesPedigree] > 0.5 then 1 else 0) + (if f[BloodPressure] > 90.0 then 1 else 0) + (if f[Pregnancies] > 5.0 then 1 else 0) >= 2
  {
  }

  /** The least magnitude of a double that the cast to `float32` rounds up
      to infinity: halfway between the largest `float32`, 2^128 - 2^104, and 2^128. */
  const Float32Overflow: int := 340_282_356_779_733_661_637_539_395_458_142_568_448

  /** Every entry stays finite when cast to `float32`. */
  predicate Float32Finite(row: seq<real>) {
    forall k :: 0 <= k < |row| ==> -(Float32Overflow as real) < row[k] < Float32Overflow as real
  }

  /** scikit-learn's check of a row before a fitted forest predicts on it: the
      row is cast to `float32`, and an entry that becomes infinite raises
      `NonFiniteInput`. */
  function CheckForestInput(row: seq<real>): (r: Result<seq<real>, Exception>)
    ensures r.Ok? <==> Float32Finite(row)
    ensures r.Ok? ==> r.value == row
    ensures r.Err? ==> r.error == NonFiniteInput
  {
    if Float32Finite(row) then Ok(row) else Err(NonFiniteInput)
  }

  /** One entry at or beyond the `float32` range makes the whole row refused. */
  lemma ForestRefusesHugeEntry(row: seq<real>, k: nat)
    requires k < |row| && (row[k] >= Float32Overflow as real || row[k] <= -(Float32Overflow as real))
    ensures CheckForestInput(row) == Err(NonFiniteInput)
  {
  }

  /** A fitted random forest: its vote and its probability of class 1, on the
      rows its input check lets through. */
  datatype RiskFit = RiskFit(vote: seq<real> -> int, probaPositive: seq<real> -> real)

  class DiabetesPredictor {
    /** Fitting: from the feature rows and labels to the fitted forest. */
    const learner: (seq<seq<real>>, seq<int>) -> RiskFit
    var x: seq<seq<real>>
    var y: seq<int>
    var isTrained: bool
    /** The fitted model; `None` until `train` has fitted it. */
    var fit: Option<RiskFit>

    predicate Valid()
      reads this
    {
      |x| == |y| && (isTrained <==> fit.Some?)
    }

    /** `__init__`, given the random draws: `rows[i]` is patient `i`'s eight
        features and `noise[i]` the noise added to that patient's score. */
    constructor (rows: seq<seq<real>>, noise: seq<real>, learner: (seq<seq<real>>, seq<int>) -> RiskFit)
      requires |rows| == SampleCount && |noise| == SampleCount
      requires forall i :: 0 <= i < |rows| ==> IsRow(rows[i])
      ensures Valid()
      ensures this.learner == learner
      ensures x == rows && y == Outcomes(rows, noise)
      ensures isTrained && fit == Some(learner(x, y))
    {
      this.learner := learner;
      x, y := [], [];
      isTrained := false;
      fit := None;
      new;
      CreateSampleData(rows, noise);
      Train();
    }

    /** `_create_sample_data`: the rows as drawn, each labelled by its noisy score. */
    method CreateSampleData(rows: seq<seq<real>>, noise: seq<real>)
      requires Valid()
      requires |rows| == |noise| && forall i :: 0 <= i < |rows| ==> IsRow(rows[i])
      modifies this
      ensures Valid()
      ensures x == rows && y == Outcomes(rows, noise)
      ensures isTrained == old(isTrained) && fit == old(fit)
    {
      x := rows;
      y := Outcomes(rows, noise);
    }

    /** `train`: fit, and only then set the flag. */
    method Train()
      requires Valid()
      modifies this
      ensures Valid()
      ensures isTrained && fit == Some(learner(x, y))
      ensures x == old(x) && y == old(y)
    {
      fit := Some(learner(x, y));
      isTrained := true;
    }

    /** `predict(features)`: 0 when untrained, else the forest's vote on the
        row, or the error of its input check. */
    function Predict(features: seq<real>): (r: Result<int, Exception>)
      reads this
      requires Valid()
      ensures !isTrained ==> r == Ok(0)
      ensures isTrained ==> (r.Ok? <==> Float32Finite(features))
      ensures isTrained && r.Ok? ==> r.value == fit.value.vote(features)
      ensures r.Err? ==> r.error == NonFiniteInput
    {
      if !isTrained then Ok(0)
      else
        var row :- CheckForestInput(features);
        Ok(fit.value.vote(row))
    }

    /** `get_probability(features)`: 0.0 when untrained, else the forest's
        probability of class 1 for the row, or the error of its input
        check. */
    function GetProbability(features: seq<real>): (r: Result<real, Exception>)
      reads this
      requires Valid()
      ensures !isTrained ==> r == Ok(0.0)
      ensures isTrained ==> (r.Ok? <==> Float32Finite(features))
      ensures isTrained && r.Ok? ==> r.value == fit.value.probaPositive(features)
      ensures r.Err? ==> r.error == NonFiniteInput
    {
      if !isTrained then Ok(0.0)
      else
        var row :- CheckForestInput(features);
        Ok(fit.value.probaPositive(row))
    }
  }
}
