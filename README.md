# ml-prediction-app, modelled in Dafny

The application is a Flask service with a small browser front end. It offers
two predictions: whether a text is hate speech, and a diabetes risk computed
from eight clinical measurements. The machine learning itself is
scikit-learn's. This model covers the deterministic logic around it:

- the text normaliser `HateSpeechDetector.preprocess_text` and the extended
  cleaner `DataPreprocessor.clean_text`, which deletes URLs, mentions,
  hashtags and stop words;
- the life cycle of the two classifier objects: training data, the
  `is_trained` flag, the sentinel answers given while untrained, and the
  label mapping;
- the hand-coded synthetic risk score that labels the diabetes training data;
- the three JSON endpoints: the empty-text 400, feature extraction with
  defaults, risk banding, and the response shapes for success and 500;
- the browser's checks before a request: the diabetes range validator, the
  trim/empty guard, the per-field range colouring, and the result styles.

Modules, one per concern:

- `Wrappers`: `Option` and `Result`.
- `PyStrings`: Python string built-ins (`isspace`, `lower`, `split`, `join`).
- `PyValues`: decoded JSON values, truthiness, `dict.get`, `float()` and the
  exceptions a handler can meet.
- `TextNormalizer`: `preprocess_text`.
- `DataPreprocessing`: `clean_text`.
- `Models`: the two classifier classes and the risk score.
- `Routes`: the endpoints.
- `Script`: the browser-side decisions.

The fitted scikit-learn models are uninterpreted. Each class is given a
`learner`, a function from training data to a fitted predictor. All the
library's behaviour lives inside that fitted predictor. The classes are Dafny
classes whose fields (`x`, `y`, `isTrained`, `fit`) are updated by
`CreateSampleData` and `Train`, as the Python objects' fields are.

## Model

| member | source | states |
|---|---|---|
| TextNormalizer.PreprocessText | ml-prediction-app/backend/app/models.py:350-357 | the output holds only `a`-`z` and single spaces, with no space at either end |
| TextNormalizer.KeepLettersAndSpace | ml-prediction-app/backend/app/models.py:354 | every kept character is an ASCII letter or whitespace; nothing is added |
| TextNormalizer.PreprocessSpacing | ml-prediction-app/backend/app/models.py:356 | the output never starts or ends with a space and never has two spaces in a row |
| TextNormalizer.PreprocessFixesNormalized | ml-prediction-app/backend/app/models.py:350-357 | text that is already normalised comes back unchanged |
| TextNormalizer.PreprocessIdempotent | ml-prediction-app/backend/app/models.py:350-357 | normalising twice gives the same result as normalising once |
| TextNormalizer.PreprocessKeepsLetters | ml-prediction-app/backend/app/models.py:352-356 | the output's non-space characters are exactly the input's letters, lower-cased, in order |
| TextNormalizer.PreprocessKeepsWords | ml-prediction-app/backend/app/models.py:356 | the output's words are the whitespace-separated words of the letters-and-whitespace text |
| TextNormalizer.PreprocessIgnoresCase | ml-prediction-app/backend/app/models.py:352 | texts equal up to ASCII case normalise alike |
| TextNormalizer.PreprocessIgnoresOtherChars | ml-prediction-app/backend/app/models.py:354 | deleting any character that is neither a letter nor whitespace changes nothing |
| TextNormalizer.KeepOfMixed | ml-prediction-app/backend/app/models.py:354 | letters and whitespace pass through the substitution unchanged while the characters between them are deleted |
| TextNormalizer.PreprocessExample | ml-prediction-app/backend/app/models.py:352-356 | "HELLO, World!!" and "hello world" both give "hello world" |
| PyStrings.Lower | ml-prediction-app/backend/app/models.py:352 | same length; each ASCII capital becomes its small letter, every other character stays |
| PyStrings.Split | ml-prediction-app/backend/app/models.py:356 | every piece is non-empty, holds no whitespace, and is made of the input's characters |
| PyStrings.SplitJoin | ml-prediction-app/backend/app/models.py:356 | splitting words joined by single spaces gives back the words |
| PyStrings.JoinSplit | ml-prediction-app/backend/app/models.py:356 | joining the words of text that is already single-spaced gives back the text |
| PyStrings.JoinIsSingleSpaced | ml-prediction-app/backend/app/models.py:356 | words joined by single spaces form single-spaced text |
| PyStrings.SplitKeepsNonSpace | ml-prediction-app/backend/app/models.py:356 | splitting only drops whitespace: the words concatenated are the input's non-space characters |
| DataPreprocessing.DataPreprocessor.CleanText | ml-prediction-app/backend/utils/data_preprocessing.py:20-45 | a non-string gives ""; the output is lower-case letters and single interior spaces even after stop-word filtering; no output word is a stop word |
| DataPreprocessing.NewDataPreprocessor | ml-prediction-app/backend/utils/data_preprocessing.py:13-18 | the stop words are NLTK's English list when it loads, the empty set when loading raises |
| DataPreprocessing.UrlMatch | ml-prediction-app/backend/utils/data_preprocessing.py:29 | a match exists exactly when the text starts with "http" followed by at least one more non-whitespace character, or "www" likewise (an `https` match is also an `http` match); a match runs to the end of the non-whitespace run |
| DataPreprocessing.StripUrls | ml-prediction-app/backend/utils/data_preprocessing.py:29 | the substitution only deletes characters: the result is a subsequence of the text |
| DataPreprocessing.StripUrlsLeavesNoUrl | ml-prediction-app/backend/utils/data_preprocessing.py:29 | after the substitution, no position starts a URL match |
| DataPreprocessing.StripUrlsOfUrlFree | ml-prediction-app/backend/utils/data_preprocessing.py:29 | text with no URL match is left unchanged |
| DataPreprocessing.TagMatch | ml-prediction-app/backend/utils/data_preprocessing.py:32 | a match exists exactly when the text starts with `@` or `#` followed by a word character; it is the marker plus every word character after it, and stops before a non-word character |
| DataPreprocessing.StripTags | ml-prediction-app/backend/utils/data_preprocessing.py:32 | the substitution only deletes characters: the result is a subsequence of the text |
| DataPreprocessing.StripTagsLeavesNoTag | ml-prediction-app/backend/utils/data_preprocessing.py:32 | after the substitution, no `@` or `#` is followed by a word character |
| DataPreprocessing.StripTagsOfTagFree | ml-prediction-app/backend/utils/data_preprocessing.py:32 | text with no mention or hashtag match is left unchanged |
| DataPreprocessing.CleanTextStripsUrlsAndTags | ml-prediction-app/backend/utils/data_preprocessing.py:26-32 | no URL match survives the URL pass, and no mention or hashtag match survives the pass after it |
| DataPreprocessing.Substituted | ml-prediction-app/backend/utils/data_preprocessing.py:26-35 | after lower-casing and the three substitutions, only lower-case letters and whitespace are left |
| DataPreprocessing.RemoveStopWords | ml-prediction-app/backend/utils/data_preprocessing.py:43 | no stop word survives; every other word keeps all its occurrences; the survivors keep their relative order |
| DataPreprocessing.DropStopWords | ml-prediction-app/backend/utils/data_preprocessing.py:41-43 | on collapsed text, the output is still lower-case letters and single spaces, and its words are the tokens that are not stop words |
| DataPreprocessing.TokenizeSpells | ml-prediction-app/backend/utils/data_preprocessing.py:42 | tokenising only splits words: the tokens spell the same letters |
| DataPreprocessing.TokenizeLower | ml-prediction-app/backend/utils/data_preprocessing.py:42 | tokens of lower-case words are lower-case words |
| DataPreprocessing.TokenizeWord | ml-prediction-app/backend/utils/data_preprocessing.py:42 | a word is split in two exactly when it is one of the merged forms the tokenizer separates |
| DataPreprocessing.Tokenize | ml-prediction-app/backend/utils/data_preprocessing.py:42 | each word gives one token or two |
| DataPreprocessing.Collapsed | ml-prediction-app/backend/utils/data_preprocessing.py:26-38 | the text before stop-word filtering is normalised and has the same words as the substituted text |
| DataPreprocessing.CleanTextWords | ml-prediction-app/backend/utils/data_preprocessing.py:41-43 | with stop words loaded, the output's words are the tokens that are not stop words, in order |
| DataPreprocessing.CleanTextWithoutStopWords | ml-prediction-app/backend/utils/data_preprocessing.py:26-38 | without stop words, the output has the substituted text's words and letters |
| DataPreprocessing.CleanTextMatchesPreprocess | ml-prediction-app/backend/utils/data_preprocessing.py:26-38 | with no stop words and no URL, mention or hashtag match, the cleaner agrees with `preprocess_text` |
| Models.Repeat | ml-prediction-app/backend/app/models.py:344 | the repetition is `n` times as long as the list |
| Models.RepeatPeriodic | ml-prediction-app/backend/app/models.py:344 | the repetition starts with the list and repeats with its period |
| Models.RepeatCounts | ml-prediction-app/backend/app/models.py:344 | each element occurs `n` times as often |
| Models.Texts | ml-prediction-app/backend/app/models.py:346-348 | the texts of the pairs, in order |
| Models.Labels | ml-prediction-app/backend/app/models.py:346-348 | the labels of the pairs, in order |
| Models.TrainingSetLayout | ml-prediction-app/backend/app/models.py:343-348 | the training texts are ten copies of the examples, and each label is ten times as frequent |
| Models.PreprocessAll | ml-prediction-app/backend/app/models.py:361 | entry i is `preprocess_text` of training text i, and so is normalised |
| Models.SpeechLabel | ml-prediction-app/backend/app/models.py:389 | "Hate Speech" exactly for raw label 1, "Normal Speech" for every other label |
| Models.HateSpeechDetector.constructor | ml-prediction-app/backend/app/models.py:21-26 | the detector starts untrained, builds its data from the examples, and ends trained on that data |
| Models.HateSpeechDetector.CreateSampleData | ml-prediction-app/backend/app/models.py:28-348 | texts and labels are the examples repeated ten times; the flag and the model are untouched |
| Models.HateSpeechDetector.Train | ml-prediction-app/backend/app/models.py:359-379 | the model is fitted on the preprocessed texts, then the flag is set; the data is unchanged |
| Models.HateSpeechDetector.Predict | ml-prediction-app/backend/app/models.py:381-389 | "Model not trained" when untrained, without consulting the model; otherwise the label of the raw prediction on the preprocessed text; a non-string raises the `lower` AttributeError |
| Models.HateSpeechDetector.GetConfidence | ml-prediction-app/backend/app/models.py:391-399 | 0.0 when untrained; otherwise the larger of the two class probabilities of the preprocessed text |
| Models.DetectorIgnoresCase | ml-prediction-app/backend/app/models.py:385-397 | texts equal up to case get the same label and the same confidence |
| Models.DetectorIgnoresOtherChars | ml-prediction-app/backend/app/models.py:385-397 | digits and punctuation change neither the label nor the confidence |
| Models.RiskScoreIsExceededWeight | ml-prediction-app/backend/app/models.py:424-431 | the score is the sum of the weights of the exceeded thresholds |
| Models.RiskScoreBounds | ml-prediction-app/backend/app/models.py:424-431 | the score lies in [0, 1] |
| Models.RiskScoreExtremes | ml-prediction-app/backend/app/models.py:424-431 | the score is 1 exactly when all six thresholds are exceeded, and 0 exactly when none is |
| Models.RiskScoreMonotone | ml-prediction-app/backend/app/models.py:424-431 | raising any feature never lowers the score |
| Models.RiskScore | ml-prediction-app/backend/app/models.py:424-431 | the score lies in [0, 1] |
| Models.Outcome | ml-prediction-app/backend/app/models.py:433 | the label is 1 exactly when the noisy score exceeds 0.4 |
| Models.Outcomes | ml-prediction-app/backend/app/models.py:433-439 | one label per row, each the row's outcome under its noise |
| Models.NoiselessOutcomes | ml-prediction-app/backend/app/models.py:424-433 | without noise, high glucose with high BMI is positive, and a positive needs at least two exceeded thresholds |
| Models.DiabetesPredictor.constructor | ml-prediction-app/backend/app/models.py:402-406 | the predictor starts untrained, builds the 1000 labelled rows, and ends trained on them |
| Models.DiabetesPredictor.CreateSampleData | ml-prediction-app/backend/app/models.py:408-439 | the rows are the draws, labelled by their noisy scores; the flag and the model are untouched |
| Models.DiabetesPredictor.Train | ml-prediction-app/backend/app/models.py:441-452 | the model is fitted, then the flag is set; the data is unchanged |
| Models.CheckForestInput | ml-prediction-app/backend/app/models.py:458-459 | the forest accepts a row exactly when every entry stays finite as a `float32`, and otherwise raises the ValueError "Input X contains infinity or a value too large for dtype('float32')." |
| Models.ForestRefusesHugeEntry | ml-prediction-app/backend/app/models.py:458-459 | one entry at or beyond the `float32` range makes the row refused |
| Models.DiabetesPredictor.Predict | ml-prediction-app/backend/app/models.py:454-461 | 0 when untrained; otherwise the forest's vote when the row passes its input check, and that check's ValueError when it does not |
| Models.DiabetesPredictor.GetProbability | ml-prediction-app/backend/app/models.py:463-470 | 0.0 when untrained; otherwise the forest's probability of class 1 when the row passes its input check, and that check's ValueError when it does not |
| PyValues.ToFloat | ml-prediction-app/backend/app/routes.py:50-57 | `float()` of ints, floats and bools; a string gives the parser's value, or a ValueError carrying the string when the parser refuses it; `None`, lists and dicts raise TypeError; ints too large for a double raise OverflowError |
| PyValues.Message | ml-prediction-app/backend/app/routes.py:41 | the text of every exception is non-empty |
| PyValues.Truthy | ml-prediction-app/backend/app/routes.py:29 | Python truthiness: None, False, 0, 0.0, "", [] and {} are false, everything else true |
| PyValues.Get | ml-prediction-app/backend/app/routes.py:27 | the key's value when present, the default otherwise |
| PyStrings.Join | ml-prediction-app/backend/app/models.py:356 | one word joins to itself and no words to "" |
| Routes.ServerError | ml-prediction-app/backend/app/routes.py:40-41 | status 500 with the exception's text under `error` |
| Routes.Entries | ml-prediction-app/backend/app/routes.py:27 | only a dictionary has `get`; anything else raises AttributeError |
| Routes.HateSpeechResult | ml-prediction-app/backend/app/routes.py:26-39 | without an exception the answer is the 400 "No text provided" or a 200 with exactly `prediction`, `confidence` and `text` |
| Routes.HandleHateSpeech | ml-prediction-app/backend/app/routes.py:24-41 | status is 200, 400 or 500; every 400 is "No text provided"; every 500 carries an `error`; an unreadable or non-dictionary body gives a 500 |
| Routes.EmptyTextRejected | ml-prediction-app/backend/app/routes.py:27-30 | a missing or falsy `text` gives the 400, whatever the detector |
| Routes.RejectedOnlyWhenEmpty | ml-prediction-app/backend/app/routes.py:27-30 | the 400 is given exactly when `text` is missing or falsy |
| Routes.HateSpeechSuccess | ml-prediction-app/backend/app/routes.py:32-39 | a non-empty string gets a 200 with the prediction, the confidence and the text echoed unchanged |
| Routes.HateSpeechNonString | ml-prediction-app/backend/app/routes.py:32-41 | a truthy non-string text reaches the trained detector and gives a 500 with its error |
| Routes.ExtractFrom | ml-prediction-app/backend/app/routes.py:49-58 | one number per key, each the `float()` of the key's value or of 0; it fails exactly when some key's conversion fails |
| Routes.ExtractFirstError | ml-prediction-app/backend/app/routes.py:49-58 | a failure is the error of the first key whose value `float()` refuses, every earlier key converting |
| Routes.ExtractFeatures | ml-prediction-app/backend/app/routes.py:49-58 | a successful extraction is a row of eight features |
| Routes.FeatureVector | ml-prediction-app/backend/app/routes.py:49-58 | eight entries in the fixed key order; an absent key gives 0.0 |
| Routes.EmptyBodyFeatures | ml-prediction-app/backend/app/routes.py:49-58 | an empty body gives eight zeros |
| Routes.ExtractAbsent | ml-prediction-app/backend/app/routes.py:49-58 | keys that are all absent from the body give 0.0 each |
| Routes.RiskLevel | ml-prediction-app/backend/app/routes.py:66 | the level is one of "High", "Medium", "Low" |
| Routes.RiskBands | ml-prediction-app/backend/app/routes.py:66 | "High" exactly when p > 0.7, "Medium" exactly when 0.3 < p <= 0.7, "Low" exactly when p <= 0.3 |
| Routes.RiskLevelMonotone | ml-prediction-app/backend/app/routes.py:66 | a higher probability never gets a lower band |
| Routes.HandleDiabetes | ml-prediction-app/backend/app/routes.py:44-69 | status is 200 or 500; every 500 carries an `error`; a 200 has exactly the three keys, and its risk level is the band of its probability |
| Routes.DiabetesResult | ml-prediction-app/backend/app/routes.py:46-67 | without an exception the answer is a 200 with exactly `prediction`, `probability` and `risk_level` |
| Routes.DiabetesSuccess | ml-prediction-app/backend/app/routes.py:60-67 | a well-formed body whose row the forest accepts gets the model's vote and probability; an untrained model answers 0, 0.0 and "Low" for every well-formed body |
| Routes.DiabetesForestRefuses | ml-prediction-app/backend/app/routes.py:60-69 | a trained model refuses a row with an entry beyond the `float32` range, and the answer is a 500 with the forest's message |
| Routes.HugeGlucoseRefused | ml-prediction-app/backend/app/routes.py:46-69 | a body `{"glucose": 1e39}` gets that 500 from a trained model |
| Routes.DiabetesBadFeature | ml-prediction-app/backend/app/routes.py:49-69 | a value `float()` refuses gives a 500 carrying that refusal |
| Routes.HandleVisualizations | ml-prediction-app/backend/app/routes.py:72-77 | the charts with status 200, or a 500 carrying the error |
| Script.LessIsStrictOrder | ml-prediction-app/static/js/script.js:158-171 | `<` is a strict total order on the non-NaN numbers, and NaN compares false with everything |
| Script.Less | ml-prediction-app/static/js/script.js:158-171 | `<` is false when either side is NaN, and on finite numbers is the order of the reals |
| Script.OutOfRangeMeaning | ml-prediction-app/static/js/script.js:158-171 | a range test rejects exactly the numbers outside the closed range; both ends pass and NaN passes |
| Script.OutOfRange | ml-prediction-app/static/js/script.js:158-171 | NaN is never out of range |
| Script.Violations | ml-prediction-app/static/js/script.js:156-172 | at most four messages |
| Script.ValidateDiabetesInputs | ml-prediction-app/static/js/script.js:155-178 | valid exactly when no range is violated; the message is the violations' texts joined with ", " |
| Script.ValidIffNoMessage | ml-prediction-app/static/js/script.js:174-177 | the form is valid exactly when the message is "" |
| Script.ViolationCounts | ml-prediction-app/static/js/script.js:158-172 | each violated range contributes its message and each satisfied range none; at most four messages |
| Script.ViolationsOnce | ml-prediction-app/static/js/script.js:158-172 | no message appears twice |
| Script.ViolationsInCheckOrder | ml-prediction-app/static/js/script.js:158-172 | messages appear in the order glucose, blood pressure, BMI, age |
| Script.EndpointsAccepted | ml-prediction-app/static/js/script.js:158-172 | 0 and 300, 0 and 200, 0 and 50, and 1 and 120 all pass |
| Script.UncheckedFields | ml-prediction-app/static/js/script.js:155-178 | pregnancies, skin thickness, insulin and pedigree never affect the result |
| Script.NaNPasses | ml-prediction-app/static/js/script.js:158-172 | a field that is not a number passes its check |
| Script.GlucoseRange | ml-prediction-app/static/js/script.js:158-160 | the glucose message appears exactly when glucose is below 0 or above 300 |
| Script.BloodPressureRange | ml-prediction-app/static/js/script.js:162-164 | the blood-pressure message appears exactly when it is below 0 or above 200 |
| Script.BmiRange | ml-prediction-app/static/js/script.js:166-168 | the BMI message appears exactly when it is below 0 or above 50 |
| Script.AgeRange | ml-prediction-app/static/js/script.js:170-172 | the age message appears exactly when it is below 1 or above 120 |
| Script.JsTrim | ml-prediction-app/static/js/script.js:44 | the result is the input with its leading and trailing white space removed, and starts and ends with a non-space |
| Script.HateSpeechGuard | ml-prediction-app/static/js/script.js:44-49 | whitespace-only input is refused with "Please enter some text to analyze."; anything else is sent trimmed and non-empty |
| Script.GuardedTextAccepted | ml-prediction-app/static/js/script.js:44-61 | text the guard lets through never gets the server's empty-text 400 |
| Script.NumericInputStyle | ml-prediction-app/static/js/script.js:366-378 | red exactly when value < min or value > max, green otherwise |
| Script.NumericInputMeaning | ml-prediction-app/static/js/script.js:366-378 | an unparsable value or two missing bounds never give red; with one bound missing only the other is checked; finite values are red exactly outside the bounds |
| Script.RiskStyle | ml-prediction-app/static/js/script.js:187-205 | "High" gives the danger style, "Medium" the warning style, and every other value the success style |
| Script.RiskStyleOfProbability | ml-prediction-app/static/js/script.js:187-205 | with the server's banding: danger above 0.7, warning above 0.3, success otherwise |
| Script.HateSpeechStyle | ml-prediction-app/static/js/script.js:77-82 | danger styling exactly for "Hate Speech" |
| Script.UntrainedShownAsNormal | ml-prediction-app/static/js/script.js:77-82 | an untrained detector's "Model not trained" is shown with the success styling |
| Script.DiabetesHeadline | ml-prediction-app/static/js/script.js:181-211 | "High Risk of Diabetes" exactly when the prediction is 1 |

## Left out

- scikit-learn: `TfidfVectorizer`, `LogisticRegression`, `RandomForestClassifier`, `train_test_split` and `accuracy_score` are foreign code. Their combined effect is the uninterpreted `learner`, with fitted predictors `TextFit` and `RiskFit`. Nothing is claimed about the values they return.
- The accuracy printed by both `train` methods is console output and is not modelled.
- The `np.random` draws and the outcome noise are random. They are constructor parameters of `DiabetesPredictor`, drawn from nothing in particular. The ranges `randint` would keep them in are not modelled.
- The 308 example sentences are not reproduced. They are the `corpus` parameter of the `HateSpeechDetector` constructor.
- Models.RiskScore: the score is computed with exact reals, not doubles. The six weights happen to sum to exactly 1.0 in double arithmetic too, but rounding in other sums is not modelled.
- PyValues.ToFloat: an int becomes the exact real, not the nearest double. Parsing a string is the `parse` parameter. The strings "nan" and "inf", which Python accepts, have no value in this model.
- PyValues.Message: the ValueError text always quotes the string with single quotes. Python's `repr` switches to double quotes and escapes some characters. An unreadable request body's text is Flask's own and is carried as given.
- PyStrings.Lower: only ASCII letters are lower-cased. Python also lower-cases other scripts. The only non-ASCII characters whose lower case contains an ASCII letter are U+0130 and U+212A, and the model leaves them as they are.
- DataPreprocessing.TagMatch: `\w` is taken as ASCII letters, digits and underscore. Python's `\w` also matches non-ASCII letters and digits, so a mention such as "@é" is not deleted here.
- DataPreprocessing.Tokenize: NLTK's `word_tokenize` is modelled only on what reaches it, lower-case words separated by single spaces. On such text the Treebank tokenizer splits exactly "cannot", "gimme", "gonna", "gotta", "lemme" and "wanna", and sentence splitting changes nothing. This rests on reading NLTK's rules, which are not part of this model.
- `DataPreprocessor.clean_numerical_data`, `scale_features`, `encode_labels` and `detect_outliers` are pandas and scikit-learn code outside this model, as is NLTK's downloader.
- No idempotence is claimed for `clean_text`. Deleting characters can create a URL: "ht.tpx" becomes "httpx", which a second pass deletes.
- Script.ValidateDiabetesInputs: the form fields are taken as numbers that have already been converted. JavaScript compares the field strings with numbers, so "" counts as 0.
- Script.NumericInputStyle: `parseFloat` is not modelled; its results are the inputs.
- The DOM, `fetch`, event listeners, tab switching, the loading and error panels, and the sample-fill helpers are browser plumbing and are not modelled.
- The JSON encoding and decoding between browser and server is not modelled. `GuardedTextAccepted` assumes the server decodes the string the browser sent.
- Flask's request parsing is a parameter: what `request.get_json()` returned or raised. The app factory, CORS, start-up (`main.py`, `app/__init__.py`) and `visualization.py`, whose result is a parameter of `HandleVisualizations`, are not part of this model.
- Models.DiabetesPredictor.Predict: scikit-learn's check that a row has eight features, and its error for other lengths, are not modelled; such a row goes to the vote as it is. The handler always passes eight features.
- Models.DiabetesPredictor.GetProbability: as for Predict, the feature-count check is not modelled.
- Models.CheckForestInput: the values the forest votes on are the `float32` roundings of the row; the rounding is inside the uninterpreted `vote` and `probaPositive`.
- NLTK's tokenizer data: the constructor downloads only `punkt`. Newer NLTK releases also need `punkt_tab` for `word_tokenize`, and `clean_text` then raises LookupError. The model assumes the tokenizer data is present.
