# KYC extraction evaluation, modelled in Dafny

This project models the logic of a small KYC (Know Your Customer) demo in
which a hosted vision-language model classifies an identity document and
extracts its fields. It covers two parts.

- **The extraction-evaluation scorer** (`ObjectComparer`, run_evaluation.py).
  `compare_objects` scores an extracted field mapping against a fixed expected
  mapping. The score is the percentage of expected keys that are present in
  the extraction with a value equal after upper-casing. `track_performance`
  accumulates scores in the `performance_results` record.
  `get_performance_summary` derives the exact-match rate and the mean score.
  `run_extraction_performance_test` runs ten tracked extractions; an
  exception from one of them ends the run.
- **The document processor's state** (`KYCDocumentProcessor`, main.py). This
  covers the cached base64 image and extension, the extension check, the
  `data:image/<ext>;base64,<data>` URL sent to the model, `update_prompts`, and
  the `'` → `"` replacement applied to replies before JSON parsing.

Modules, one concern each:

- `Fields` (fields.dfy): field mappings and the `str(v).upper()` normalisation.
- `Comparer` (comparer.dfy): `compare_objects` as a total function over
  `Extracted = NotDict | Dict(map<string, string>)`.
- `Performance` (performance.dfy): the `performance_results` record as a
  value. It has one tracking step `Track`, the record after a history of
  outputs `Replay`, its invariant `Inv`, and the summary `Summary`.
- `Evaluation` (evaluation.dfy): the class `ObjectComparer`, whose methods
  update the four record fields in place. `Valid()` ties those fields to
  `Replay` of the outputs tracked so far. Also the ten-iteration driver.
- `Processor` (processor.dfy): the class `KYCDocumentProcessor` and the pure
  helpers it uses. The model call and base64 encoding are function parameters.

Percentages are Dafny `real`s, which are exact rationals.

## Model

| member | source | states |
|---|---|---|
| `Fields.Upper` | run_evaluation.py:40 | `.upper()` keeps the length and upper-cases each character on its own. |
| `Fields.UpperEqualIffEqualIgnoringCase` | run_evaluation.py:40 | Two values compare equal after upper-casing exactly when they differ at most in letter case (both directions). |
| `Comparer.KeyMatches` | run_evaluation.py:39-40 | An expected key matches exactly when it is present in the extraction and the two values are equal up to letter case. |
| `Comparer.CompareObjects` | run_evaluation.py:22-46 | The score lies in [0, 100]. A non-dict scores 0.0. An empty expected mapping scores 0. Otherwise score × \|expected\| = 100 × (number of matching expected keys). Score is 100 iff the input is a dict, expected is non-empty and every expected key matches. Score is 0 iff the input is not a dict or no expected key matches. |
| `Comparer.MatchingKeysCount` | run_evaluation.py:34-41 | The matching keys never outnumber the expected keys. All of them match iff the count equals \|expected\|. None match iff the count is 0. |
| `Comparer.SumMatches` | run_evaluation.py:37-41 | The generator sum over an order of keys is at most the number of keys. It is 0 exactly when no key in the order matches, and equals the number of keys exactly when every key matches. |
| `Comparer.SumMatchesCounts` | run_evaluation.py:37-41 | The generator sum over a repetition-free key order counts exactly the matching keys in that order. |
| `Comparer.ScoreIndependentOfOrder` | run_evaluation.py:37-44 | Every iteration order of the expected items gives the same match count and the same score. |
| `Comparer.OnlyExpectedKeysMatter` | run_evaluation.py:34-41 | Two extractions with the same expected keys present, and values equal up to case, score the same. Keys outside the expected mapping are irrelevant. |
| `Comparer.ExtraKeysIgnored` | run_evaluation.py:34-41 | Adding keys that are not expected never changes the score. |
| `Comparer.EmptyExpectedScoresZero` | run_evaluation.py:34-44 | An empty expected mapping scores 0 for any input, and no division happens. |
| `Comparer.CaseDifferenceMatches` | run_evaluation.py:40 | `{"LN":"Doe"}` against `{"LN":"DOE"}` scores 100. |
| `Comparer.MissingKeyHalves` | run_evaluation.py:39 | A missing key never matches, so one of two expected keys scores 50. |
| `Comparer.ExtraKeyStillExact` | run_evaluation.py:37-41 | An extra extracted key leaves an exact match at 100. |
| `Performance.InitialResults` | run_evaluation.py:15-20 | The fresh record has zero iterations and no percentages, and satisfies the record invariant for every expected mapping. |
| `Performance.Track` | run_evaluation.py:55-67 | One step adds exactly one iteration and appends exactly the score. The exact count grows by at most one. The partial list is unchanged or gains exactly this output. |
| `Performance.TrackClassifies` | run_evaluation.py:62-67 | The exact count grows iff the output is a dict reproducing every expected field of a non-empty expected mapping. The output is kept as partial iff it is a dict that reproduces some expected field and misses another. |
| `Performance.TrackPreservesInv` | run_evaluation.py:48-67 | One tracking step preserves the record invariant. The invariant has four parts. There is one percentage per iteration, each in [0, 100]. `exact_matches` counts the 100s. `partial_matches` has one entry per score strictly between 0 and 100. Each stored entry is a dict that scores strictly between 0 and 100. |
| `Performance.ReplayInv` | run_evaluation.py:14-67 | Every record reachable from the initial one by tracking satisfies the invariant, and its iteration count is the number of tracked outputs. |
| `Performance.ReplayPercentages` | run_evaluation.py:55-59 | The i-th recorded percentage is the score of the i-th tracked output. |
| `Performance.InvBounds` | run_evaluation.py:58-67 | Under the invariant, `exact_matches` ≤ `total_iterations`. Exact plus partial entries never exceed the iterations. Outputs scoring 0 or 100 are never kept as partial. |
| `Performance.CountExact` | run_evaluation.py:62-63 | The number of 100% results never exceeds the number of results. |
| `Performance.CountPartial` | run_evaluation.py:66-67 | Partial results plus exact results never exceed the number of results. |
| `Performance.Mean` | run_evaluation.py:78 | The mean of a non-empty list times its length is the list's sum. |
| `Performance.MeanBounds` | run_evaluation.py:78 | The mean of percentages in [0, 100] lies in [0, 100]. |
| `Performance.Summary` | run_evaluation.py:75-78 | The summary reports the iteration count. With zero iterations the exact-match rate is 0, and with no percentages the average is 0. |
| `Performance.SummaryOfInitial` | run_evaluation.py:15-20 | A fresh record summarises to (0, 0, 0). |
| `Performance.RateBounds` | run_evaluation.py:77 | With 0 < total and exact ≤ total, `exact / total * 100` lies in [0, 100], and multiplied by total it gives 100 × exact. |
| `Performance.SummaryBounds` | run_evaluation.py:75-78 | Under the invariant both rates lie in [0, 100]. With iterations, rate × total = 100 × exact and average × total = sum of percentages (the arithmetic mean). |
| `Performance.ExactRateFullIffAllExact` | run_evaluation.py:62-63 | For a run of at least one output, the exact-match rate is 100 iff every tracked output scored 100. (With no output the rate is 0.) |
| `Performance.NonDictRunRecordsZeros` | run_evaluation.py:30-31 | A run of n non-dict outputs records n zeros, no exact matches and no partial matches. |
| `Performance.NonDictRunScoresZero` | run_evaluation.py:75-78 | A run of n non-dict outputs summarises to (n, 0, 0). |
| `Performance.ScenarioScores` | run_evaluation.py:37-44 | The exact output scores 100. The output with lower-case LN and a wrong FN scores 50. |
| `Performance.FiveIterationScenario` | run_evaluation.py:55-78 | Scores 100, 50, 100, 50, 50 give 2 exact matches, 3 kept partials, a 40% exact rate and a 70% average. |
| `Evaluation.ObjectComparer.constructor` | run_evaluation.py:8-20 | Stores the expected output and starts with zero counters and empty lists. |
| `Evaluation.ObjectComparer.ResultsInv` | run_evaluation.py:48-67 | In every valid state the record invariant holds, with `total_iterations` = \|`match_percentages`\| and `exact_matches` ≤ `total_iterations`. |
| `Evaluation.ObjectComparer.TrackPerformance` | run_evaluation.py:48-67 | Increments the iteration count by one and appends exactly the score. Adds 1 to `exact_matches` iff the score is 100. Appends the output to `partial_matches` iff 0 < score < 100. Keeps the invariant. `expected_output` is a constant. |
| `Evaluation.ObjectComparer.GetPerformanceSummary` | run_evaluation.py:69-80 | Returns the summary of the tracked history. Both rates lie in [0, 100], and they are 0 with no iterations. |
| `Evaluation.RunExtractionPerformanceTest` | run_evaluation.py:83-97 | If one of the 10 extractions raises, the run aborts, reports the index of the first extraction that raised (all earlier ones returned), and produces no summary. Otherwise it produces the summary of all 10 outputs in call order, with 10 iterations and both rates in [0, 100]. |
| `Processor.Extension` | main.py:56 | The result is the longest dot-free suffix of the file name: it has no '.', and the character before it is a '.'. A name without a dot is its own extension. |
| `Processor.IsValidExtension` | main.py:59-60 | Every accepted extension is three or four characters long. |
| `Processor.ExtensionAfterDot` | main.py:56 | For any stem and any dot-free ext, the extension of `stem + "." + ext` is `ext`. |
| `Processor.ExtensionAfterLastDot` | main.py:56 | `id.tar.gif` has extension `gif`. `id.` has the empty extension. |
| `Processor.ExtensionOfDotlessName` | main.py:56-61 | The dot-free name `png` is its own extension and passes the check. |
| `Processor.ExtensionCheckIsCaseSensitive` | main.py:56-61 | `passport.png` has extension `png`, which passes the check. `scan.PNG` has extension `PNG`, which is rejected. |
| `Processor.ValidExtensionsAreLowerCaseLetters` | main.py:59 | Every accepted extension consists of lower-case ASCII letters only, so none contains ';' or '.'. |
| `Processor.Truthy` | main.py:43 | A cached encoding is truthy exactly when it is neither None nor the empty string. |
| `Processor.Render` | main.py:89 | An f-string renders a present value as itself and None as `None`. |
| `Processor.ImageUrl` | main.py:89 | The URL starts with `data:image/`, continues with the extension, then `;base64,`, and ends with the base64 data. Its length is the sum of the parts. |
| `Processor.ImageUrlRoundTrip` | main.py:89 | For any extension without ';', parsing the URL gives back exactly the extension and the data. |
| `Processor.NormaliseQuotes` | main.py:147 | Same length, no `'` left, each `'` becomes `"`, and every other character is kept. |
| `Processor.KYCDocumentProcessor.constructor` | main.py:15-31 | Stores the model and the prompts unchanged. Starts with no cached encoding and no extension. |
| `Processor.KYCDocumentProcessor.ProcessDocument` | main.py:33-102 | With no upload and no usable cached encoding, raises before any model call and changes nothing. An upload always replaces the cached encoding. A rejected extension raises and keeps the old `ext`. An accepted one is stored. Without an upload, the cache is reused unchanged. Any returned value is the model's reply (None on failure) to the request built from the model, system prompt, user prompt and `data:` URL of the cache. |
| `Processor.KYCDocumentProcessor.UpdatePrompts` | main.py:104-109 | Replaces the response pattern and system prompt. The model, cached encoding and extension are unchanged. |
| `Processor.RejectedUploadKeepsOldExtension` | main.py:43-89 | After a valid `.png` upload, a `.PNG` upload raises. When the rejected file's encoding is non-empty, the next call without an upload sends the rejected file's data labelled `png`. |
| `Processor.RejectedFirstUploadSendsNoneExtension` | main.py:29-89 | On a fresh processor whose first upload is rejected, when that file's encoding is non-empty, a call without an upload sends a URL with extension `None`. |
| `Processor.RejectedEmptyUploadThenRaises` | main.py:43-61 | When the rejected file's encoding is empty, the cached `""` is falsy, so the next call without an upload raises `ValueError` instead of sending a URL. |
| `Processor.NoImageRaises` | main.py:43-44 | A fresh processor called without an upload raises `ValueError`. |

## Left out

- Streamlit UI is not modelled: page navigation, uploader widgets, image display and gauge charts (main.py:112-185, run_evaluation.py:123-175, evaluation_results.py). It is presentation only.
- The 5 MB size check is not modelled. It only shows an error, and processing continues.
- The Fireworks chat-completion call is a parameter `complete: ChatRequest -> Option<string>`. None stands for any exception it raises. The `print` in the handler is not modelled.
- Base64 encoding is a parameter `b64encode`. Reading the upload's bytes is the `content` field of `Upload`.
- `main()` is not modelled beyond the quote replacement. That includes `json.loads`, the branch on `document_type`, and the crash when a failed call's `None` reaches `.replace`.
- `simulate_extraction` and `rotate_image` are not modelled. As written they pass a `rotated_image` argument that `process_document` does not accept, and `rotate_image` is not defined in main.py. The driver instead takes the extraction's outputs as a parameter `extract(i)`.
- Python's `ObjectComparer` keeps references to the caller's objects: `expected_output` (run_evaluation.py:14) and each output appended to `partial_matches` (run_evaluation.py:67). The model holds values instead. Nothing in the driver mutates those objects afterwards, so no behaviour is lost; aliasing is not modelled.
- The driver runs exactly 10 iterations (run_evaluation.py:89) and has no retry.
- `Evaluation.RunExtractionPerformanceTest` returns its outcome, the summary or the abort, where the source prints the summary (run_evaluation.py:98) and returns None. An abort stands for the exception that propagates out of the source's loop. Which exception was raised is not modelled.
- `Evaluation.ObjectComparer.GetPerformanceSummary` omits `match_percentage_std_dev`. `np.std` needs a square root in floating point.
- `Comparer.CompareObjects` uses exact rationals, not Python floats. With an empty expected mapping, Python returns the int `0` where the model returns `0.0`; the two compare equal.
- `Fields.Upper` upper-cases ASCII letters only. Python's `str.upper` also maps other Unicode letters and can change a string's length (`ß` → `SS`).
- Field values are strings here. The `str(...)` applied to non-string values (numbers, None, nested objects) is not modelled.
- `KYCDocumentProcessor.response_pattern` is held as text. The class only stores it; callers interpolate it into prompts.
- An uploaded file is always truthy, so "an upload was given" is `Some`. The cached encoding is falsy when it is None or the empty string, as in Python.
