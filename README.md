# Singlish-to-Sinhala acceptance suite — a verified model

The repository holds one Playwright script, `tests/singlish-to-sinhala.spec.js`. It runs three kinds of browser test against a Singlish-to-Sinhala transliteration site:

- 24 positive cases that must produce Sinhala;
- 10 negative cases where failure is the expected outcome;
- one real-time case that types a phrase one character at a time.

Once the page has loaded, every test body appends one 12-field record to a shared list. After the last test the script writes that list as CSV and prints a verdict summary and a requirement check.

This project models the decision and serialisation logic of that script and proves what it promises. The browser is abstracted as a `Page`:

- `count(selector)` is the number of matches for a selector;
- `text(selector)` is the text of the first match;
- `body` is the text of the whole page.

The modules, in dependency order:

- `Wrappers`: `Option`.
- `Strings`:
  - the Sinhala block U+0D80–U+0DFF and JavaScript white space;
  - `trim`, `substring(0, n)`, `startsWith`;
  - the decimal form of a number.
- `Records`:
  - the verdicts `Pass`/`Fail`/`Partial`/`Error`;
  - the fixed 12-key record, its key order (`Object.keys`), lookup by key (`row[header]`) and `'' + value`.
- `Csv`: `convertToCSV` as a loop (`ConvertToCsv`), specified by `CsvText`.
- `CsvReader`: a quote-aware reader. It serves as the inverse that proves the emitted text parses back to the header row and the stringified values.
- `Locator`: the selector fallback loops.
  - `LocateFirst` and `FirstMatch` pick the first selector with a match.
  - `ScanOutputs` and `Scan` read outputs until a text is non-empty or non-blank.
- `SinhalaRun`: the page-body fallback `/[S][S\s,.!?]*[S]/`, as the leftmost-longest match.
- `Classifier`: the positive, negative and real-time verdicts, and the update counter as a fold.
- `Runner`:
  - the three test bodies and the records they push;
  - `ResultLog`, the shared result list, as a class;
  - the suite run in declaration order.
- `Report`: the `afterAll` hook, covering the CSV text, the per-verdict summary and the 24/10/1 requirement check.

A driver exception is a parameter `fault: Option<string>` of each run. The record it produces is the one the `catch` block pushes. A positive or negative run carries two page states: the freshly loaded page, on which the input field is looked for, and the page after typing and the settle delay, from which the output is read. The failed input-field search raises "Input field not found" and is modelled from the loaded page.

## Model

| member | source | states |
|---|---|---|
| Strings.Trim | tests/singlish-to-sinhala.spec.js:176 | the trimmed text has no white space at either end; it is empty exactly when the input is all white space |
| Strings.TrimOf | tests/singlish-to-sinhala.spec.js:176 | white space, then a text with no white space at its ends, then white space, trims to exactly that text |
| Strings.TrimSlice | tests/singlish-to-sinhala.spec.js:176 | the trimmed text is a contiguous piece of the input with only white space dropped on both sides |
| Strings.TrimIdempotent | tests/singlish-to-sinhala.spec.js:176 | trimming twice equals trimming once |
| Strings.SinhalaCount | tests/singlish-to-sinhala.spec.js:295 | the count of `/[\u0D80-\u0DFF]/g` matches is at most the length; it is 0 iff the text has no Sinhala character, and it equals the length iff every character is Sinhala; `SinhalaCountOne` and `SinhalaCountAppend` fix its value as one per Sinhala character |
| Strings.SinhalaCountOne | tests/singlish-to-sinhala.spec.js:295 | a one-character text counts 1 iff that character is in the Sinhala block, else 0 |
| Strings.SinhalaCountAppend | tests/singlish-to-sinhala.spec.js:295 | the count of a concatenation is the sum of the counts, so the count is the number of Sinhala characters |
| Strings.Take | tests/singlish-to-sinhala.spec.js:304 | `substring(0, n)` is a prefix of at most n characters |
| Strings.NatToString | tests/singlish-to-sinhala.spec.js:419 | the decimal form of a count is non-empty digits with no leading zero |
| Strings.NatToStringRoundTrip | tests/singlish-to-sinhala.spec.js:419 | reading the decimal form back gives the number |
| Records.Entries | tests/singlish-to-sinhala.spec.js:195-208 | a record lists exactly the 12 keys, in the order the push sites write them |
| Records.StringifyValue | tests/singlish-to-sinhala.spec.js:74 | `'' + value` writes a missing property as "undefined" and a string as itself; a number becomes decimal digits that read back as that number |
| Records.KeysUniform | tests/singlish-to-sinhala.spec.js:63 | every record has the same key list, so the header taken from the first record is valid for every row |
| Records.HeadersDistinct | tests/singlish-to-sinhala.spec.js:195-208 | the 12 keys are pairwise distinct |
| Records.GetHeader | tests/singlish-to-sinhala.spec.js:72 | looking up a header in a record gives that record's value for the key |
| Records.FindFirst | tests/singlish-to-sinhala.spec.js:72 | `row[key]` finds a value iff some property has that key, and the value found is that of the first such property |
| Records.CellsAreValues | tests/singlish-to-sinhala.spec.js:72-74 | the stringified cells of a row are its 12 field values, in header order |
| Csv.ConvertToCsv | tests/singlish-to-sinhala.spec.js:60-81 | the loop that pushes one line per record and joins them with LF returns `CsvText(data)` |
| Csv.JoinSnoc | tests/singlish-to-sinhala.spec.js:67-80 | `join` puts exactly one separator between neighbouring parts: joining one more part appends the separator and that part |
| Csv.DoubleQuotes | tests/singlish-to-sinhala.spec.js:74 | escaping never shortens a text |
| Csv.DoubleQuotesGrowth | tests/singlish-to-sinhala.spec.js:74 | escaping adds exactly one character per `"` in the value, and leaves a value without quotes unchanged |
| Csv.QuoteField | tests/singlish-to-sinhala.spec.js:74-75 | an emitted field starts and ends with a quote and is at least 2 longer than the value |
| Csv.CsvLines | tests/singlish-to-sinhala.spec.js:61-80 | a non-empty list gives 1 + `data.length` lines |
| Csv.DataLines | tests/singlish-to-sinhala.spec.js:70-78 | there is one data line per record |
| Csv.DataLinesSnoc | tests/singlish-to-sinhala.spec.js:70-78 | appending a record appends exactly its line |
| Csv.RowFieldsMatchHeaders | tests/singlish-to-sinhala.spec.js:70-77 | every data row has exactly one quoted field per header key, holding that record's cell |
| CsvReader.QuotedRoundTrip | tests/singlish-to-sinhala.spec.js:74-75 | reading a quoted field undoes the quote doubling and gives back the original value and the remaining text |
| CsvReader.FieldRoundTrip | tests/singlish-to-sinhala.spec.js:67-75 | a quoted value, or an unquoted header name, reads back as itself |
| CsvReader.RecordRoundTrip | tests/singlish-to-sinhala.spec.js:71-77 | a comma-joined line of encoded fields reads back as the field list |
| CsvReader.LinesRoundTrip | tests/singlish-to-sinhala.spec.js:80 | LF-joined lines read back as the list of rows |
| CsvReader.HeadersPlain | tests/singlish-to-sinhala.spec.js:67 | no header name is empty, starts with a quote, or holds a comma or a line feed, so the unquoted header line is unambiguous |
| CsvReader.EmittedEncodesTable | tests/singlish-to-sinhala.spec.js:63-78 | line 0 encodes the header names and line i encodes the cells of record i |
| CsvReader.CsvRoundTrip | tests/singlish-to-sinhala.spec.js:60-81 | the empty list gives "", which reads as no rows; otherwise the CSV reads back as the header row followed by each record's stringified values |
| Locator.FirstMatch | tests/singlish-to-sinhala.spec.js:122-132 | the chosen selector matches and every earlier one has count 0; there is none iff every count is 0, the case that raises "Input field not found" |
| Locator.LocateFirst | tests/singlish-to-sinhala.spec.js:122-128 | the loop with `break` returns `FirstMatch` |
| Locator.ScanOutputs | tests/singlish-to-sinhala.spec.js:155-163 | the output loop returns `Scan`, the text of the first selector whose text the break rule accepts, or else the last text read |
| Locator.ScanFindsFirst | tests/singlish-to-sinhala.spec.js:155-163 | when selector j is the first whose text is accepted, the loop ends with that text |
| Locator.ScanFindsNone | tests/singlish-to-sinhala.spec.js:276-281 | when no selector's text is accepted, neither is the loop's result |
| Locator.ScanAccepted | tests/singlish-to-sinhala.spec.js:155-163 | the loop's result is accepted iff some selector yields an accepted text |
| Locator.ScanSource | tests/singlish-to-sinhala.spec.js:155-163 | an output loop returns "" or the text of a selector that matches; it never produces any other text |
| Locator.ScanNonEmptyCases | tests/singlish-to-sinhala.spec.js:276-281 | with the non-empty rule, the loop returns the text of the first selector whose text is non-empty, or "" when there is none |
| SinhalaRun.MatchEnd | tests/singlish-to-sinhala.spec.js:168-169 | from a start position the greedy match has the longest possible end, or no match starts there |
| SinhalaRun.RunBounds | tests/singlish-to-sinhala.spec.js:168-169 | the match found starts at the leftmost position where any match starts and is the longest from there; there is none iff no match exists anywhere |
| SinhalaRun.FirstSinhalaRunSpec | tests/singlish-to-sinhala.spec.js:167-172 | `body.match(regex)` is null iff the pattern matches nowhere; otherwise its text is the leftmost piece of the body the pattern matches, and the longest one at that start |
| SinhalaRun.FirstSinhalaRunShape | tests/singlish-to-sinhala.spec.js:166-173 | a fallback match has at least 2 characters, starts and ends with Sinhala, contains Sinhala, and is unchanged by trim |
| Classifier.ClassifyPositive | tests/singlish-to-sinhala.spec.js:176-192 | Pass iff the trimmed output contains a Sinhala character, and then with "Correct Sinhala output generated"; an empty output fails with "No output produced"; any other output fails with "Output does not contain Sinhala characters" |
| Classifier.ClassifyNegative | tests/singlish-to-sinhala.spec.js:284-306 | empty output, an echo of the input, or fewer than 2 characters gives Pass with "System failed as expected (good)"; otherwise Pass iff `10·count < 3·length`, with "System produced minimal/non-Sinhala output as expected"; a Fail shows at most 30 characters |
| Classifier.RatioBelow | tests/singlish-to-sinhala.spec.js:297-299 | for a non-empty text, `count / length < 0.3` on exact reals iff `10·count < 3·length` |
| Classifier.NegativeRatio | tests/singlish-to-sinhala.spec.js:293-305 | outside the short cut the verdict is Pass iff the exact ratio is strictly below 0.3, so a ratio of exactly 0.3 fails |
| Classifier.TrimmedEchoMissesShortCut | tests/singlish-to-sinhala.spec.js:284-301 | an input with white space at an end is never matched by its trimmed echo; without Sinhala it still passes, with the ratio comment |
| Classifier.ObserveStep | tests/singlish-to-sinhala.spec.js:398-401 | one observation adds at most one update, and adds one iff the output is non-empty and differs from the last one counted, which it then becomes; otherwise nothing changes |
| Classifier.TrackCountsRuns | tests/singlish-to-sinhala.spec.js:395-401 | the counter equals the number of runs of equal values among the non-empty outputs, and `previousOutput` ends as the last non-empty output |
| Classifier.UpdatesBounded | tests/singlish-to-sinhala.spec.js:380-401 | the counter never exceeds the number of non-empty observations, nor the number of observations |
| Classifier.ClassifyUi | tests/singlish-to-sinhala.spec.js:417-426 | Pass iff at least 2 updates, with a comment quoting the count; else Partial iff the trimmed final output is non-empty, with "Output generated but limited real-time updates detected"; else Fail, with "No real-time updates detected" |
| Runner.ResultLog.Push | tests/singlish-to-sinhala.spec.js:195 | one record is appended and the earlier ones are kept |
| Runner.PositiveResult | tests/singlish-to-sinhala.spec.js:104-231 | every field of the pushed record: the case's id, description, input, expected text, domain, grammar and length class, the elapsed time and "Accuracy validation"; Error iff the driver failed or no input field exists on the loaded page, with "ERROR" as output and "Test error: " plus the exception message or "Input field not found" as comment; otherwise the verdict and comment of the trimmed output, recorded as that output or "(Empty)"; never Partial |
| Runner.RunPositive | tests/singlish-to-sinhala.spec.js:104-231 | the test body appends exactly `PositiveResult(run)` to the log |
| Runner.PositiveIgnoresExpected | tests/singlish-to-sinhala.spec.js:176-208 | changing a case's expected output changes neither its verdict, its comment nor its actual output |
| Runner.PositivePassHasOutput | tests/singlish-to-sinhala.spec.js:210-213 | a Pass record carries a non-empty Sinhala output, so the assertion after the push always holds and no second record is pushed |
| Runner.PositiveOutputCases | tests/singlish-to-sinhala.spec.js:155-176 | the output is the trimmed selector text when it is not blank; else the page's Sinhala run; else "" |
| Runner.OutputsTrimmed | tests/singlish-to-sinhala.spec.js:176 | the positive and negative outputs and every real-time observation are trimmed: `trim` leaves them unchanged |
| Runner.PositiveFallbackPasses | tests/singlish-to-sinhala.spec.js:165-192 | when no selector gives a non-blank text but the page holds a Sinhala run, the case passes with that run as its output |
| Runner.PositiveNothingFails | tests/singlish-to-sinhala.spec.js:155-200 | with no readable output anywhere, the case fails with "No output produced" and shows "(Empty)" |
| Runner.PositiveClassifiesTypedPage | tests/singlish-to-sinhala.spec.js:122-192 | once the input field is found on the loaded page, the verdict and comment are those of the output read from the page after typing, whatever the input selectors match there |
| Runner.NegativeResult | tests/singlish-to-sinhala.spec.js:235-340 | every field of the pushed record: the case's id, description, input, domain, grammar and length class, the elapsed time, "Should fail or produce incorrect output" and "Robustness validation"; only Pass or Fail; a driver failure or a missing input field on the loaded page is a Pass with "ERROR" and "Execution error (expected): " plus the message; otherwise the negative verdict and comment of the trimmed output, recorded as that output or "(No output)" |
| Runner.NegativeOutputCases | tests/singlish-to-sinhala.spec.js:276-284 | the negative output is the trimmed text of the first output selector whose text is non-empty, or "" when there is none |
| Runner.RunNegative | tests/singlish-to-sinhala.spec.js:235-340 | the test body appends exactly `NegativeResult(run)` |
| Runner.NegativeEchoPasses | tests/singlish-to-sinhala.spec.js:284-292 | an output that echoes the input passes with "System failed as expected (good)" |
| Runner.NegativeSilencePasses | tests/singlish-to-sinhala.spec.js:276-314 | when no output selector yields text, the case passes and shows "(No output)" |
| Runner.NegativeClassifiesTypedPage | tests/singlish-to-sinhala.spec.js:250-306 | once the input field is found on the loaded page, the verdict and comment are those of the output read from the page after typing |
| Runner.UiObservations | tests/singlish-to-sinhala.spec.js:380-395 | there is one trimmed observation per typed prefix of the 20-character phrase |
| Runner.UiObservationCases | tests/singlish-to-sinhala.spec.js:386-395 | an observation is the trimmed text of the first output selector whose text is non-empty, or "" when there is none |
| Runner.UiFinalAgainstObservation | tests/singlish-to-sinhala.spec.js:406-412 | the final read is "" when no output selector matches; when the first match has text, the observation of the same page is that text trimmed |
| Runner.TypeAndObserve | tests/singlish-to-sinhala.spec.js:375-402 | the typing loop ends with the counter and last output given by the `Track` fold over the observations |
| Runner.UiResult | tests/singlish-to-sinhala.spec.js:344-459 | every field of the pushed record: id "Pos_UI_0001", the phrase as input, the fixed description, expected text, domain, grammar, length class and quality focus, and the elapsed time; Error iff the driver failed or no input field exists on the initial page, with "ERROR" and "UI test error: " plus the message; otherwise the real-time verdict and comment of the update count and the final read, recorded as that read or "(UI behavior test)" |
| Runner.RunUi | tests/singlish-to-sinhala.spec.js:344-459 | the test body appends exactly `UiResult(run)` |
| Runner.UiUpdatesBounded | tests/singlish-to-sinhala.spec.js:380-402 | at most 20 updates, one per typed prefix |
| Runner.UiVerdict | tests/singlish-to-sinhala.spec.js:398-426 | a completed run passes iff the outputs changed at least twice; else it is Partial iff the final output is not blank; else it is Fail |
| Runner.PositiveRecordsAt | tests/singlish-to-sinhala.spec.js:104-105 | the i-th positive record is the result of the i-th positive case |
| Runner.NegativeRecordsAt | tests/singlish-to-sinhala.spec.js:235-236 | the i-th negative record is the result of the i-th negative case |
| Runner.RunPositives | tests/singlish-to-sinhala.spec.js:104-232 | the positive tests append their records in corpus order |
| Runner.RunNegatives | tests/singlish-to-sinhala.spec.js:235-341 | the negative tests append their records in corpus order |
| Runner.RunSuite | tests/singlish-to-sinhala.spec.js:90-460 | a run of the whole file appends the positive records, then the negative ones, then the real-time record |
| Report.CountStatusAppend | tests/singlish-to-sinhala.spec.js:480-483 | a verdict count over two lists is the sum of the counts |
| Report.CountPrefixAppend | tests/singlish-to-sinhala.spec.js:492-494 | an id-prefix count over two lists is the sum of the counts |
| Report.StatusPartition | tests/singlish-to-sinhala.spec.js:478-484 | every record has one of the four verdicts, so Pass + Fail + Partial + Error equals Total |
| Report.CountStatus | tests/singlish-to-sinhala.spec.js:480-483 | a verdict count never exceeds the number of records |
| Report.CountPrefix | tests/singlish-to-sinhala.spec.js:492-494 | an id-prefix count never exceeds the number of records; `CountPrefixOne` and `CountPrefixMultiplicity` fix its value |
| Report.CountPrefixOne | tests/singlish-to-sinhala.spec.js:492-494 | one record counts 1 iff its id starts with the prefix, else 0 |
| Report.CountPrefixMultiplicity | tests/singlish-to-sinhala.spec.js:492-494 | an id-prefix count is the number of `true` results of `startsWith` over the id column |
| Report.Summarize | tests/singlish-to-sinhala.spec.js:478-484 | the summary holds the number of records and, for each verdict, its multiplicity in the verdict column; the four counts add up to the total |
| Report.PrefixCountsDisjoint | tests/singlish-to-sinhala.spec.js:492-494 | no record is counted under two of the prefixes `Pos_Fun`, `Neg_Fun`, `Pos_UI`, so the three counts add up to at most the number of records |
| Report.RequirementsNeedRecords | tests/singlish-to-sinhala.spec.js:492-501 | meeting the requirements takes at least 24 + 10 + 1 = 35 records |
| Report.CountStatusMultiplicity | tests/singlish-to-sinhala.spec.js:480-483 | a verdict count is that verdict's multiplicity in the verdict column |
| Report.NegativeNeverError | tests/singlish-to-sinhala.spec.js:324-338 | the negative records contribute nothing to the Error count |
| Report.SuiteMeetsRequirements | tests/singlish-to-sinhala.spec.js:491-501 | with at least 24 `Pos_Fun` cases and 10 `Neg_Fun` cases, a suite run meets the 24/10/1 requirement, whatever the verdicts |
| Report.AfterAll | tests/singlish-to-sinhala.spec.js:463-505 | the hook computes the CSV text of the log and `Summarize` of the log, whose four counts are the per-verdict counts and add up to the total; "requirements met" iff the three id-prefix counts reach 24, 10 and 1 |

## Left out

- Browser operations are not modelled: navigation, waiting, `clear`, `fill` and the Playwright locators themselves. Each run instead receives the page states it would observe as values.
- `Date.now()` is not modelled. The execution time is an opaque number carried into the record.
- Writing the CSV and JSON files is left out, as are `JSON.stringify` and every `console.log`. `AfterAll` returns the CSV text and the counts instead.
- Playwright `expect` is left out. `Runner.PositivePassHasOutput` proves the only assertion can never fail.
- The corpus contents are data, not logic. Only the id prefixes matter, and `Report.SuiteMeetsRequirements` takes them as a precondition.
- Concurrent workers are left out. Tests of a single file run one after another in one worker, which is the order `Runner.RunSuite` models.
- A driver exception inside a test body is folded into one `fault` parameter, checked before the input-field search. Wherever in the `try` block the exception happens, the source pushes the same catch record, differing only in the message and the elapsed time.
- Runner.RunSuite and Report.SuiteMeetsRequirements assume that every test gets past `beforeEach` and finishes within Playwright's time limit. A failed `goto` or `waitForLoadState` in `beforeEach` (tests/singlish-to-sinhala.spec.js:96-101) happens outside the `try`, and so does a test timeout. Such a test fails without pushing a record. Playwright then restarts the worker, whose fresh module state starts a new, empty `allTestResults`, and `afterAll` runs once per worker over its own list. The model has no navigation step and no worker restart, so it does not capture these runs.
- A `textContent` of `null` is read as "". The source treats `null` and "" alike at every use.
  - Exception: a `null` page body would make the regex fallback throw a `TypeError`, which would produce an Error record. That case is not modelled.
- Classifier.ClassifyNegative, Classifier.MostlyNonSinhala and Strings.Take: strings are sequences of Unicode code points, but JavaScript `length` and `substring` count UTF-16 units. A character outside the Basic Multilingual Plane (an emoji, say) is one code point but two units. The fixed texts (Latin, Sinhala, `≤`) are all inside the plane, but page output is not controlled. For an output that holds such characters the model differs from the source in three places:
  - The `length < 2` short cut: a lone emoji has length 2 in the source, which misses the short cut and reaches the ratio test. The model takes the short cut instead, with the other Pass comment.
  - The 0.3 ratio: the source divides by the number of units. For "අ😀😀" that is 1/5, a Pass, where the model's 1/3 is a Fail.
  - The Fail preview `substring(0, 30)` keeps 30 units in the source, which can split a surrogate pair, where the model keeps 30 code points.
- Runner.NegativeResult and Classifier.ClassifyNegative: the 0.3 threshold is checked by exact integer cross-multiplication, not double-precision division. `Classifier.NegativeRatio` proves this equals the exact real comparison. Rounding of the double quotient is not modelled.
- The JSON backup file and the printed "Files created" list are not modelled, because they are output only.
