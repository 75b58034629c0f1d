# Employee monitoring backend — a Dafny model of its core

The backend samples a webcam and decides for each sample whether the employee is present
and, if so, which emotion they show and with what confidence. It stores each sample as a
row of the `detection_logs` table. It serves the rows back newest first and aggregates a
time window into analytics: total detections, presence percentage, emotion distribution and
estimated working hours. It also exports the same window as a CSV or a PDF report.

The model covers the decision logic and the data handling:

- `FaceAnalyzer` — the emotion stabiliser `FEREmotionDetector`. It keeps a five-reading
  FIFO of classifier readings, holds a majority vote, applies a hysteresis rule and has a
  timed random fallback. A class whose fields the methods update in place.
- `BasicDetector` — the brightness/contrast stabiliser `_detect_emotion_basic` of
  `EnhancedEmotionDetector`, with its lazily created attributes. A class. Its error
  handler forgets one attribute; the as-written call and the corrected one are both
  modelled, and the class follows the corrected one (see "## Findings").
- `Sampler` — what one frame contributes: `detect_face_and_emotion`, `get_frame`, the demo
  generator and the mock detector of the simple server.
- `DetectionLog` — storing a sample (`create_detection`) and the detections query. The
  query filters by employee and optional date bounds, orders newest first and applies a
  limit; a date that does not parse gives a 400.
- `Analytics` — `get_analytics` of both servers, on values plus two loop methods.
- `Export` — the CSV and PDF exports:
  - each export's analytics block;
  - the CSV detection-log lines;
  - the most frequent emotion;
  - the emotion table sorted by count, with percentages;
  - the 20-row PDF log;
  - the PDF's 404 on an empty window.
- `Ordering` and `Tally` — Python's first-maximum `max(key=)`, stable descending
  `sorted`, slicing, and the insertion-ordered counting dict `d[k] = d.get(k, 0) + 1`.

Inputs the model does not compute:

- Time is a parameter, in seconds: a `real` for the detectors, a whole `int` for stored rows.
- Random draws are parameters in [0, 1). `random.uniform(a, b)` is `a + (b - a) * u`.
  `random.choices` picks the first label whose cumulative weight exceeds the draw.
  `random.choice` is an index.
- The camera, the cascade face detector, the external emotion classifier and the JPEG
  encoder are outcomes passed in, never computed.

Two readings of the code that the model makes explicit:

- `get_frame` sends a run without the vision libraries to `_get_demo_frame`, announced as
  generating a demo frame with a mock detection (backend/main.py:273, 297-298). As written,
  that generator can never produce a frame; see "## Findings". `Sampler.GetFrame` models
  the demo frame the code announces, and `Sampler.GetFrameAsWritten` models the code.
- The analytics count an emotion under `if d.emotion and d.is_present`
  (backend/main.py:551-553). That is Python truthiness: an empty emotion string is not
  counted. Both reports write `N/A` for an empty or missing emotion and for a confidence
  that is missing or 0 (backend/export_routes.py:47-48, 180-181).

## Model

| member | source | states |
|---|---|---|
| Ordering.ArgMax | backend/face_analyzer.py:49 | the index `max(key=)` picks has a maximal key, and every earlier element has a strictly smaller key (the first maximum) |
| Ordering.InsertDesc | backend/export_routes.py:142-143 | inserting into a non-increasing sequence keeps it non-increasing and adds exactly the one element |
| Ordering.SortDesc | backend/export_routes.py:142-143 | `sorted(..., reverse=True)` by an integer key yields non-increasing keys and a permutation of the input |
| Ordering.InsertDescSplit | backend/export_routes.py:142-143 | inserting an element places it after exactly the elements with a strictly larger key, keeping the rest in order |
| Ordering.StableInsert | backend/export_routes.py:142-143 | inserting the next input element that way keeps every pair of equal keys in input order |
| Ordering.SortDescStable | backend/export_routes.py:142-143 | `sorted` is stable: two elements with equal keys appear in the result in their input order, so equal counts keep their dict order |
| Ordering.Take | backend/export_routes.py:177 | a slice `s[:n]` has `min(n, len)` elements, each the element at the same index of `s` |
| Ordering.TakePrefix | backend/main.py:501-503 | a prefix of a newest-first sequence is still newest first and takes nothing the sequence lacks |
| Ordering.TopN | backend/main.py:501-503 | any element a limit leaves out has a key no greater than every element it keeps |
| Tally.Get | backend/face_analyzer.py:63 | a positive `get(k, 0)` comes from an entry for `k` with that count |
| Tally.GetEntry | backend/face_analyzer.py:63 | with distinct keys, `get` returns the count stored in the key's own entry |
| Tally.Bump | backend/face_analyzer.py:63 | `d[k] = d.get(k, 0) + 1` keeps existing keys in place, leaves other entries unchanged, and appends `(k, 1)` when it adds an entry |
| Tally.BumpGet | backend/face_analyzer.py:63 | bumping adds one to the bumped key's count and nothing to any other key |
| Tally.BumpSum | backend/export_routes.py:140 | bumping raises the sum of the counts by exactly one |
| Tally.BumpDistinct | backend/main.py:553 | bumping never creates a second entry for a key, and it grows the dict exactly when the key was new |
| Tally.Histogram | backend/face_analyzer.py:61-63 | the dict built from a list has distinct keys; each key's count is its number of occurrences; the counts sum to the list's length; every key comes from the list |
| Tally.BumpKeepsOrder | backend/face_analyzer.py:63 | bumping the next label of a list keeps the dict's keys in order of first appearance |
| Tally.HistogramOrder | backend/face_analyzer.py:61-63 | the dict built from a list holds its keys in insertion order: wherever a later key occurs in the list, every earlier key has occurred before it |
| Tally.TallyEntriesPositive | backend/main.py:550-553 | no key of a built dict has a zero count |
| Tally.TwoLabelsBound | backend/face_analyzer.py:73 | two different labels together occur at most as often as the list is long |
| FaceAnalyzer.Dominant | backend/face_analyzer.py:49-50 | the reading is the first label of maximal score, with that score scaled by 100 |
| FaceAnalyzer.Push | backend/face_analyzer.py:55-57 | the new reading is appended; the oldest reading is dropped only when the buffer already held five; the buffer never exceeds five |
| FaceAnalyzer.Best | backend/face_analyzer.py:61-65 | the vote: the first-appearing label of maximal count, with its count |
| FaceAnalyzer.WinnerMean | backend/face_analyzer.py:66 | the mean confidence of the vote winner's buffered readings |
| FaceAnalyzer.Classify | backend/face_analyzer.py:54-82 | the classifier path: buffer the reading, vote once three are buffered, commit on a three-vote winner that differs, outside the two-second dwell, with mean confidence above 60 |
| FaceAnalyzer.Fallback | backend/face_analyzer.py:90-104 | the fallback: after more than ten seconds redraw the label by weight and the confidence in [70, 85]; otherwise keep everything |
| FaceAnalyzer.Observe | backend/face_analyzer.py:28-88 | one `detect_emotion` call: count the frame, act on every third frame only, classify when a reading exists, fall back otherwise |
| FaceAnalyzer.BestIsMajority | backend/face_analyzer.py:61-65 | the vote winner is a buffered label whose recorded count is its true number of readings, and no label has more |
| FaceAnalyzer.MatchingCount | backend/face_analyzer.py:66 | the confidences averaged for a label are exactly one per buffered reading of that label |
| FaceAnalyzer.WeightedPick | backend/face_analyzer.py:97-99 | the fallback label is the one whose cumulative weight interval (0.3, 0.4, 0.2, 0.1) contains the draw |
| FaceAnalyzer.ClassifyBuffers | backend/face_analyzer.py:55-60 | with fewer than three buffered readings a classified frame only buffers its reading |
| FaceAnalyzer.ThrottledCallOnlyCounts | backend/face_analyzer.py:30-34 | every call counts the frame; a call off the every-third-frame stride changes nothing else |
| FaceAnalyzer.BufferStaysBounded | backend/face_analyzer.py:36-88 | the buffer never exceeds five; only the classifier path changes it, by pushing the new reading |
| FaceAnalyzer.MajorityIsBest | backend/face_analyzer.py:61-73 | a label with three of at most five buffered readings is the one the vote picks |
| FaceAnalyzer.ClassifierCommitRule | backend/face_analyzer.py:59-82 | on the classifier path the emotion changes iff at least three readings are buffered, the winner differs, has three votes, more than two seconds have passed and its mean confidence exceeds 60; a change takes the winner, its mean and the current time; otherwise emotion, confidence and change time stay |
| FaceAnalyzer.NoMajorityNoChange | backend/face_analyzer.py:72-75 | without a label holding three votes a classifying call keeps emotion, confidence and change time |
| FaceAnalyzer.ConvergesToMajority | backend/face_analyzer.py:59-79 | three buffered readings of one label with mean confidence above 60, outside the two-second dwell, make that label the current emotion |
| FaceAnalyzer.NoChangeWithinDwell | backend/face_analyzer.py:70-96 | within two seconds of the last change no call, on any path, changes emotion, confidence or change time |
| FaceAnalyzer.FallbackRule | backend/face_analyzer.py:83-104 | the fallback never touches the buffer; after more than ten seconds it draws one of the four fallback labels with confidence in [70, 85] and the current time; before that it changes nothing |
| FaceAnalyzer.FerEmotionDetector.constructor | backend/face_analyzer.py:8-13 | a new detector is neutral at 85 %, changed at construction time, with an empty buffer and no frames seen |
| FaceAnalyzer.FerEmotionDetector.DetectEmotion | backend/face_analyzer.py:28-88 | the new fields are the single-call state transition of the stride, vote and fallback rules, and the returned pair is the new current emotion and confidence |
| FaceAnalyzer.FerEmotionDetector.Vote | backend/face_analyzer.py:54-82 | the classifier branch buffers the reading and commits per the hysteresis rule; it returns the current emotion and confidence |
| FaceAnalyzer.FerEmotionDetector.FallbackEmotion | backend/face_analyzer.py:90-104 | the fields become the fallback transition and the returned pair is the current emotion and confidence |
| FaceAnalyzer.HoldVote | backend/face_analyzer.py:61-66 | the vote returns the first-appearing label of maximal count with its count, and the mean confidence of exactly that label's readings |
| FaceAnalyzer.CountVotes | backend/face_analyzer.py:61-63 | the counting loop gives every label its number of buffered readings |
| FaceAnalyzer.MeanConfidenceOf | backend/face_analyzer.py:66 | the loop computes the mean of the label's buffered confidences |
| BasicDetector.Uniform | backend/main.py:191 | `random.uniform(lo, hi)` lies in [lo, hi] |
| BasicDetector.Target | backend/main.py:189-203 | the target emotion and its drawn confidence: happy, sad, surprise or neutral by the brightness and contrast thresholds, each with its `uniform` range; otherwise the current emotion at `max(75, confidence - 2)` |
| BasicDetector.Clamp | backend/main.py:215 | `max(75, min(95, x))` lies in [75, 95] and is `x` inside that band |
| BasicDetector.Decide | backend/main.py:205-215 | after the hold: switch to the target with its confidence and the current time when the target differs, is above 80 and the coin is above 0.3; otherwise nudge the confidence and clamp it |
| BasicDetector.Advance | backend/main.py:170-215 | a readable crop: create the attributes on first use, hold while no change time exists or for two seconds, decide afterwards |
| BasicDetector.StepAsWritten | backend/main.py:168-224 | one call as written: the error handler creates emotion and confidence but no change time |
| BasicDetector.Step | backend/main.py:168-224 | one call with the error handler also starting the change clock, as the normal path does |
| BasicDetector.TargetBounded | backend/main.py:189-203 | no target confidence exceeds 95 when the current one does not |
| BasicDetector.StepKeepsBand | backend/main.py:168-224 | each call leaves the persistent attributes created and the persistent confidence within [75, 95] |
| BasicDetector.FirstCallStartsNeutral | backend/main.py:175-186 | the first call answers neutral at 85 and starts the change clock; as written the clock starts exactly when the crop was readable |
| BasicDetector.StepAgreement | backend/main.py:219-224 | the as-written and the corrected call agree except on an unreadable crop before any attribute exists, where only the corrected one creates the change time |
| BasicDetector.HoldsWithinTwoSeconds | backend/main.py:181-186 | within two seconds of the last change a call changes nothing |
| BasicDetector.ChangeRule | backend/main.py:205-215 | the emotion changes iff the target differs, its confidence exceeds 80 and the coin exceeds 0.3, taking the target's confidence and the current time; otherwise the confidence moves by at most one point within [75, 95] and the change time stays |
| BasicDetector.RunKeepsBand | backend/main.py:168-224 | after any sequence of calls the persistent confidence lies in [75, 95], and the attributes exist once a call was made |
| BasicDetector.StuckStaysStuck | backend/main.py:181-183 | as written, with the persistent emotion created but no change time, every later call leaves the state as it is |
| BasicDetector.StuckAfterEarlyFailure | backend/main.py:219-224 | as written, if the first call meets an unreadable crop, the detector answers neutral at 85 after any sequence of later calls |
| BasicDetector.RecoversAfterEarlyFailure | backend/main.py:175-224 | with the change time created by the handler, a happy face two seconds after an early unreadable crop, with a confident draw and the coin up, switches the emotion to happy; as written it stays neutral |
| BasicDetector.EnhancedEmotionDetector.constructor | backend/main.py:112-116 | a new detector has none of the persistent attributes |
| BasicDetector.EnhancedEmotionDetector.DetectEmotionBasic | backend/main.py:168-224 | the attributes become the corrected single-call transition and the returned pair is the persistent emotion and confidence |
| Sampler.LargestFace | backend/main.py:238-239 | the analysed face is one of the faces, of maximal area, the first such |
| Sampler.DetectFaceAndEmotion | backend/main.py:226-268 | someone is present iff the vision libraries load, the cascade returns a face and the largest face's emotion analysis succeeds; emotion and confidence are given exactly then, and they are that analysis's values |
| Sampler.Simulate | backend/main.py:299-301 | a simulated sample is present iff the presence draw exceeds 0.3; then it has a label from the list and a confidence in [70, 95], otherwise neither |
| Sampler.DemoFrameIntended | backend/main.py:297-331 | the intended demo generator returns a frame; it reports presence iff the draw exceeds 0.3, with a demo label and a confidence in [70, 95] |
| Sampler.DemoFrame | backend/main.py:297-333 | the demo generator as written: the failure tuple for every draw |
| Sampler.CameraFrame | backend/main.py:276-295 | the camera path: no frame on a failed open, read or encoding, else the encoded frame with the face detector's observation |
| Sampler.GetFrameAsWritten | backend/main.py:270-274 | every outcome is well formed; without the vision libraries the call always gives no frame and nobody present |
| Sampler.GetFrame | backend/main.py:270-295 | every outcome is well formed (emotion and confidence exactly when present) and presence is reported only with a frame; without the vision libraries the demo frame is returned, present iff the draw exceeds 0.3 |
| Sampler.GetFrameOutcomes | backend/main.py:276-295 | with the vision libraries the as-written and corrected `get_frame` agree; no camera, a failed read or a failed encoding give no frame and nobody present; an encoded frame reports the face detector's observation unchanged |
| Sampler.DemoModeNeverReportsPresence | backend/main.py:297-333 | without the vision libraries `get_frame` as written never reports presence, while the corrected one does for every presence draw above 0.3 |
| Sampler.MockDetection | backend/simple_main.py:67-72 | the mock sample is present with the 0.3 threshold, with one of its four labels and a confidence in [70, 95] when present, neither otherwise |
| DetectionLog.PresenceColumn | backend/main.py:457 | the stored presence column is 0 or 1 |
| DetectionLog.PresenceRoundTrip | backend/main.py:457-469 | storing the presence flag as 1/0 and reading it back with `bool` returns the flag |
| DetectionLog.NextId | backend/main.py:30 | a new row's id is positive and larger than every id in the table |
| DetectionLog.CreateDetectionRoundTrip | backend/main.py:455-472 | the response to `create_detection` carries the sampled presence, emotion and confidence, the employee, the current time and an id no existing row has |
| DetectionLog.MockDetectionResponse | backend/simple_main.py:88-107 | the simple server's response has emotion and confidence exactly when present, present with the 0.3 threshold, a mock label and a confidence in [70, 95] |
| DetectionLog.NewRow | backend/main.py:455-463 | the stored row: the next id, the employee, the current time, the 1/0 presence column and the sampled emotion and confidence |
| DetectionLog.Select | backend/main.py:489-499 | the filter keeps exactly the table's rows for the employee within the inclusive bounds, each at most as often as stored |
| DetectionLog.Query | backend/main.py:489-503 | the rows the WHERE clause keeps, newest first, cut to the limit |
| DetectionLog.QueryContract | backend/main.py:489-503 | the query returns only the employee's rows within the bounds, newest first, `min(limit, matches)` of them (all for a negative limit); any matching row left out is no newer than every row returned |
| DetectionLog.StoredRowIsQueried | backend/main.py:455-503 | after `create_detection` the employee's unbounded query returns the earlier matching rows plus the new row, newest first |
| DetectionLog.GetDetections | backend/main.py:479-517 | the endpoint answers 400 iff a date bound does not parse; otherwise it returns one response per queried row, in query order |
| DetectionLog.LatestDetections | backend/simple_main.py:111-132 | the simple server returns one response per queried row, in query order |
| DetectionLog.LatestDetectionsContract | backend/simple_main.py:118-120 | every returned detection belongs to the employee, newest first, at most `limit` of them |
| DetectionLog.Store.constructor | backend/main.py:21-37 | opening the database keeps the rows already stored in it (none for a new file), since `create_all` only creates a missing table |
| DetectionLog.Store.CreateDetection | backend/main.py:447-472 | the table gains exactly the new row at the end, and the response is that row's |
| Analytics.AnalyticsWindow | backend/main.py:528-534 | the employee's rows with a timestamp at or after `now - days` days |
| Analytics.Summarize | backend/main.py:545-556 | the total, the presence percentage, the distribution of counted emotions and the estimated hours of a window |
| Analytics.PresentCount | backend/main.py:546 | the present count never exceeds the number of rows |
| Analytics.CountedEmotions | backend/main.py:551-553 | no more emotions are counted than rows are present |
| Analytics.EmptyWindow | backend/main.py:536-542 | the general formulas give the all-zero response on an empty window, so the early return agrees with them |
| Analytics.SummaryBounds | backend/main.py:545-556 | the total is the row count; the presence percentage is present/total × 100 and lies in [0, 100]; working hours are present × 0.5 / 60 and at most what all rows would give |
| Analytics.CountedEmotionsFromRows | backend/main.py:551-553 | every counted emotion is the non-empty emotion of a present row |
| Analytics.DistributionSound | backend/main.py:549-553 | the distribution has distinct keys, counts every emotion of a present row exactly, holds no zero count and no emotion not seen on a present row, and sums to at most the present count |
| Analytics.PresentCountAppend | backend/main.py:546-553 | the present count and the counted emotions of two windows together are those of each window combined |
| Analytics.ExtractRow | backend/main.py:546-553 | taking one row out of a window removes exactly its share of the present count and of the counted emotions |
| Analytics.DistributionStep | backend/main.py:551-553 | one more row bumps the distribution by its emotion exactly when it is a present row with a non-empty emotion, and leaves it alone otherwise |
| Analytics.PermutationInvariant | backend/main.py:546-553 | reordering the rows changes neither the present count nor the multiset of counted emotions |
| Analytics.SummaryOrderIndependent | backend/export_routes.py:279-296 | the summary is the same for any order of the rows, up to the key order of the distribution |
| Analytics.ExampleCounted | backend/main.py:545-553 | for rows present/happy, present/happy, present/sad and absent, three are present and the counted emotions are happy, happy, sad |
| Analytics.ExampleHistogram | backend/main.py:550-553 | counting happy, happy, sad gives {happy: 2, sad: 1} |
| Analytics.WorkedExample | backend/main.py:545-556 | the worked example gives 4 detections, 75 % presence, {happy: 2, sad: 1} and 0.025 hours |
| Analytics.CountPresent | backend/simple_main.py:155 | the counting loop gives the present count |
| Analytics.EmotionDistribution | backend/simple_main.py:158-161 | the counting loop builds the distribution of the counted emotions |
| Analytics.GetAnalytics | backend/main.py:521-563 | the endpoint's summary is the summary of the employee's rows since `days` days ago, and the all-zero response for an empty window |
| Export.LowerAll | backend/export_routes.py:35 | lower-casing maps every character and keeps the length |
| Export.Capitalize | backend/export_routes.py:35 | `capitalize` keeps the length, upper-cases the first character and lower-cases the rest |
| Export.CsvAnalytics | backend/export_routes.py:224-240 | the CSV export's block is the window's summary, with 0 % presence on an empty window |
| Export.PdfAnalytics | backend/export_routes.py:284-303 | the PDF export answers 404 iff the window is empty, and the window's summary otherwise |
| Export.ExportAgreesWithServer | backend/export_routes.py:218-233 | the exports' newest-first window gives the same totals, percentage, hours and per-emotion counts as the server's analytics |
| Export.CsvRow | backend/export_routes.py:42-49 | one CSV log line: timestamp, employee, status, emotion or N/A, confidence or N/A |
| Export.CsvRowRules | backend/export_routes.py:42-49 | a CSV line keeps timestamp and employee, says Present iff the row is present, shows a non-empty emotion as is and N/A otherwise, and shows the confidence iff it is given and non-zero |
| Export.WriteDetectionLog | backend/export_routes.py:42-49 | the loop writes one line per row, in window order |
| Export.WriteDistribution | backend/export_routes.py:33-35 | the loop writes each distribution entry, capitalised, with its count, in dict order |
| Export.MostFrequentEmotion | backend/export_routes.py:112-114 | N/A for an empty distribution, else the capitalised first emotion of maximal count |
| Export.TableRows | backend/export_routes.py:142-149 | one table row per entry, with its capitalised label, its count and its share of the total |
| Export.SumAppend | backend/export_routes.py:140 | the sum of counts of two dicts together is the sum of their sums |
| Export.SumPermutation | backend/export_routes.py:140-143 | sorting the entries keeps their total |
| Export.PercentSumOfRows | backend/export_routes.py:144 | with a positive total the percentage column adds up to the entries' sum over the total, times 100 |
| Export.EmotionTable | backend/export_routes.py:138-149 | the table rows of the distribution sorted by count, each with its share of all counted emotions |
| Export.EmotionTableOrder | backend/export_routes.py:138-149 | the emotion table lists every entry once, by non-increasing count, with capitalised label, count and share of all counts |
| Export.EmotionTablePercentages | backend/export_routes.py:140-148 | when anything was counted, the percentage column adds up to 100 |
| Export.PdfLogRow | backend/export_routes.py:177-183 | one PDF log line: time, Present or Absent, the capitalised emotion or N/A, the confidence or N/A |
| Export.PdfLog | backend/export_routes.py:174-183 | the log lines of the first twenty rows |
| Export.PdfLogContract | backend/export_routes.py:174-183 | the PDF log shows the first `min(20, n)` rows in window order; each says Present iff the row is present, shows the capitalised emotion when there is one and N/A iff it is missing or empty, and shows the confidence iff it is given and non-zero |
| Export.ExportCsv | backend/export_routes.py:207-263 | the CSV report holds the window's summary, each distribution entry capitalised with its count in dict order, and one log line per window row in newest-first order |
| Export.ExportPdf | backend/export_routes.py:267-326 | the PDF export answers 404 iff the window is empty; otherwise it reports the summary, most frequent emotion, sorted emotion table and 20-row log of that window |

## Left out

- Camera handling (`initialize_camera`, the index probing, `release_camera`), the cascade
  detector, the drawing on frames and JPEG encoding: their outcomes are inputs (`Camera`,
  `Scan`, the `encoded` flag).
- The external emotion classifiers: the FER model's scores are the `ClassifierResult`
  input. The FER → basic dispatch of `detect_emotion_enhanced` is the `emotionOf`
  parameter of `Sampler.DetectFaceAndEmotion`. DeepFace is never called by the code.
- The video stream, the websocket, the status and health endpoints, and the API test script.
- Floating point: confidences, percentages and hours are exact reals.
- Rounding: `round(x, 1)` of the simulated confidences, `round(x, 2)` in the analytics
  response, and the `:.1f` / `:.2f` text formatting in the reports.
- Sampler.Simulate: states the confidence before `round(x, 1)`.
- Sampler.MockDetection: states the confidence before `round(x, 1)`.
- Sampler.DemoFrameIntended: states the confidence before `round(x, 1)`.
- Analytics.GetAnalytics: returns the unrounded percentage and hours; the response rounds
  both to two decimals.
- Timestamps: whole seconds. Parsing ISO dates, the `Z` replacement and time zones become
  the `DateArg` input. A value that fails to parse is `BadDate`.
- Errors: only the 400 for a bad date and the 404 for an empty PDF export are modelled.
  Database failures (the 500 of `create_detection`), and any other exception that
  `get_detections` also turns into a 400, are left out.
- Each request reads the clock once (`now`). The `days` window is `now - days × 86400`.
- SQL `ORDER BY timestamp DESC` leaves rows with equal timestamps in an unspecified order.
  The model sorts stably, so equal timestamps keep table order. QueryContract,
  StoredRowIsQueried, LatestDetectionsContract, SummaryOrderIndependent and
  ExportAgreesWithServer state only what holds for any order of ties.
- DetectionLog.GetDetections, DetectionLog.LatestDetections, Export.ExportCsv and
  Export.ExportPdf return rows with equal timestamps in table order, which the database
  does not guarantee; with a limit, or the PDF log's twenty rows, that order also decides
  which tied rows are shown.
- A negative `LIMIT` is read as no bound, as SQLite does.
- New ids follow SQLite's rowid rule: one more than the largest id in use.
- `str.capitalize` and `str.lower` are modelled for ASCII letters only.
- The CSV and PDF headers, report metadata, generation times, file names, table styling
  and the PDF layout are left out.
- Concurrency and the module-level singletons (`detector`, `face_analyzer`) are left out;
  the classes model one instance.

## Findings

| source | as written | input that shows it | evidently intended | confidence | as-written member | corrected member |
|---|---|---|---|---|---|---|
| backend/main.py:297-333 | `_get_demo_frame` runs only when importing `cv2`/`numpy` failed (main.py:71-78, 272-274), yet it builds the frame with `np` and `cv2`. The names are unbound, and the bare `except` turns the error into `(None, False, None, None)` | any `get_frame` call without the vision libraries, with presence draw 0.9 | a demo frame carrying the simulated observation: present for a draw above 0.3, a demo label and a confidence in [70, 95] | high; not executed | Sampler.DemoModeNeverReportsPresence | Sampler.DemoFrameIntended |
| backend/main.py:219-224 | when the first call's crop cannot be converted, the handler creates `persistent_emotion` and `persistent_confidence` but not `last_change_time`. Every later call then raises when it reads `last_change_time` at main.py:183 and returns neutral at 85 | a first call with an unreadable crop, then any readable crops, e.g. a happy face (brightness 200, contrast 60) two seconds later with coin 0.9 | the handler creates all three attributes, as the normal path does at main.py:176-179, so later calls follow the change rule | high; not executed | BasicDetector.StuckAfterEarlyFailure | BasicDetector.RecoversAfterEarlyFailure |
