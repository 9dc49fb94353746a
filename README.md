# E-Cell forms admin: a Dafny model

The E-Cell forms admin is a Next.js application. Administrators use it to
build questionnaires, and respondents fill them in step by step. The admin
pages then chart and export the answers. This project models the logic
behind those screens:

- the chart builders of the analytics engine;
- the three question-analytics views and the three small charts;
- the responses table and its exports;
- the question editor, the JSON importer and the form builder's save;
- the three form renderers that respondents use;
- the built-in form templates;
- the admin middleware and the statistics of the forms page.

There is one Dafny module per source file. Five modules are shared by the others:

- `Wrappers`: `Option`, `Result`.
- `Strings`: trimming, lower-casing, splitting, joining, de-duplication, a
  string order.
- `JsValues`: the JavaScript values answers are stored as, with
  truthiness, string coercion and property access.
- `Counts`: the insertion-ordered counting dictionaries the charts build.
- `Types`: questions, options, submissions.

Each React component that keeps state is a `class`. Its fields are the
component's `useState` variables and its methods are the event handlers.
Every handler's `ensures` gives the whole new state. Loops that count
answers are `method`s proved against a specification function on the same
inputs. The lemmas then state what those functions promise: every count
equals the number of occurrences, keys are distinct and come in first-seen
order, round trips hold, ids are distinct, and so on.

The database, the clock, random ids, file reading and JSON parsing are
all parameters of the methods that use them. A database lookup is the
value it returned; a failed write is what it threw.

The two step-by-step renderers share their answer logic (`FormAnswers`).
Their validation is identical. The newer one's extra `=== ''` test is
already covered by falsiness, so one `ValidateAnswer` serves both.

## Model

| member | source | states |
|---|---|---|
| AnalyticsEngine.DecodeWithoutAmpersand | lib/analytics-engine.ts:72 | a label without `&` is left unchanged by the entity decoding |
| AnalyticsEngine.DecodeNotIdempotent | lib/analytics-engine.ts:72 | the entity decoding is not idempotent: `&amp;#39;` decodes to `&#39;`, which decodes again to `'` |
| AnalyticsEngine.CountValues | lib/analytics-engine.ts:69-78 | the loop over an array answer adds, per element, one to the label of the option it matches, or to the element itself when it is a string; it ends with the counts plus every counted key |
| AnalyticsEngine.CountChoices | lib/analytics-engine.ts:58-90 | the counting loop over all answers gives the counts the specification function defines: options first at zero, then each answer's keys |
| AnalyticsEngine.CountAnswer | lib/analytics-engine.ts:66-89 | one answer's turn of the loop adds exactly its keys to the counts: each element of an array answer, otherwise the answer itself |
| AnalyticsEngine.PieColors | lib/analytics-engine.ts:106 | one colour per label, cycling through the palette |
| AnalyticsEngine.CreatePieChart | lib/analytics-engine.ts:57-110 | the pie dataset is the specified one, with as many values and colours as labels |
| AnalyticsEngine.CreateBarChart | lib/analytics-engine.ts:115-162 | the bar dataset is the specified one, with as many values as labels |
| AnalyticsEngine.CountedChart | lib/analytics-engine.ts:92-93 | after dropping zero counts, the labels are distinct and are exactly the counted keys; each value is that key's number of occurrences and is positive; the values add up to the number of keys |
| AnalyticsEngine.ScalarAnswerKeys | lib/analytics-engine.ts:79-89 | a non-array answer counts at most once: under its option's (decoded) label when it matches one, as itself when it is an unmatched string, and not at all otherwise |
| AnalyticsEngine.ArrayAnswerKeys | lib/analytics-engine.ts:66-78 | an array answer counts at most once per element, and exactly once per element when all its elements are strings |
| AnalyticsEngine.StringAnswersCountOnce | lib/analytics-engine.ts:79-89 | when every answer is a string, each counts exactly once |
| AnalyticsEngine.PieChartSpec | lib/analytics-engine.ts:57-110 | pie chart: its total is the number of answers; labels are distinct and are exactly the counted keys, each with its positive occurrence count; the values add up to the number of keys, which equals the total when every answer is a string |
| AnalyticsEngine.BarChartSpec | lib/analytics-engine.ts:115-162 | bar chart: the same counting without decoding; labels are exactly the counted keys, each value is its positive occurrence count, and the values add up to the number of keys |
| AnalyticsEngine.GenerateChartDataSpec | lib/analytics-engine.ts:30-52 | one pie chart per question the engine does not exclude that has at least one answer, and no chart without responses or for an excluded question |
| AnalyticsEngine.GenerateChartDataConcat | lib/analytics-engine.ts:37-50 | the charts keep the questions' order: generating over two lists of questions gives the first list's charts, then the second's |
| AnalyticsEngine.SortKeys | lib/analytics-engine.ts:180 | the sort of distinct day keys returns them strictly ascending and with the same members |
| Strings.LastN | lib/analytics-engine.ts:181 | `slice(-n)`: the last `min(|s|, n)` entries, in their order |
| AnalyticsEngine.LastThirtyKeepsGreatest | lib/analytics-engine.ts:180-181 | the kept days are the greatest in string order: they are sorted, and every day dropped sorts before the first kept one |
| AnalyticsEngine.TrendDaysInStringOrder | lib/analytics-engine.ts:180 | the day keys sort as strings, not as dates: `10/1/2024` comes before `9/30/2024` |
| AnalyticsEngine.GenerateSubmissionTrends | lib/analytics-engine.ts:170-199 | line chart over the submissions: its total is the number of submissions; it shows the `min(days, 30)` distinct days that are greatest in string order, ascending in that order, each with its number of submissions, and every day left out sorts before them |
| Counts.Put | lib/analytics-engine.ts:62 | assigning a key keeps key order, appends a new key at the end, changes only that key's value and keeps keys distinct |
| Counts.ZeroesSpec | lib/analytics-engine.ts:61-63 | setting every option to 0 gives distinct keys in first-seen order, all at zero |
| Counts.ZeroAll | lib/analytics-engine.ts:61-63 | the loop that sets every option to 0 gives that dictionary |
| Counts.IncrAllLookup | lib/analytics-engine.ts:176 | after `(counts[k] \|\| 0) + 1` over a list of keys, each key's count has grown by its number of occurrences |
| Counts.IncrAllKeys | lib/analytics-engine.ts:174-177 | counting keeps the keys distinct and in order, appends only new keys, and adds no key when all were present |
| Counts.IncrAllSum | lib/analytics-engine.ts:174-177 | counting adds exactly the number of keys counted to the total |
| Counts.CountAll | lib/analytics-engine.ts:174-177 | the counting loop gives the specified dictionary |
| Counts.PositiveLookup | lib/analytics-engine.ts:92-93 | the filter on `count > 0` keeps every count and keeps exactly the keys that have a positive count |
| Counts.PositiveOrder | lib/analytics-engine.ts:92 | the filter keeps the remaining keys in their order |
| Counts.TallyEntries | components/admin/analytics/responses-chart.tsx:9-16 | tallying keys from empty gives distinct keys, exactly the keys seen, each with its positive occurrence count |
| Counts.DedupKeys | components/admin/analytics/responses-chart.tsx:18-21 | the tally's keys are the keys seen, in first-seen order, without repeats |
| Types.FindOption | lib/analytics-engine.ts:70 | the option found is the first whose value is the answer, and none is found exactly when no option has that value |
| Types.AnswersFor | lib/analytics-engine.ts:44-46 | the answers collected for a question are answered values, at most one per submission |
| Types.AnswersForCount | lib/analytics-engine.ts:44-46 | the number of collected answers equals the number of submissions that answered |
| Types.DefaultQuestionIdInjective | components/admin/form-builder.tsx:103 | the default ids `q_{i+1}` of two different positions differ |
| QuestionAnalytics.CountOptions | components/admin/question-analytics.tsx:32-37 | the loop over an array answer adds one to the label of each option an element matches |
| QuestionAnalytics.AnalyticsData | components/admin/question-analytics.tsx:17-79 | the counting over all submissions gives the specified entries |
| QuestionAnalytics.OptionKeysAreLabels | components/admin/question-analytics.tsx:32-37 | only option labels are counted, at most one per element |
| QuestionAnalytics.SelectedKeysAreLabels | components/admin/question-analytics.tsx:58-67 | for multiple-choice answers too, only option labels are counted |
| QuestionAnalytics.AnalyticsDataSpec | components/admin/question-analytics.tsx:22-78 | a non-choice question has no entries; entries are distinct option labels in option order; an entry exists exactly for the selected labels, each with its positive occurrence count |
| QuestionAnalytics.SingleCountsBounded | components/admin/question-analytics.tsx:32-37 | for a single-choice question, the counts add up to at most the number of answered responses |
| QuestionAnalytics.AnsweredResponses | components/admin/question-analytics.tsx:82-85 | the number of responses shown is the number that answered the question, at most the number of submissions |
| QuestionAnalytics.ShownQuestionsAreCharted | components/admin/question-analytics.tsx:89-91 | a question gets a card exactly when it is a choice question that the engine does not exclude and is neither `full_name` nor `email_address` in any case |
| EnhancedAnalytics.PresentAnswers | components/admin/analytics/enhanced-analytics.tsx:101-103 | the answers kept are neither `null` nor `undefined`, at most one per submission |
| EnhancedAnalytics.ChartData | components/admin/analytics/enhanced-analytics.tsx:120-124 | one slice per count, in order, coloured by cycling through the palette |
| EnhancedAnalytics.CountResponses | components/admin/analytics/enhanced-analytics.tsx:106-118 | the counting loop gives the specified dictionary: every element of an array answer counts, and any other answer counts once as its string form |
| EnhancedAnalytics.ProcessAnalytics | components/admin/analytics/enhanced-analytics.tsx:97-133 | the loop over the questions gives the specified list of items |
| EnhancedAnalytics.Insights | components/admin/analytics/enhanced-analytics.tsx:138-142 | at most four insight cards, the i-th from the i-th item with its total and the first three of its slices |
| EnhancedAnalytics.ScalarAnswersCountOnce | components/admin/analytics/enhanced-analytics.tsx:114-117 | when no answer is an array, each counts exactly once |
| EnhancedAnalytics.ItemSpec | components/admin/analytics/enhanced-analytics.tsx:99-132 | an item's total is the number of present answers; slice names are distinct and are exactly the counted keys, each valued at its positive occurrence count and coloured by position; the slices add up to the keys, which equal the total when no answer is an array |
| EnhancedAnalytics.AnalyticsOfSpec | components/admin/analytics/enhanced-analytics.tsx:97-99 | exactly the choice questions get an item |
| EnhancedAnalytics.AnalyticsOfConcat | components/admin/analytics/enhanced-analytics.tsx:97-133 | the items keep the questions' order: two lists of questions give the first list's items, then the second's |
| LegacyQuestionAnalytics.ElementKeysAreOptions | components/admin/analytics/question-analytics.tsx:97-102 | only elements that are options are counted |
| LegacyQuestionAnalytics.LegacyKeysAreOptions | components/admin/analytics/question-analytics.tsx:95-106 | over all responses, only options are counted |
| LegacyQuestionAnalytics.CountsKeepOptions | components/admin/analytics/question-analytics.tsx:87-93 | counting only options leaves the zeroed dictionary's keys as they were: the options, without repeats |
| LegacyQuestionAnalytics.CountElements | components/admin/analytics/question-analytics.tsx:98-102 | the loop over an array answer gives the counts plus the elements that are options |
| LegacyQuestionAnalytics.CountAnswer | components/admin/analytics/question-analytics.tsx:96-105 | one answer's counting gives the specified counts and keeps exactly the options as keys |
| LegacyQuestionAnalytics.LegacyCounts | components/admin/analytics/question-analytics.tsx:87-106 | the loop over the responses gives the specified counts |
| LegacyQuestionAnalytics.LegacyCountsSpec | components/admin/analytics/question-analytics.tsx:87-111 | every option has an entry, in option order; each count is the number of times the option was chosen; "No responses yet" shows exactly when nothing was counted |
| LegacyQuestionAnalytics.ScalarAnswerRule | components/admin/analytics/question-analytics.tsx:103-105 | a non-array answer counts at most once, and counts exactly when it is truthy and is an option |
| LegacyQuestionAnalytics.CardsOfSpec | components/admin/analytics/question-analytics.tsx:83-111 | rendering throws exactly when a choice question has no options; otherwise the i-th card is the card of the i-th choice question's option counts |
| LegacyQuestionAnalytics.Filter | components/admin/analytics/question-analytics.tsx:84 | the filtered list holds exactly the `select`, `radio` and `checkbox` questions |
| LegacyQuestionAnalytics.FilterConcat | components/admin/analytics/question-analytics.tsx:84 | the filter keeps the questions' order: it distributes over concatenation |
| ResponsesOverTimeChart.Render | components/admin/analytics/responses-over-time-chart.tsx:9-37 | the rendering loop gives the specified view |
| ResponsesOverTimeChart.LastThirtyOfTally | components/admin/analytics/responses-over-time-chart.tsx:9-23 | the chart is empty only without responses; at most 30 distinct dates, each with its positive number of responses |
| ResponsesOverTimeChart.LastThirtyKeys | components/admin/analytics/responses-over-time-chart.tsx:18-23 | the dates shown are the last `min(n, 30)` of the distinct dates in first-seen order |
| ResponsesOverTimeChart.ViewSpec | components/admin/analytics/responses-over-time-chart.tsx:9-37 | "No data available" exactly without responses; otherwise a line over the last `min(n, 30)` distinct dates, each with its number of responses |
| ResponsesChart.Render | components/admin/analytics/responses-chart.tsx:9-25 | the rendering loop gives the specified view |
| ResponsesChart.ViewSpec | components/admin/analytics/responses-chart.tsx:9-25 | nothing is drawn exactly without responses; otherwise the points are the distinct dates in first-seen order, each with its number of responses, and they add up to the number of responses |
| FormComparisonChart.ShortTitleSpec | components/admin/analytics/form-comparison-chart.tsx:15 | a title of at most 20 characters is kept; a longer one becomes its first 20 characters followed by `...` |
| FormComparisonChart.BarsOf | components/admin/analytics/form-comparison-chart.tsx:13-18 | one bar for each of the first ten forms, with its shortened title and response count |
| FormComparisonChart.ViewOf | components/admin/analytics/form-comparison-chart.tsx:13-32 | "No data available" exactly without forms, bars otherwise |
| ResponsesTable.AnalyticsQuestions | components/admin/enhanced-responses-table.tsx:26-33 | the analytics tab lists exactly the questions that get a card |
| ResponsesTable.SelectedQuestion | components/admin/enhanced-responses-table.tsx:34 | the selected question is a listed question with the selected id, and there is none when no listed question has it |
| ResponsesTable.ExportQuestions | components/admin/enhanced-responses-table.tsx:71-72 | the export skips exactly the questions whose id is `email` or `email_address` in any case; a name question is exported |
| ResponsesTable.ExportQuestionsConcat | components/admin/enhanced-responses-table.tsx:72 | the exported columns keep the form's question order |
| ResponsesTable.Headers | components/admin/enhanced-responses-table.tsx:73 | the headers are `Email`, `Submitted At`, then one per exported question text |
| ResponsesTable.Rows | components/admin/enhanced-responses-table.tsx:74-82 | one row per submission, in order |
| ResponsesTable.RowSpec | components/admin/enhanced-responses-table.tsx:74-82 | a row is as long as the headers; the email is shown, or `Anonymous` exactly when it is missing or empty; the date has no time part; then one cell per question |
| ResponsesTable.CellSpec | components/admin/enhanced-responses-table.tsx:77-81 | a falsy scalar answer gives an empty cell, a string is shown as it is, and so is a one-string array |
| ResponsesTable.MarkdownLinesSpec | components/admin/enhanced-responses-table.tsx:95 | a Markdown table's lines are the header, the rule and one line per row |
| ResponsesTable.MarkdownNoRows | components/admin/enhanced-responses-table.tsx:95 | with no rows, the Markdown text's lines are the header, the rule and an empty line |
| ResponsesTable.CsvRowAsWrittenAmbiguous | components/admin/enhanced-responses-table.tsx:89 | as written, two different rows can give the same CSV line |
| ResponsesTable.CsvRowRoundTrip | components/admin/enhanced-responses-table.tsx:89 | with embedded quotes doubled, parsing a CSV line gives back its cells |
| ResponsesTable.CsvLinesSpec | components/admin/enhanced-responses-table.tsx:87-89 | when no cell holds a newline, the CSV text's lines are the comma-joined headers, then each row as the code quotes it |
| ResponsesTable.ExportContentSpec | components/admin/enhanced-responses-table.tsx:87-104 | JSON exports the serialised submissions; with no newline in any cell, CSV's lines are the comma-joined headers, then each row as the code quotes it; TSV's lines split back into the headers and the rows when no cell holds a tab; Markdown's are the header, the rule and one line per row, or an empty line when there are no rows; an unknown format exports nothing |
| ResponsesTable.TsvRoundTrip | components/admin/enhanced-responses-table.tsx:92 | cells without tabs or newlines are recovered by splitting the TSV text into lines, then into cells |
| ResponsesTable.FileNameSpec | components/admin/enhanced-responses-table.tsx:85 | the file name is the lower-cased form name with whitespace runs made hyphens, then `-responses.` and the format; it contains no whitespace |
| ResponsesTable.TruthyAtMostAnswered | components/admin/enhanced-responses-table.tsx:117-120 | the count of truthy answers is at most the count of answered submissions, and equals it when no answer is a boolean or a number |
| QuestionEditor.Merge | components/admin/question-editor.tsx:50-54 | an update overwrites exactly the fields the patch gives and keeps the others |
| QuestionEditor.MergeNoChange | components/admin/question-editor.tsx:52 | an empty patch changes nothing |
| QuestionEditor.NewQuestion | components/admin/question-editor.tsx:33-45 | a new question has id `q_{n+1}`, order number `n+1`, type `text`, is required and has no options, text or placeholder |
| QuestionEditor.RemoveAt | components/admin/question-editor.tsx:57 | deletion drops exactly the entry at the index and keeps the order of the rest |
| QuestionEditor.RemoveAtMultiset | components/admin/question-editor.tsx:57 | deletion removes exactly one occurrence of the deleted entry |
| QuestionEditor.SwapSpec | components/admin/question-editor.tsx:64-73 | a move swaps exactly two entries, is a permutation and undoes itself |
| QuestionEditor.AutoValueIsSlug | components/admin/question-editor.tsx:89 | the value derived from an option label has only lower-case letters, digits and single underscores, none at either end |
| QuestionEditor.AutoValueIdempotent | components/admin/question-editor.tsx:89 | deriving the value from a derived value changes nothing |
| QuestionEditor.OptionsForType | components/admin/question-editor.tsx:185-189 | choice types keep their options or get a default option; other types lose them |
| QuestionEditor.ImportedMetadata | components/admin/question-editor.tsx:127-129 | the import passes on the metadata exactly when it has a title or a description |
| QuestionEditor.QuestionEditor.constructor | components/admin/question-editor.tsx:30-31 | the editor starts with the given questions and none open |
| QuestionEditor.QuestionEditor.SetQuestions | components/admin/question-editor.tsx:119-126 | the list is replaced |
| QuestionEditor.QuestionEditor.AppendQuestions | components/admin/question-editor.tsx:265 | the template's questions are appended |
| QuestionEditor.QuestionEditor.AddQuestion | components/admin/question-editor.tsx:33-48 | a new question is appended and opened for editing |
| QuestionEditor.QuestionEditor.UpdateQuestion | components/admin/question-editor.tsx:50-54 | only the question at the index changes, by the patch |
| QuestionEditor.QuestionEditor.DeleteQuestion | components/admin/question-editor.tsx:56-62 | the question at the index is removed, and closed when it was open |
| QuestionEditor.QuestionEditor.MoveQuestion | components/admin/question-editor.tsx:64-73 | a move swaps with the neighbour, does nothing at either end, and always permutes the list |
| QuestionEditor.QuestionEditor.AddOption | components/admin/question-editor.tsx:75-80 | an empty option is appended to that question only |
| QuestionEditor.QuestionEditor.UpdateOption | components/admin/question-editor.tsx:82-96 | editing a label also sets the derived value; editing a value sets only it |
| QuestionEditor.QuestionEditor.DeleteOption | components/admin/question-editor.tsx:98-103 | the option is removed, and no options are left as none |
| QuestionEditor.QuestionEditor.ChangeType | components/admin/question-editor.tsx:185-189 | the type changes and the options follow it |
| QuestionEditor.QuestionEditor.LoadImported | components/admin/question-editor.tsx:122-130 | imported questions replace the list and the metadata is passed on as specified |
| QuestionEditor.MoveDownThenUp | components/admin/question-editor.tsx:64-73 | moving a question down and back up restores the list |
| QuestionEditor.AddedIdsAreDistinct | components/admin/question-editor.tsx:38 | questions added at different list lengths get different ids |
| FormAnswers.Toggle | components/interactive-form-renderer.tsx:41-48 | a click selects the option exactly when it was not selected, and leaves every other selection as it was |
| FormAnswers.ToggleTwice | components/interactive-form-renderer.tsx:41-48 | clicking an unselected option twice restores the list |
| FormAnswers.ToggleSelected | components/interactive-form-renderer.tsx:44-45 | clicking a selected option removes it without reordering; clicking again appends it |
| FormAnswers.ValidEmailIsPattern | components/interactive-form-renderer.tsx:64-70 | the email check accepts exactly what `^[^\s@]+@[^\s@]+\.[^\s@]+$` matches |
| FormAnswers.ValidateAnswer | components/interactive-form-renderer.tsx:55-73 | a rejection is one of the two messages |
| FormAnswers.ValidateAnswerSpec | components/interactive-form-renderer.tsx:55-73 | an answer passes exactly when the question is optional, or the answer is present and, for an email question, matches the pattern; a missing required answer gets "This question is required" |
| FormAnswers.Next | components/interactive-form-renderer.tsx:75-83 | Next throws exactly past the last question, is rejected exactly when validation fails, submits only on the last question and advances otherwise |
| FormAnswers.FieldOrNull | components/interactive-form-renderer.tsx:95 | a truthy answer is sent as it is, anything else as `null` |
| FormAnswers.SubmitErrorSpec | components/interactive-form-renderer.tsx:92-139 | a submission completes exactly when no earlier submission with its email exists and the insert succeeds; without an email the earlier-submission check does not matter |
| InteractiveFormRenderer.EnterOnLandingScreen | components/interactive-form-renderer.tsx:31-34 | on the landing screen the Enter guard as written lets Next run, which moves past an optional first question or submits a one-question form; the guard with the start check does not |
| InteractiveFormRenderer.Renderer.constructor | components/interactive-form-renderer.tsx:18-23 | the renderer starts on the landing screen at the first step with no answers |
| InteractiveFormRenderer.Renderer.Start | components/interactive-form-renderer.tsx:161 | Start only sets the started flag |
| InteractiveFormRenderer.Renderer.HandleAnswer | components/interactive-form-renderer.tsx:40-53 | a multiple-choice click toggles the option; any other answer is replaced; the error is cleared |
| InteractiveFormRenderer.Renderer.HandleNext | components/interactive-form-renderer.tsx:75-83 | Next sets the error, moves one step or starts submitting, as `Next` says, and keeps the step valid |
| InteractiveFormRenderer.Renderer.HandleBack | components/interactive-form-renderer.tsx:85-90 | Previous steps back and clears the error, except on the first step |
| InteractiveFormRenderer.Renderer.FinishSubmit | components/interactive-form-renderer.tsx:92-139 | the insert is skipped when an earlier submission with the email exists; the form completes or shows the error `SubmitError` gives |
| InteractiveFormRenderer.Renderer.PressEnterAsWritten | components/interactive-form-renderer.tsx:29-38 | as written, Enter does nothing while submitting or once complete, and otherwise does what Next does, even on the landing screen, where it moves past an optional first question |
| InteractiveFormRenderer.Renderer.PressEnter | components/interactive-form-renderer.tsx:29-38 | with the start check, Enter does nothing before Start, while submitting or once complete, and otherwise does what Next does |
| InteractiveFormRendererOld.Renderer.constructor | components/interactive-form-renderer-old.tsx:20-24 | the renderer starts on the landing screen at the first step with no answers |
| InteractiveFormRendererOld.Renderer.Start | components/interactive-form-renderer-old.tsx:164 | Start only sets the started flag |
| InteractiveFormRendererOld.Renderer.HandleAnswer | components/interactive-form-renderer-old.tsx:42-55 | a multiple-choice click toggles the option; any other answer is replaced; the error is cleared |
| InteractiveFormRendererOld.Renderer.HandleNext | components/interactive-form-renderer-old.tsx:77-85 | Next sets the error, moves one step or starts submitting, as `Next` says |
| InteractiveFormRendererOld.Renderer.HandleBack | components/interactive-form-renderer-old.tsx:87-92 | Previous steps back and clears the error, except on the first step |
| InteractiveFormRendererOld.Renderer.FinishSubmit | components/interactive-form-renderer-old.tsx:94-138 | as in the newer renderer, but the row carries no name column |
| InteractiveFormRendererOld.Renderer.PressKey | components/interactive-form-renderer-old.tsx:31-36 | Enter does what Next does after Start while not submitting or complete, and nothing otherwise; ArrowLeft steps back; other keys do nothing; before Start the step never advances |
| PublicFormRenderer.CheckboxChange | components/public-form-renderer.tsx:34-49 | a checkbox change on a list answer always gives a list |
| PublicFormRenderer.CheckboxChangeSpec | components/public-form-renderer.tsx:37-46 | checking appends the value; unchecking removes every copy of it and keeps the other values |
| PublicFormRenderer.CheckThenUncheck | components/public-form-renderer.tsx:37-46 | checking then unchecking a value leaves the list without it |
| PublicFormRenderer.MissingQuestions | components/public-form-renderer.tsx:52-56 | the questions listed as missing are exactly the required ones without an answer |
| PublicFormRenderer.MissingQuestionsConcat | components/public-form-renderer.tsx:52-56 | the missing questions keep the form's order |
| PublicFormRenderer.ValidateFormSpec | components/public-form-renderer.tsx:51-64 | the form passes exactly when every required question is answered; otherwise the message names the missing questions, comma-separated |
| PublicFormRenderer.SubmitOutcomeSpec | components/public-form-renderer.tsx:79-119 | a submission completes exactly when no earlier one with its email exists and the insert succeeds; a duplicate, or a unique-key violation, gives the one-submission message |
| PublicFormRenderer.PublicForm.constructor | components/public-form-renderer.tsx:22-25 | the form starts with no answers, not submitted |
| PublicFormRenderer.PublicForm.HandleAnswerChange | components/public-form-renderer.tsx:27-32 | only the changed question's answer is replaced |
| PublicFormRenderer.PublicForm.HandleMultipleChoiceChange | components/public-form-renderer.tsx:34-49 | the checkbox change is applied to that question's answer |
| PublicFormRenderer.PublicForm.HandleSubmit | components/public-form-renderer.tsx:66-120 | an invalid form shows the validation message and sends nothing; otherwise the row is sent, unless an earlier submission exists, and the outcome sets the error or the submitted flag |
| JsonUploader.ImportQuestion | components/admin/json-uploader.tsx:36-47 | an entry that is `null` or `undefined` throws; any other becomes a question |
| JsonUploader.ImportAll | components/admin/json-uploader.tsx:36-47 | the import fails exactly when some entry is `null` or `undefined`; otherwise the i-th question comes from the i-th entry |
| JsonUploader.ProcessParsedSpec | components/admin/json-uploader.tsx:23-54 | data without a `questions` array is refused with "JSON must have a 'questions' array"; an import keeps one question per entry |
| JsonUploader.ImportedQuestionSpec | components/admin/json-uploader.tsx:39-45 | order number `i+1`; each field keeps a truthy value of the entry; otherwise the id is `q_{i+1}`, the text is `question` when truthy, else "", the type is `text`, options and placeholder are `null`; `is_required` keeps any value but `null` and `undefined`, which become true |
| JsonUploader.DefaultIdsDistinct | components/admin/json-uploader.tsx:40 | entries without ids get pairwise different ids |
| JsonUploader.Uploader.constructor | components/admin/json-uploader.tsx:19-21 | no error, not loading, empty text |
| JsonUploader.Uploader.SetJsonText | components/admin/json-uploader.tsx:129 | typing sets the text only |
| JsonUploader.Uploader.ProcessJson | components/admin/json-uploader.tsx:23-63 | a parse error or a refused import sets the error and keeps the text; a good import is passed on and clears the text |
| JsonUploader.Uploader.HandleTextImport | components/admin/json-uploader.tsx:84-90 | blank text is refused with "Please enter JSON text" before parsing; other text is processed as `ProcessJson` says: a good import is passed on and clears the text, a parse error or refused import sets the error and keeps the text |
| JsonUploader.Uploader.HandleFileUpload | components/admin/json-uploader.tsx:65-82 | no file does nothing; a non-JSON type or a failed read is refused with its message; a JSON file that was read is processed as `ProcessJson` says; only such a file can load |
| FormBuilder.SanitizeSlug | components/admin/form-builder.tsx:237 | the sanitised slug has only slug characters and is no longer than the input |
| FormBuilder.SanitizedSlugPasses | components/admin/form-builder.tsx:237 | what the slug field holds is empty or passes the save's slug check, and sanitising it again changes nothing |
| FormBuilder.SanitizeKeepsSlug | components/admin/form-builder.tsx:237 | a valid slug is left unchanged |
| FormBuilder.SlugIsTrimmed | components/admin/form-builder.tsx:80 | trimming a valid slug changes nothing |
| FormBuilder.SaveCheckSpec | components/admin/form-builder.tsx:35-64 | the checks pass exactly when the name is not blank and the slug is empty, or valid and free or the form's own; the name check comes first, then the character check, then the owner check |
| FormBuilder.FormRowOf | components/admin/form-builder.tsx:74-80 | the slug column is set exactly when a slug was given |
| FormBuilder.StoredSlug | components/admin/form-builder.tsx:80 | a valid slug is stored exactly as typed |
| FormBuilder.QuestionsToInsert | components/admin/form-builder.tsx:99-109 | one row per question, in order |
| FormBuilder.QuestionsToInsertSpec | components/admin/form-builder.tsx:142-151 | the rows are numbered 1..n, keep each question's content and id, and give questions without an id distinct ids |
| FormBuilder.WriteError | components/admin/form-builder.tsx:161-164 | an error shows exactly when a write failed, with the fallback message for a thrown non-`Error` |
| FormBuilder.SaveRequestOf | components/admin/form-builder.tsx:120-126 | the request carries the slug exactly when one was given, and one row per question |
| FormBuilder.Builder.constructor | components/admin/form-builder.tsx:26-32 | the builder starts with the form's fields, not saving and without an error |
| FormBuilder.Builder.SetCustomSlug | components/admin/form-builder.tsx:237 | the slug field only ever holds an empty or a valid slug |
| FormBuilder.Builder.OnFormMetadata | components/admin/form-builder.tsx:267-270 | an imported non-empty title or description replaces the field |
| FormBuilder.Builder.HandleSave | components/admin/form-builder.tsx:35-168 | the save writes exactly when the checks pass, sending the trimmed form and its numbered questions; a failed check shows its message; saving always ends |
| FormTemplates.FindById | lib/form-templates.ts:204 | the first template with the id, and none exactly when no template has it |
| FormTemplates.FilterByCategory | lib/form-templates.ts:208 | exactly the templates of the category |
| FormTemplates.FilterByCategoryConcat | lib/form-templates.ts:208 | the filter keeps the templates' order |
| FormTemplates.Categories | lib/form-templates.ts:212 | every category that occurs, each once |
| FormTemplates.EvaluationWellFormed | lib/form-templates.ts:12-99 | the evaluation template's questions are numbered 1..n, have distinct ids, and have options exactly when they are choice questions |
| FormTemplates.SurveyWellFormed | lib/form-templates.ts:100-145 | the same for the technology interest survey |
| FormTemplates.FeedbackWellFormed | lib/form-templates.ts:146-200 | the same for the event feedback template |
| FormTemplates.TemplatesWellFormed | lib/form-templates.ts:11-201 | every template is well formed and the template ids are distinct |
| FormTemplates.TemplateLookup | lib/form-templates.ts:203-205 | looking up a template's id finds that template |
| FormTemplates.AllCategories | lib/form-templates.ts:211-213 | the categories are evaluation, survey and feedback |
| FormTemplates.CategoryLookup | lib/form-templates.ts:207-209 | each category holds exactly its one template |
| Middleware.RouteAuthentication | middleware.ts:4-13 | a protected admin page is let through exactly when the cookie `admin_authenticated` has the value `true`, and otherwise redirected to the login page |
| Middleware.RouteSpec | middleware.ts:3-23 | the redirect to login, the redirect from login to the dashboard and passing through each happen exactly in their case |
| Middleware.NoRedirectLoop | middleware.ts:7-20 | the target of a redirect is itself let through |
| Middleware.PublicPagesPass | middleware.ts:7 | a page outside `/admin` is always let through |
| Middleware.HandleSpec | middleware.ts:25-36 | every admin path that does not name an image runs the middleware; a path naming an image file passes without it, so `/admin/logo.png` is served without the cookie though the middleware would redirect it |
| Middleware.AdminImage | middleware.ts:25-36 | `/admin/logo.png` without the cookie passes the matcher, while the middleware alone would redirect it to the login page |
| Middleware.HandleNoRedirectLoop | middleware.ts:7-36 | with the matcher in front, following a redirect with the same cookie is let through |
| FormsPage.ResponseCount | app/admin/forms/page.tsx:31 | the first count, or 0 when there is none |
| FormsPage.FormsWithStats | app/admin/forms/page.tsx:29-32 | no list without data; otherwise one entry per form with its response count |
| FormsPage.CountActiveBounds | app/admin/forms/page.tsx:36 | at most every form is active; all are counted exactly when all are active; none exactly when none is |
| FormsPage.ActiveAtMostTotal | app/admin/forms/page.tsx:35-36 | active forms never exceed the total, and both are 0 without data |
| FormsPage.SumResponsesConcat | app/admin/forms/page.tsx:37 | the total is additive over the list |
| FormsPage.SumResponsesBounds | app/admin/forms/page.tsx:37 | the total is at least each form's count, and 0 exactly when all are |
| FormsPage.TotalResponsesSpec | app/admin/forms/page.tsx:37 | the page's total bounds each form's count, is 0 exactly when every count is, and is 0 without data |
| FormsPage.AverageRounded | app/admin/forms/page.tsx:84 | the average is rounded to the nearest tenth, half up, and is 0 without forms |

## Left out

- Database access: every query or write becomes a parameter that holds its result, or what it threw.
- Random ids, timestamps and `Date.now()` are parameters. The same goes for locale date formatting (`dayOf`) and `toISOString` (`iso`).
- `JSON.parse` is left out: the importer starts from the parsed value, or `None` for a syntax error. The wording of engine errors (syntax errors, TypeErrors) is not modelled: they are `EngineError`, or `Crash` for Next past the last question.
- Rendering, styling, progress bars, percentages and response rates are left out. So are confetti, toasts, the clipboard, downloads and routing after a save.
- FormsPage.AverageRounded: the average uses exact rational arithmetic rounded half up in tenths. It does not model IEEE doubles, so a quotient that double rounding puts just below a half-tenth would show one tenth lower.
- AnalyticsEngine.SortKeys: compares strings by code point. JavaScript's `sort` compares UTF-16 code units, and the two orders differ between characters U+E000 to U+FFFF and characters above U+FFFF.
- AnalyticsEngine.GenerateSubmissionTrends: the days are sorted as strings, as in the code, so with `M/D/YYYY` days the chart is not in date order and keeps the greatest strings, not the latest days (see `TrendDaysInStringOrder`). The intended order depends on the locale's date format, which is a parameter here, so no corrected version is modelled.
- AnalyticsEngine.CountChoices: `(optionCounts[k] || 0) + 1` (lib/analytics-engine.ts:73,76,84,87) is modelled as adding one to a missing key. For an answer that names an inherited property of plain objects, such as `constructor` or `toString`, JavaScript concatenates the inherited function's text with `1`, and the `count > 0` filter then drops it; the model charts it with count 1.
- EnhancedAnalytics.CountResponses: the same `(responseCounts[k] || 0) + 1` (components/admin/analytics/enhanced-analytics.tsx:112,116) gives such an answer's slice a string value in JavaScript; the model gives it 1.
- Counts: keys keep insertion order. JavaScript's `Object.keys` lists integer-like keys first, in numeric order; that reordering is not modelled.
- LegacyQuestionAnalytics.CountAnswer: counts only listed options. The source's `optionCounts[a] !== undefined` also sees inherited properties such as `constructor`, and would count into them; that case is not modelled.
- Strings.Lower lower-cases ASCII letters only. JavaScript's `toLowerCase` covers all of Unicode.
- FormComparisonChart.ShortTitleSpec: lengths count characters, not UTF-16 code units.
- InteractiveFormRenderer.Renderer.PressEnter: models only the document-level listener. The text input's own Enter handler also runs Next, so one key press can run it twice; that is not modelled.
- InteractiveFormRendererOld.Renderer.PressKey: handlers see the current answers. The source's listener is registered without `answers` in its dependency list, so it can validate stale answers; that is not modelled.
- EnhancedAnalytics.Insights: takes the first three slices of each item, as the code does. These are not the three largest.
- AnalyticsEngine.DecodeNotIdempotent: `decodeLabel` (lib/analytics-engine.ts:72) is not idempotent: `&amp;#39;` decodes to `&#39;`, then to `'`.
- ResponsesTable.ExportContent: the JSON export's text is a parameter. The CSV header line is left unquoted, as in the code.
- FormBuilder.Builder.HandleSave: only the first failing write is modelled, through `writeFailure`. Which write failed, and what was written before it, are not.
- QuestionEditor.QuestionEditor.LoadImported: models the object case of the import callback. The array branch cannot be reached from the importer.
- QuestionEditor.ImportedMetadata: takes the title and description as strings. A non-string title in the JSON is not modelled.
- QuestionEditor.QuestionEditor.UpdateQuestion: requires an index inside the list. Every caller passes the index of a rendered question.
- Login and logout actions, layouts, navigation and the template selector's dialog are not part of this model.

## Findings

| source | as written | input that shows it | evidently intended | confidence | as-written member | corrected member |
|---|---|---|---|---|---|---|
| components/interactive-form-renderer.tsx:31 | the document-level Enter handler runs Next without checking that the form has been started | a form whose first question is optional; Enter pressed on the landing screen | Enter ignored before Start, as in the earlier renderer's guard | medium, not executed | InteractiveFormRenderer.Renderer.PressEnterAsWritten | InteractiveFormRenderer.Renderer.PressEnter |
| components/admin/enhanced-responses-table.tsx:89 | CSV cells are wrapped in quotes without doubling quotes inside them | the rows `["a\",\"b"]` and `["a", "b"]` give the same line `"a","b"` | embedded quotes doubled, as section 2 of RFC 4180 requires | high, not executed | ResponsesTable.CsvRowAsWrittenAmbiguous | ResponsesTable.CsvRowRoundTrip |
