# MetaDoc core, modelled and proved in Dafny

MetaDoc is a Flask back end that professors use to collect student documents (uploads or
Google Drive links) against deadlines. It extracts document metadata and content statistics,
classifies each submission's timeliness and contribution growth, and runs NLP and AI analysis
over the text. It then summarises the results on a dashboard, in reports and through JSON
APIs. This project models the deterministic rules of that pipeline and proves properties of
them:

- timeliness classification;
- the snapshot log and contribution growth;
- the three-layer metadata merge;
- content statistics and completeness checks;
- the heuristic assessment;
- NLP post-processing;
- the processing status machine;
- the request schemas and validators;
- the authentication tables;
- the dashboard table operations;
- the serialisers, standard responses and exception hierarchy.

Libraries, the database and the clock are outside the model. Their results are inputs, and
library routines are function parameters. Tables are maps or sequences held by classes, whose
methods change them and state their new contents. Where the repository keeps two copies of a
component (the registered `app/api` and `app/services` code, and the older `app/modules`
code), the live copy is modelled. The other copy gets separately named members, plus lemmas
that show where the two copies disagree.

One module per source file:

| module | source |
|---|---|
| `InsightsService` | `backend/app/services/insights_service.py` |
| `HeuristicInsights` | `backend/app/modules/insights.py` |
| `MetadataService` | `backend/app/services/metadata_service.py` |
| `MetadataModule` | `backend/app/modules/metadata.py` |
| `MetadataApi` | `backend/app/api/metadata.py` |
| `NlpApi` | `backend/app/api/nlp.py` |
| `NlpService` | `backend/app/services/nlp_service.py` |
| `SubmissionModel`, `AnalysisModels`, `Base` | `backend/app/models/` (`submission.py`, `analysis.py`, `base.py`); `backend/app/models.py` is the same code |
| `Reports` | `backend/app/modules/reports.py` |
| `DashboardService`, `Store` | `backend/app/services/dashboard_service.py` |
| `DashboardModule` | `backend/app/modules/dashboard.py` |
| `SubmissionService` | `backend/app/services/submission_service.py` |
| `SubmissionModule` | `backend/app/modules/submission.py` |
| `ValidationService` | `backend/app/services/validation_service.py` |
| `Compliance` | `backend/app/security/compliance.py` |
| `Accounts`, `AuthModule` | `backend/app/models/user.py`, `backend/app/modules/auth.py` |
| `AuthApi` | `backend/app/api/auth.py` |
| `AuthService` | `backend/app/services/auth_service.py` |
| `Schemas`, `AuthSchemas`, `DeadlineSchemas`, `SubmissionSchemas`, `ReportSchemas` | `backend/app/schemas/` |
| `AnalysisDto`, `SubmissionDto`, `DeadlineDto` | `backend/app/schemas/dto/` |
| `Response` | `backend/app/utils/response.py` |
| `Exceptions` | `backend/app/core/exceptions.py` |
| `Wrappers`, `Json`, `Text`, `Counter`, `PyMath` | Python's own semantics: optional values, JSON-shaped dicts in insertion order, string methods, `collections.Counter`, integer division and `round` |

`backend/app/models.py` is shadowed by the `app/models/` package and holds the same `is_late`,
`last_modified`, `analysis_summary`, `to_dict` and `SubmissionToken.is_valid` code. The
`SubmissionModel` members therefore model both files; the table cites the package copy.

## Model

| member | source | states |
|---|---|---|
| Counter.Distinct | backend/app/services/nlp_service.py:205 | the distinct elements, in first-seen order: exactly the elements of the input, none repeated |
| Counter.TallyMeans | backend/app/services/nlp_service.py:205 | `Counter(tokens)`: one entry per distinct token, in first-seen order, each holding the number of times it occurs |
| Counter.SortByCount | backend/app/services/nlp_service.py:206 | sorting by count keeps exactly the same entries |
| Counter.MostCommon | backend/app/services/nlp_service.py:206 | `most_common(n)` has `min(n, entries)` entries and is a prefix of the entries sorted by count |
| Counter.MostCommonOfTally | backend/app/api/nlp.py:224-225 | the top terms are sorted by count, distinct, occur in the text with their true counts, and a term left out occurs no more often than the last one kept |
| Counter.MostCommonTies | backend/app/api/nlp.py:225 | the kept entries with any one count are the first entries of the tally with that count, in its first-seen order |
| PyMath.DivMod | backend/app/services/insights_service.py:170-179 | floor division and remainder by a positive divisor recompose the number, the remainder lying below the divisor |
| PyMath.TruncDiv | backend/app/services/insights_service.py:82 | `int(a / b)` truncates toward zero: for a negative `a` the quotient is rounded up, not down |
| PyMath.RoundHalfEven | backend/app/services/metadata_service.py:213 | `round(n / d)` is the nearest integer, a tie going to the even one |
| PyMath.RoundReal | backend/app/services/metadata_service.py:213 | `round(x)` is within a half of `x`, a tie going to the even integer |
| PyMath.RoundTenth | backend/app/services/nlp_service.py:187 | `round(x, 1)` is a whole number of tenths within a twentieth of `x`, a tie going to the even number of tenths |
| PyMath.RoundHundredth | backend/app/services/insights_service.py:147 | `round(x, 2)` is a whole number of hundredths within half a hundredth of `x`, a tie going to the even number of hundredths |
| PyMath.RoundHundredthWhole | backend/app/services/insights_service.py:147 | `round(x, 2)` keeps a whole number as it is |
| PyMath.Fixed1 | backend/app/services/insights_service.py:143 | `f"{x:.1f}"` ends in a point and one digit, and has a leading minus sign iff `x` is negative |
| PyMath.Fixed1ReadsBack | backend/app/services/insights_service.py:143 | the digits of `f"{x:.1f}"`, without sign and point, read back as the absolute value of `x` rounded to tenths |
| Text.Strip | backend/app/services/metadata_service.py:159-160 | the stripped text is empty iff the text is all white space, and otherwise neither starts nor ends with white space |
| Text.Lower | backend/app/services/auth_service.py:133 | lowering keeps the length and lowers every character on its own |
| Text.ReplaceChar | backend/app/services/metadata_service.py:197 | without the character, the result holds no occurrence of it and otherwise the same characters, so it is shorter by the number of occurrences |
| Text.Words | backend/app/services/metadata_service.py:200 | `split()` yields non-empty words holding no white space |
| Text.WordsKeepAllText | backend/app/services/metadata_service.py:200 | the words, joined again, are the text with its white space removed |
| Text.SplitOn | backend/app/modules/auth.py:593 | `split(sep)` gives at least one part, none of them holding the separator |
| Text.JoinSplitOn | backend/app/modules/auth.py:593 | joining the parts of a split with the separator gives back the text |
| Text.FirstAt | backend/app/api/nlp.py:333 | the first occurrence of the separator text, or the end when there is none |
| Text.SplitOnText | backend/app/api/nlp.py:333 | `split('\n\n')` gives at least one piece |
| Text.SplitOnTextPieces | backend/app/api/nlp.py:333 | no piece of the split holds the separator text |
| Text.JoinSplitOnText | backend/app/api/nlp.py:333 | joining the pieces with the separator text gives back the text |
| Text.NatToStringRoundTrip | backend/app/services/validation_service.py:56 | a number's decimal text reads back as the number |
| AnalysisModels.LatestOfSubmission | backend/app/services/insights_service.py:102-104 | the index found holds the submission's snapshot and no later row does; None only when no row has that submission |
| AnalysisModels.LatestOfFile | backend/app/services/insights_service.py:116-120 | the latest row with the file key (other than the skipped id), and none later; None only when no such row exists |
| AnalysisModels.LatestOfFileAppend | backend/app/services/insights_service.py:116-120 | appending a snapshot makes it the latest exactly when it matches the key; otherwise the answer is unchanged |
| InsightsService.Classify | backend/app/services/insights_service.py:58-74 | LATE iff diff > 0; LAST_MINUTE_RUSH iff -3600 <= diff <= 0 (exactly at the deadline is a rush); never NO_DEADLINE |
| InsightsService.ClassifyMonotone | backend/app/services/insights_service.py:58-74 | submitting later never gives an earlier classification (ON_TIME, then rush, then LATE) |
| InsightsService.SubmissionInstant | backend/app/services/insights_service.py:31-42 | the metadata last-modified date (with 'Z' read as +00:00, naive read as UTC) when truthy, else created_at; a parse failure is an error |
| InsightsService.DeadlineInstant | backend/app/services/insights_service.py:44-56 | a naive deadline is read in its own zone only when that is set, not 'UTC' and resolvable; every other case reads it as UTC |
| InsightsService.EvaluateSubmissionTimeliness | backend/app/services/insights_service.py:21-97 | no deadline gives NO_DEADLINE, its message and no details; details exist iff there is a deadline and the time parses; is_late iff LATE, is_last_minute iff rush, minutes truncated toward zero |
| InsightsService.ChangePercentage | backend/app/services/insights_service.py:134-137 | against a zero baseline the change is 100 for a positive count and 0 otherwise |
| InsightsService.MajorChangeIffHalfBaseline | backend/app/services/insights_service.py:134-139 | against a positive baseline the change is major iff the count moved by at least half the baseline, either way |
| InsightsService.QuotientAtLeastHalf | backend/app/services/insights_service.py:135-139 | y/p*100 >= 50 iff 2y >= p for a positive p |
| InsightsService.ComputeContributionGrowth | backend/app/services/insights_service.py:99-150 | no current snapshot gives no comparison with count 0; no other snapshot of the file gives no comparison; otherwise the counts, the difference, the percentage rounded to two places, is_major iff abs(pct) >= 50 on the exact percentage, and the message "Document changed by <pct to one decimal>%" |
| InsightsService.StoredPercentageClose | backend/app/services/insights_service.py:147 | the stored percentage is within half a hundredth of the exact one, and equals it when it is whole |
| InsightsService.ContributionTypeMonotone | backend/app/services/insights_service.py:185-200 | a larger absolute change never gets a lower band, and the sign of the change does not matter |
| InsightsService.MajorIffTopBands | backend/app/services/insights_service.py:185-192 | the major flag holds exactly for the 'Complete Rewrite' and 'Major Revision' bands |
| InsightsService.SpanOf | backend/app/services/insights_service.py:163-183 | the band is chosen by the thresholds 60, 3600 and 86400, and the unit counts are the floored divisions of the span |
| InsightsService.FormatOneHourOneMinute | backend/app/services/insights_service.py:172-176 | 3660 seconds reads "1 hour and 1 minute" (singular units) |
| InsightsService.FormatTwoDays | backend/app/services/insights_service.py:178-183 | 172800 seconds reads "2 days", with no hours clause |
| HeuristicInsights.FormatDiffersFromService | backend/app/modules/insights.py:335-357 | this copy writes 3660 seconds as "1 hours, 1 minutes" where the live service writes "1 hour and 1 minute" |
| HeuristicInsights.EvaluateTimeliness | backend/app/modules/insights.py:37-111 | the live classification rules, but every naive deadline is read as UTC and the timezone is ignored |
| HeuristicInsights.TimelinessAgreesWithoutZone | backend/app/modules/insights.py:64-69 | when the deadline does not use its own zone, both copies give the same classification and details |
| HeuristicInsights.TimelinessDiffersWithZone | backend/app/modules/insights.py:67-69 | a naive deadline in a zone one hour east: this copy calls a submission 30 minutes before UTC midnight a rush, the live copy calls it late |
| HeuristicInsights.GrowthMessageOf | backend/app/modules/insights.py:164-175 | an addition message iff the change is positive, a reduction message iff it is negative, no-change iff it is zero; the 'major' wording iff major; a change message carries the signed word change and the exact percentage it shows |
| HeuristicInsights.ChangeMessageText | backend/app/modules/insights.py:164-173 | the shown text opens with "Major" iff the change is major, and closes with "% increase)" for a gain and "% decrease)" for a loss |
| HeuristicInsights.ComputeContributionGrowth | backend/app/modules/insights.py:113-188 | no current snapshot gives no comparison; no earlier snapshot of the file gives the no-prior message; otherwise the counts, the change, the percentage rounded to two places, the major flag on the exact percentage, the matching message and the time between the two snapshots formatted by `_format_time_difference` |
| HeuristicInsights.RoundedPercentageAtHundred | backend/app/modules/insights.py:182 | going from 30000 to 60001 words is a change above 100% that is stored as 100.0, so the "> 100" test at line 304 does not fire |
| HeuristicInsights.GrowthAgreesWithService | backend/app/modules/insights.py:113-188 | this copy agrees with the live service on the comparison, the counts, the percentage and the major flag |
| HeuristicInsights.GrowthWithoutComparison | backend/app/modules/insights.py:125-150 | with no comparison there is no percentage, nothing is major, and the message is one of the two no-history texts |
| HeuristicInsights.Names | backend/app/modules/insights.py:256-258 | the list of pattern names, in order |
| HeuristicInsights.RevisionPattern | backend/app/modules/insights.py:214-227 | 'high_revision_count' iff the count is > 10, 'minimal_revisions' iff it is 0 or 1, and nothing for 2..10 |
| HeuristicInsights.EditingSpan | backend/app/modules/insights.py:229-254 | there is a span only when both dates are set (a failed parse or a naive-aware mix gives none) |
| HeuristicInsights.SpanPattern | backend/app/modules/insights.py:240-251 | 'short_editing_window' iff the span is <= 2 h, 'extended_editing_period' iff it is >= 7 days |
| HeuristicInsights.DetectEditingPatterns | backend/app/modules/insights.py:201-259 | no metadata gives no patterns and its message; otherwise the revision pattern then the span pattern, the count message, at most two patterns |
| HeuristicInsights.SpanPatternsExclusive | backend/app/modules/insights.py:240-251 | the short window and the extended period never occur together |
| HeuristicInsights.AssessTimelinessFlags | backend/app/modules/insights.py:293-299 | 'last_minute_submission' iff rush, 'late_submission' iff LATE |
| HeuristicInsights.AssessGrowthFlags | backend/app/modules/insights.py:301-305 | 'major_changes' iff the contribution is major; its risk indicator iff it is major and the change exceeds 100 |
| HeuristicInsights.AssessContentFlags | backend/app/modules/insights.py:307-318 | 'incomplete_content' iff there is an analysis with word_count < MIN_DOCUMENT_WORDS; 'validation_warnings' iff the document is not complete |
| HeuristicInsights.AssessCounts | backend/app/modules/insights.py:290-318 | every risk indicator accompanies a flag, so there are no more indicators than flags, and at most four flags |
| HeuristicInsights.AssessFlagsFacts | backend/app/modules/insights.py:290-318 | each flag and indicator is in the assessment exactly when its own check fires |
| HeuristicInsights.RaiseFacts | backend/app/modules/insights.py:294-305 | one check adds exactly its flag when it fires, and at most one indicator |
| HeuristicInsights.AssessFlags | backend/app/modules/insights.py:290-318 | appending check by check yields the assessment defined by the checks |
| HeuristicInsights.CalculateConfidenceLevel | backend/app/modules/insights.py:359-382 | high iff all three factors are present, medium iff two, low iff at most one |
| HeuristicInsights.FactorCount | backend/app/modules/insights.py:361-375 | at most three factors |
| HeuristicInsights.GenerateSummaryMessage | backend/app/modules/insights.py:384-403 | the base sentence for the classification, then the development clause iff 'major_changes', then the completeness clause iff an incomplete or validation flag |
| HeuristicInsights.OverallAssessment | backend/app/modules/insights.py:290-324 | the flags and indicators are those of the assessment checks; high confidence iff all three factors, medium iff two, low iff at most one; the summary is the base sentence, the development clause iff 'major_changes', the completeness clause iff an incomplete or validation flag |
| HeuristicInsights.GenerateHeuristicInsights | backend/app/modules/insights.py:268-329 | the timeliness, growth and editing patterns of this copy (none without metadata, otherwise the revision pattern then the span pattern); the flags and indicators of the assessment; indicators never outnumber flags; late and rush never both; the confidence rule and the summary sentence |
| HeuristicInsights.SubmissionViewOf | backend/app/modules/insights.py:54-57 | a last-modified date is read only from an analysis with metadata |
| MetadataService.ApplyProps | backend/app/services/metadata_service.py:57-73 | each truthy structured property overwrites its field and a falsy one leaves the default; a revision that does not parse as an integer counts 0 |
| MetadataService.FirstTagged | backend/app/services/metadata_service.py:84-96 | the first element whose tag ends with the suffix, with no earlier one; None only when no element has it |
| MetadataService.ApplyApp | backend/app/services/metadata_service.py:79-96 | only the application and word count change: the first Application element's text or 'Unknown', the first Words element's integer or 0 |
| MetadataService.Finish | backend/app/services/metadata_service.py:116-140 | fails iff the editor is None (the `in` test raises); otherwise the unavailable editor becomes a known author, an editor containing 'python-docx' becomes 'Unavailable', the author is kept |
| MetadataService.NotContainsPlaceholder | backend/app/services/metadata_service.py:120-122 | 'Unavailable' does not contain 'python-docx', so the screen after the fallback cannot undo itself |
| MetadataService.ShorterNeverContains | backend/app/services/metadata_service.py:121 | a text shorter than a pattern never contains it |
| MetadataService.Contributors | backend/app/services/metadata_service.py:124-140 | at most two entries; the owner first iff the author is known; two entries never share a name; no entry is unknown; the editor is listed iff known |
| MetadataService.Extract | backend/app/services/metadata_service.py:34-149 | a file that is not a package gives "Invalid DOCX file format" |
| MetadataService.ExtractDocxMetadata | backend/app/services/metadata_service.py:34-149 | filling the dict step by step gives exactly the layered extraction |
| MetadataService.CoreNeverOverwrites | backend/app/services/metadata_service.py:103-109 | core.xml fills created and modified only when empty and the editor only while 'Unavailable'; every other field is untouched |
| MetadataService.DefaultsWhenNothingKnown | backend/app/services/metadata_service.py:36-45 | no properties and no readable archive give the defaults and no contributors |
| MetadataService.EditorFallsBackToAuthor | backend/app/services/metadata_service.py:116-118 | an unavailable editor becomes the known author |
| MetadataService.OnlyEditorIsScreened | backend/app/services/metadata_service.py:120-122 | an editor containing 'python-docx' becomes 'Unavailable' while the author is kept as it is |
| MetadataService.NullEditorFailsExtraction | backend/app/services/metadata_service.py:108-121 | a `lastModifiedBy` element with no text stores None as the editor, and the screen then fails the whole extraction |
| MetadataService.ExtractFixed | backend/app/services/metadata_service.py:103-109 | the corrected extraction fails only for a file that is not a package |
| MetadataService.FixedKeepsEditor | backend/app/services/metadata_service.py:108-109 | the corrected core.xml step never replaces the editor with None |
| MetadataService.FixedAgreesWhenSourceSucceeds | backend/app/services/metadata_service.py:103-109 | wherever the source succeeds the corrected extraction gives the same metadata |
| MetadataService.CoreNullEditorSticks | backend/app/services/metadata_service.py:108-109 | once None is stored as the editor it stays None for the rest of the loop |
| MetadataService.CoreFixedAgrees | backend/app/services/metadata_service.py:103-109 | when the source loop keeps an editor, the corrected loop gives the same dict |
| MetadataService.ComputeContentStatistics | backend/app/services/metadata_service.py:181-229 | empty text gives zeros; words are whitespace tokens, sentences non-blank pieces between runs of . ! ?, paragraphs non-blank lines, characters without spaces are the length less the spaces `replace(' ', '')` removes, pages max(1, round(words/250)), page_count equals estimated_pages, both averages per max(sentences, 1) rounded to two places |
| MetadataService.EstimatedPages | backend/app/services/metadata_service.py:213 | at least one page, otherwise the nearest whole page count |
| MetadataService.Max1 | backend/app/services/metadata_service.py:216-217 | max(1, n) is at least 1 and n, and is n for n >= 1 |
| MetadataService.PerSentence | backend/app/services/metadata_service.py:216-217 | the average times max(sentences, 1) gives back the total, and it is never negative |
| MetadataService.PagesRoundHalfToEven | backend/app/services/metadata_service.py:213 | round halves to even: 375 and 625 words are both 2 pages, 100 words 1 page |
| MetadataService.BlankTextStatistics | backend/app/services/metadata_service.py:183-213 | whitespace-only non-empty text has no words yet one estimated page |
| MetadataService.ValidateDocumentCompleteness | backend/app/services/metadata_service.py:231-239 | this validator always reports complete with no warnings |
| MetadataService.PreliminaryValidation | backend/app/services/metadata_service.py:303-307 | meets_requirements iff complete and word_count >= the minimum; completeness and warnings are passed through |
| MetadataService.MeetsRequirementsOnWordCount | backend/app/services/metadata_service.py:231-307 | with this validator a document meets the requirements exactly when it has enough words |
| MetadataService.SnapshotKey | backend/app/services/metadata_service.py:245 | the key starts with the original filename and '_' and adds at most 8 hash characters |
| MetadataService.SameFileSameKey | backend/app/services/metadata_service.py:245 | the same filename and the same first 8 hash characters give the same key |
| MetadataService.SnapshotChange | backend/app/services/metadata_service.py:260-269 | a change percentage exists iff a predecessor with a positive count exists, stored rounded to two places; major_changes iff abs(pct) >= 50 on the exact percentage |
| MetadataService.NewSnapshot | backend/app/services/metadata_service.py:244-269 | the new row has the next id, the key from the file name and hash, the submission, count, hash and time; without a predecessor it has no change and is not major |
| MetadataService.SnapshotTable.CreateAnalysisSnapshot | backend/app/services/metadata_service.py:241-278 | with no hash nothing changes and an error is returned; otherwise exactly the new row is appended, compared against the latest row with the same key |
| MetadataService.NewSnapshotComparesWithPredecessor | backend/app/services/insights_service.py:116-120 | right after a snapshot is appended, the growth comparison uses the row that was the latest for its key before |
| MetadataService.ExcludingAbsentId | backend/app/services/insights_service.py:116-120 | excluding an id no row has changes nothing |
| MetadataApi.Stored | backend/app/api/metadata.py:108-119 | the existing row or a new one carries the metadata, statistics, text, completeness and warnings; the existing row's other columns are kept |
| MetadataApi.OnlyFromPending | backend/app/api/metadata.py:57-58 | the run is refused iff the status is not PENDING, and a refused run changes nothing |
| MetadataApi.RunsEndTerminal | backend/app/api/metadata.py:60-128 | a run from PENDING ends FAILED, WARNING or COMPLETED, records its start, and reports failure iff FAILED |
| MetadataApi.ExtractionErrorFails | backend/app/api/metadata.py:69-84 | a metadata or text error sets FAILED with that error as message, stores nothing and sets no completion time |
| MetadataApi.FinalStatusFollowsWarnings | backend/app/api/metadata.py:86-128 | a stored run ends WARNING iff the validator gave warnings and COMPLETED iff it gave none, with a completion time |
| MetadataApi.LiveRunNeverWarns | backend/app/api/metadata.py:90-125 | with the live no-op validator a run never produces WARNING |
| MetadataApi.StoreErrorFails | backend/app/api/metadata.py:208-213 | an exception while storing gives FAILED with "Processing error: " and the exception text |
| MetadataApi.Reset | backend/app/api/metadata.py:277-286 | the reset row is PENDING with no times, no error and no analysis result |
| MetadataApi.ReprocessStartsAfresh | backend/app/api/metadata.py:269-294 | reprocessing is never refused, and a stored run builds a fresh analysis result from the new extraction |
| MetadataApi.Submission.constructor | backend/app/api/metadata.py:52-57 | a new row is PENDING with no times, no error and no result |
| MetadataApi.Submission.Analyze | backend/app/api/metadata.py:42-216 | the row moves as the step function says; the snapshot table is unchanged for a refused or failed extraction or a missing hash, and otherwise gains exactly the new snapshot row |
| MetadataApi.Submission.Reprocess | backend/app/api/metadata.py:269-294 | the row moves as the step function says from the reset row; earlier snapshots are kept, and the table gains exactly the new snapshot row when extraction succeeds and the file has a hash |
| MetadataModule.ApplyCore | backend/app/modules/metadata.py:118-122 | this copy's core.xml loop never touches the editor or the author |
| MetadataModule.Extract | backend/app/modules/metadata.py:49-133 | fails iff not a package; no contributors; the editor and author are only the truthy properties, else 'Unavailable' |
| MetadataModule.NoEditorFallback | backend/app/modules/metadata.py:81-127 | an author with no editor keeps 'Unavailable' as editor here, while the live service copies the author |
| MetadataModule.NoPlaceholderScreen | backend/app/modules/metadata.py:81-82 | an editor 'python-docx' is kept by this copy |
| MetadataModule.ComputeContentStatistics | backend/app/modules/metadata.py:165-212 | the live statistics without the page_count alias |
| MetadataModule.Messages | backend/app/modules/metadata.py:219-254 | one message per warning, in order |
| MetadataModule.FirstLine | backend/app/modules/metadata.py:235-240 | the first line is a prefix of the text with no newline in it |
| MetadataModule.FirstLineContains | backend/app/modules/metadata.py:235-240 | the first line contains b iff b occurs with no newline before its end (`.` does not cross lines) |
| MetadataModule.SpanAtStartSound | backend/app/modules/metadata.py:235-245 | a match found at the start of the text is a span of the pattern |
| MetadataModule.SpanAtStartComplete | backend/app/modules/metadata.py:235-245 | every span of the pattern at the start is found by the search |
| MetadataModule.SpanShift | backend/app/modules/metadata.py:244-245 | a span in the tail is a span in the text one place on, and back |
| MetadataModule.SearchSpanMeans | backend/app/modules/metadata.py:244-245 | `re.search(a.*b)` finds a match iff some span with a, then b on the same line exists |
| MetadataModule.Raise | backend/app/modules/metadata.py:219-254 | a firing check appends its warning at the end; otherwise nothing changes |
| MetadataModule.Checks | backend/app/modules/metadata.py:214-256 | at most five warnings |
| MetadataModule.Validate | backend/app/modules/metadata.py:214-256 | at most five warnings |
| MetadataModule.ChecksWarnings | backend/app/modules/metadata.py:219-254 | each warning is present iff its check fails: fewer than the minimum, more than the maximum, under 3 sentences, a placeholder, repeated lines |
| MetadataModule.ValidateWarnings | backend/app/modules/metadata.py:214-256 | the same iffs stated on the statistics and the text: the placeholder search on the lowered text, repetition only for texts over 100 characters |
| MetadataModule.ChecksOrder | backend/app/modules/metadata.py:219-254 | warnings appear in check order |
| MetadataModule.ValidateOrder | backend/app/modules/metadata.py:214-256 | the validator's warnings appear in check order |
| MetadataModule.RaiseKeepsOrder | backend/app/modules/metadata.py:219-254 | appending a later-ranked warning keeps the order |
| MetadataModule.ValidateCompleteness | backend/app/modules/metadata.py:220-231 | incomplete iff the word-minimum or the sentence warning is raised |
| MetadataModule.ValidateDocumentCompleteness | backend/app/modules/metadata.py:214-256 | the checks in sequence and the pattern loop give exactly the validator's verdict and warnings |
| MetadataModule.FindPlaceholder | backend/app/modules/metadata.py:243-247 | the loop finds a match iff some placeholder pattern matches the lowered text |
| MetadataModule.ValidateMessages | backend/app/modules/metadata.py:214-256 | the stored messages keep the verdict, and are the validator's warnings rendered one by one, in order |
| MetadataModule.SetOfSeqSize | backend/app/modules/metadata.py:253 | the set of the lines is no larger than the list, and as large iff there is no duplicate |
| MetadataModule.RepeatedIffDuplicate | backend/app/modules/metadata.py:252-254 | the repetition test holds iff some long line occurs twice; the `len > 1` half never decides |
| MetadataModule.ShortTextNeverRepeated | backend/app/modules/metadata.py:250 | a text of at most 100 characters never gets the repetition warning |
| MetadataModule.LoremIpsumIsPlaceholder | backend/app/modules/metadata.py:236-246 | 'lorem ipsum' in any letter case raises the placeholder warning |
| MetadataModule.LowerKeepsLines | backend/app/modules/metadata.py:243 | lowering creates no line breaks |
| MetadataModule.BracketsMatch | backend/app/modules/metadata.py:235 | a '[' followed by ']' on the same line matches the first pattern |
| MetadataModule.BracketSpan | backend/app/modules/metadata.py:235 | such brackets form a span of the pattern |
| MetadataModule.BracketsArePlaceholder | backend/app/modules/metadata.py:235-246 | such brackets raise the placeholder warning |
| MetadataModule.CompleteDespiteWarnings | backend/app/modules/metadata.py:219-231 | enough words and sentences make a document complete even when other warnings fire (e.g. too many words) |
| MetadataModule.ShortDocumentEndsWarning | backend/app/modules/metadata.py:334-455 | with the checked validator a run of a document below the word minimum ends WARNING and marks it incomplete |
| NlpApi.Ratio | backend/app/api/nlp.py:228 | a quotient that is 0 for a zero denominator and otherwise gives back the numerator when multiplied by it |
| NlpApi.Ratio3 | backend/app/api/nlp.py:228-234 | the ratio rounded to three places is never negative, 0 for no words, at most 1 when a <= b, exactly 1 when a == b > 0 |
| NlpApi.Ratio3Close | backend/app/api/nlp.py:234 | the ratio rounded to three places is within half a thousandth of the exact one |
| NlpApi.RoundedShareBounds | backend/app/api/nlp.py:234 | rounding a share at most 1 keeps it at most 1000 thousandths, and a share of 1 stays exactly 1000 |
| NlpApi.NonPositiveFactor | backend/app/api/nlp.py:234 | an integer error term within half the denominator is not positive |
| NlpApi.ReadingLevel | backend/app/api/nlp.py:182-192 | the five bands with inclusive upper bounds 6, 9, 12 and 16, each as an iff |
| NlpApi.ReadingLevelMonotone | backend/app/api/nlp.py:182-192 | a higher grade never gets a lower reading level |
| NlpApi.InterpretReadingEase | backend/app/api/nlp.py:374-389 | the seven reading-ease bands at 90, 80, 70, 60, 50 and 30, inclusive lower bounds |
| NlpApi.AnalyzeReadability | backend/app/api/nlp.py:169-204 | a failing library gives the 'Readability analysis failed' error; otherwise the scores, the level for the grade, the interpretation for the ease, and the grade rounded to one place |
| NlpApi.TokenAnalysisMeans | backend/app/api/nlp.py:206-238 | at most ten top terms, sorted by count and distinct, each kept by the filter and counted exactly; filtered never exceeds total; diversity 0 for no kept words |
| NlpApi.Labels | backend/app/api/nlp.py:261-262 | one label per entity |
| NlpApi.OfLabelCount | backend/app/api/nlp.py:261-273 | a label's group holds as many entities as the label occurs |
| NlpApi.EntitySummaryMeans | backend/app/api/nlp.py:257-290 | the six key types in order with their full groups; counts list each label once with its occurrence count; total is the number of entities |
| NlpApi.OfLabelAbsent | backend/app/api/nlp.py:276-283 | a label no entity has gives an empty group (the `.get(…, [])` default) |
| NlpApi.GroupsOfMeans | backend/app/api/nlp.py:258-271 | the grouping has a key iff some entity has that label, and its group is that label's entities in order |
| NlpApi.EntityStep | backend/app/api/nlp.py:261-273 | one loop step adds the entity to its group and bumps its label's count |
| NlpApi.GroupEntities | backend/app/api/nlp.py:258-273 | the loop builds exactly the grouping and the counter of labels |
| NlpApi.ExtractNamedEntities | backend/app/api/nlp.py:245-295 | the method gives exactly the entity summary of the (truncated) text |
| NlpApi.RecordOf | backend/app/api/nlp.py:266-271 | an entity record keeps the text and offsets; its confidence is 0.5 when the entity has none, otherwise the entity's confidence rounded to two places |
| NlpApi.OverallSentiment | backend/app/api/nlp.py:309-315 | positive iff compound >= 0.05, negative iff <= -0.05, neutral strictly between |
| NlpApi.AnalyzeSentiment | backend/app/api/nlp.py:297-326 | fails iff the analyser fails; otherwise the overall label for compound and confidence equal to its absolute value |
| NlpApi.IndicatorScore | backend/app/api/nlp.py:357-359 | the score counts indicators that occur as substrings, 0 iff none and all iff every one occurs |
| NlpApi.DetectLanguage | backend/app/api/nlp.py:353-367 | the indicator score of the lowered text, at most 10; likely English iff >= 3; confidence high >= 5, medium >= 3, low otherwise |
| NlpApi.LikelyEnglishIffNotLow | backend/app/api/nlp.py:361-366 | likely English exactly when confidence is not low |
| NlpApi.ComputeTextStatistics | backend/app/api/nlp.py:328-350 | an error iff the sentence tokeniser fails; otherwise the characters, sentences and paragraphs, both averages rounded to two places, and the lexical diversity of the whitespace words |
| NlpApi.Paragraphs | backend/app/api/nlp.py:333 | there are no more paragraphs than pieces of the split |
| NlpApi.OneParagraph | backend/app/api/nlp.py:333 | a text without a blank-line separator is one paragraph, or none when blank |
| NlpApi.WordLengthMeans | backend/app/api/nlp.py:337 | the average word length is the non-space characters per word (within rounding), and 0 without words |
| NlpApi.DiversityMeans | backend/app/api/nlp.py:345 | the lexical diversity is 0 without words, otherwise in (0, 1], and 1 iff no word repeats; the service's vocabulary richness (nlp_service.py:213) is the same share |
| NlpApi.LocalAnalysis | backend/app/api/nlp.py:120-156 | insufficient iff the text is empty or its stripped length is under 10, with the fixed error text |
| NlpApi.SectionsAreIndependent | backend/app/api/nlp.py:135-156 | readability and language do not depend on the other libraries |
| NlpApi.BraceSpan | backend/app/api/nlp.py:481-483 | the greedy `\{.*\}` match runs from the first '{' to the last '}' after it; none iff no '{' precedes a '}' |
| NlpApi.LastIndex | backend/app/api/nlp.py:481 | the last position holding the character, none iff absent |
| NlpApi.ParseAiResponse | backend/app/api/nlp.py:477-503 | no braces give the plain summary; otherwise the parsed JSON, or the parse-failure dict with the error text |
| NlpApi.PlainSummaryShape | backend/app/api/nlp.py:486-496 | the fallback dict has the first 500 characters as summary and no key topics |
| NlpApi.ReadabilityAdvice | backend/app/api/nlp.py:548-561 | at most one readability recommendation |
| NlpApi.DiversityAdvice | backend/app/api/nlp.py:564-571 | at most one vocabulary recommendation |
| NlpApi.AiAdvice | backend/app/api/nlp.py:574-580 | one high-priority 'ai_suggestion' per improvement, in order |
| NlpApi.GenerateRecommendations | backend/app/api/nlp.py:542-587 | the method builds exactly the recommendation list |
| NlpApi.AppendAiAdvice | backend/app/api/nlp.py:575-580 | the loop appends the AI advice after what was there |
| NlpApi.RecommendationsMeans | backend/app/api/nlp.py:542-582 | readability before vocabulary before AI; grade > 16 gives the simplify advice, < 8 the sophistication advice; diversity < 0.3 the vocabulary advice; all AI items follow |
| NlpApi.MetricsOf | backend/app/api/nlp.py:520-530 | each metric exists iff its section succeeded, and carries that section's values |
| NlpApi.Consolidate | backend/app/api/nlp.py:505-540 | fails iff the local results are the insufficient-text dict (its None sections raise); otherwise the sections, the metrics and the recommendations |
| NlpApi.ShortTextFailsConsolidation | backend/app/api/nlp.py:126-133 | a text under the guard always fails consolidation |
| NlpApi.ConsolidateFixed | backend/app/api/nlp.py:505-540 | the corrected consolidation agrees where the source succeeds and gives empty metrics and no advice for a short text |
| NlpApi.NineCharacterTextFails | backend/app/api/nlp.py:126-133 | "too short" (9 characters) is under the guard and its consolidation fails |
| NlpService.AnalyzeReadability | backend/app/services/nlp_service.py:159-194 | None iff textstat is missing or fails; otherwise the scores, the level for the grade and the grade rounded to one place |
| NlpService.AnalyzeTokens | backend/app/services/nlp_service.py:196-219 | present iff NLTK is installed and tokenising succeeds, and then the statistics of the lowered tokens |
| NlpService.StatsMeans | backend/app/services/nlp_service.py:201-214 | at most 20 top terms, sorted by count and distinct, each alphanumeric and not a stopword and counted exactly; filtered never exceeds total |
| NlpService.RatioShare | backend/app/services/nlp_service.py:213 | a share of a positive whole lies in (0, 1] and is 1 iff the parts are equal |
| NlpService.TextsOfAbsent | backend/app/services/nlp_service.py:232-236 | a label no entity has collects no texts |
| NlpService.TextGroupsMeans | backend/app/services/nlp_service.py:232-236 | the grouping has a key iff some entity has that label, and collects that label's texts in order |
| NlpService.Summarize | backend/app/services/nlp_service.py:239 | at most 10 texts, each from the group and none twice; when there are at most 10 distinct texts all are kept |
| NlpService.SummaryMeans | backend/app/services/nlp_service.py:238-247 | total is the number of entities; types are the labels in first-seen order; one summary per type, within its limit and drawn from its group |
| NlpService.GroupTexts | backend/app/services/nlp_service.py:232-236 | the loop builds exactly the grouping and the first-seen label order |
| NlpService.GroupStep | backend/app/services/nlp_service.py:233-236 | one step adds the text to its label and appends a new label at the end |
| NlpService.StrictOverall | backend/app/services/nlp_service.py:268 | positive iff compound > 0.05, negative iff < -0.05, neutral on the closed band |
| NlpService.SentimentCopiesDiffer | backend/app/services/nlp_service.py:268 | this copy and the api copy disagree exactly at compound = 0.05 and -0.05 |
| NlpService.AnalyzeSentiment | backend/app/services/nlp_service.py:254-274 | present iff NLTK is installed and VADER succeeds; the four scores and the strict overall label |
| NlpService.DetectLanguage | backend/app/services/nlp_service.py:291-297 | always 'en' with confidence 0.95 |
| NlpService.Prompt | backend/app/services/nlp_service.py:307-311 | the optional assignment header, the instruction, then the first 5000 characters of the text, and nothing else |
| NlpService.SummaryOfResponse | backend/app/services/nlp_service.py:314-319 | a summary xor an error; a summary iff the response text is non-empty; an empty response gives "No response from Gemini" |
| NlpService.EntitiesWith | backend/app/services/nlp_service.py:227-247 | present iff a model is loaded and succeeds on the first 100000 characters, and then its summary |
| NlpService.ComputeTextStatistics | backend/app/services/nlp_service.py:276-289 | present iff textstat is installed and its calls succeed, and then exactly the counts it reports |
| NlpService.LocalResultsOf | backend/app/services/nlp_service.py:125-146 | insufficient iff the text is empty or its stripped length is under 10, with the fixed error text |
| NlpService.Service.constructor | backend/app/services/nlp_service.py:37-40 | no model, nothing initialised |
| NlpService.Service.InitializeNltk | backend/app/services/nlp_service.py:42-73 | initialised once NLTK is installed and its data is available, and stays so; nothing else changes |
| NlpService.Service.InitializeSpacy | backend/app/services/nlp_service.py:75-100 | the first loadable model of the three names, else the old model; nothing else changes |
| NlpService.Service.InitializeGemini | backend/app/services/nlp_service.py:102-123 | configured when the library is installed and a non-empty key configures; otherwise unchanged |
| NlpService.Service.ExtractNamedEntities | backend/app/services/nlp_service.py:221-252 | a missing model is loaded first; the result is the summary with the settled model |
| NlpService.Service.PerformLocalAnalysis | backend/app/services/nlp_service.py:125-157 | the local results of the text; short texts change no state, others settle the model and NLTK |
| NlpService.Service.GenerateAiSummary | backend/app/services/nlp_service.py:299-324 | Gemini is initialised on demand; unconfigured gives "Gemini AI not configured" and no summary |
| NlpService.FirstLoadedAt | backend/app/services/nlp_service.py:85-92 | the loop stops at the first name that loads |
| NlpService.FirstLoadedNone | backend/app/services/nlp_service.py:85-96 | when no name loads there is no model |
| NlpService.UnconfiguredWithoutKey | backend/app/services/nlp_service.py:104-118 | without the library or a non-empty key Gemini is never configured |
| SubmissionModel.IsLate | backend/app/models/submission.py:45-68 | never late without a truthy deadline id or a found deadline; with a resolvable non-UTC zone, late iff created_at is after the localised deadline; otherwise naive comparison |
| SubmissionModel.AtDeadlineNotLate | backend/app/models/submission.py:62-66 | a submission exactly at the deadline is not late (strict comparison) |
| SubmissionModel.LateIsMonotone | backend/app/models/submission.py:45-68 | a submission later than a late one is late too |
| SubmissionModel.UtcZoneIgnoresTable | backend/app/models/submission.py:57-66 | with no zone or 'UTC' the zone table plays no part |
| SubmissionModel.LastModified | backend/app/models/submission.py:70-73 | updated_at when set, else created_at |
| SubmissionModel.AnalysisSummaryOf | backend/app/models/submission.py:75-84 | None iff there is no analysis; word count iff statistics exist; readability score and completeness copied |
| SubmissionModel.WithZ | backend/app/models/submission.py:90-92 | the text gains a 'Z' only when it has neither a trailing 'Z' nor a '+', so the result always carries a zone and extends the input by at most one character |
| SubmissionModel.WithZIdempotent | backend/app/models/submission.py:90-92 | suffixing twice is suffixing once |
| SubmissionModel.OptWithZ | backend/app/models/submission.py:94-104 | None stays None, an empty text stays empty, any other text is suffixed |
| SubmissionModel.TimestampsOf | backend/app/models/submission.py:89-104 | created_at always carries a zone and extends the isoformat text; last_modified falls back to created_at; the processing times are suffixed when set |
| SubmissionModel.IsValid | backend/app/models/submission.py:144-152 | invalid when inactive, expired, or a truthy usage limit is reached; otherwise valid |
| SubmissionModel.ValidityOnlyDecays | backend/app/models/submission.py:144-152 | a token valid later with more uses was valid earlier with fewer |
| Reports.CalculateSummaryStatistics | backend/app/modules/reports.py:324-385 | the loop over analysed submissions gives exactly the statistics function |
| Reports.NothingAnalysedIsZero | backend/app/modules/reports.py:327-340 | with no analysed submission every statistic is zero |
| Reports.NothingAnalysedLists | backend/app/modules/reports.py:338-366 | with no analysed submission no word count, score or classification is collected |
| Reports.IgnoredSubmission | backend/app/modules/reports.py:346-366 | a submission with no truthy word count, no score and no counted classification changes no statistic |
| Reports.PercentagesSumTo100 | backend/app/modules/reports.py:376-383 | the three percentages sum to 100 when some classification was counted, and are all 0 otherwise |
| Reports.SharesSum | backend/app/modules/reports.py:381-383 | three shares of a positive total sum to 100 |
| Reports.StatsColumns | backend/app/modules/reports.py:260-268 | the statistics columns form a dict of the first group, empty iff there are no statistics |
| Reports.ReadabilityColumns | backend/app/modules/reports.py:271-279 | the seven readability and analysis columns, a dict of the second group |
| Reports.EntityCounts | backend/app/modules/reports.py:284-289 | the four entity columns, a dict of the third group |
| Reports.EntityColumns | backend/app/modules/reports.py:282-289 | the entity columns are empty iff there are no entity counts |
| Reports.AiColumns | backend/app/modules/reports.py:292-293 | the AI summary column is present iff the summary is truthy |
| Reports.FilledBlankGet | backend/app/modules/reports.py:304-305 | after the fill, every listed field reads '' and every other key is unchanged |
| Reports.FillBlank | backend/app/modules/reports.py:304-305 | the loop produces the filled row |
| Reports.FillFresh | backend/app/modules/reports.py:304-305 | filling distinct new fields appends them in order |
| Reports.ColumnsFresh | backend/app/modules/reports.py:245-293 | the analysis columns form a dict and none collides with a base column |
| Reports.JoinGroups | backend/app/modules/reports.py:256-293 | concatenating column groups in order keeps a dict |
| Reports.AnalysedRowIsUpdate | backend/app/modules/reports.py:256-293 | an analysed row is the base row updated with the analysis columns |
| Reports.UnanalysedRowIsFill | backend/app/modules/reports.py:294-305 | an unanalysed row is the base row with the seventeen fields filled |
| Reports.AnalysisFieldsDistinct | backend/app/modules/reports.py:296-303 | the seventeen fill fields are distinct analysis columns |
| Reports.UnanalysedRowIsBlank | backend/app/modules/reports.py:294-305 | an unanalysed row reads '' for every analysis field and the base value otherwise |
| Reports.NonEmptyExportFails | backend/app/modules/reports.py:249 | as written, any non-empty export fails, because the row reads a column the submission does not have |
| Reports.CsvRowsMeans | backend/app/modules/reports.py:244-307 | one row per submission, in order, each the corrected row with a blank email |
| Reports.GenerateCsvRows | backend/app/modules/reports.py:244-307 | the loop produces the corrected rows |
| Reports.BuildRow | backend/app/modules/reports.py:245-305 | building one row gives the corrected row with a blank email |
| Reports.BaseFileSize | backend/app/modules/reports.py:251 | the 'File Size (MB)' cell of the base row is the size in MiB rounded to two places |
| Reports.FileSizeColumn | backend/app/modules/reports.py:251 | the 'File Size (MB)' cell of a full row is the size in MiB rounded to two places |
| Reports.SizeInMbClose | backend/app/modules/reports.py:251 | the shown size is within half a hundredth of the exact size in MiB |
| Store.Database.constructor | backend/app/services/dashboard_service.py:19-23 | the store starts with no deadlines, submissions, analyses, snapshots or audit entries |
| Store.Linked | backend/app/services/dashboard_service.py:311 | the ids are exactly the submissions whose deadline id is the given one |
| Store.CountOfGrouped | backend/app/services/dashboard_service.py:74-80 | a grouped count row gives its class's count, and an absent class counts 0 |
| DashboardService.ServiceKeysAreOnePerClass | backend/app/services/dashboard_service.py:82-97 | each classification has its own key among the four, and every key has a classification |
| DashboardService.TimelinessStatistics | backend/app/services/dashboard_service.py:71-99 | the four keys, each holding the grouped count of its classification, 0 when absent |
| DashboardService.UpperIs | backend/app/services/dashboard_service.py:154 | a text whose characters are the upper-cased ones is the upper-cased text |
| DashboardService.StatusNameIsUpperValue | backend/app/services/dashboard_service.py:154 | a status's enum name is its stored value upper-cased |
| DashboardService.StatusByName | backend/app/services/dashboard_service.py:154 | the name lookup finds the status with that name, and none when no status has it |
| DashboardService.StatusFilter | backend/app/services/dashboard_service.py:152-154 | a falsy status applies no filter; otherwise the status named by its upper-cased text, or the KeyError text when no status has that name |
| DashboardService.FilterAcceptsEveryValue | backend/app/services/dashboard_service.py:154 | any letter case of a stored status value selects that status |
| DashboardService.ApplyPatch | backend/app/services/dashboard_service.py:275-288 | each key present overwrites its field and the others are kept; a datetime that does not parse fails the update; the owner is kept; updated_at becomes the commit time exactly when some column changed, by its `onupdate` default (models/base.py:36), and is kept otherwise |
| DashboardService.EmptyPatchIsIdentity | backend/app/services/dashboard_service.py:275-288 | an empty patch changes nothing, updated_at included |
| DashboardService.PatchIdempotent | backend/app/services/dashboard_service.py:275-288 | applying a patch twice at one time is applying it once |
| DashboardService.UpdateDeadline | backend/app/services/dashboard_service.py:264-297 | a deadline the user does not own gives "Deadline not found" and no change; otherwise the patched row, with updated_at refreshed when a column changed, replaces it, or a parse error leaves the table as it was |
| DashboardService.Cascaded | backend/app/services/dashboard_service.py:311-328 | the remaining submissions are exactly those not linked to the deadline, unchanged |
| DashboardService.DeleteDeadline | backend/app/services/dashboard_service.py:299-339 | not owned gives "Deadline not found" and no change; otherwise the deadline, its submissions and their analyses are removed, and the audit entries of those submissions are kept with no submission |
| DashboardService.Detached | backend/app/models/submission.py:42 | deleting submissions keeps every audit entry, in order, with its event; an entry of a deleted submission loses its submission id, and every other entry is unchanged |
| DashboardService.DeleteSubmission | backend/app/services/dashboard_service.py:206-238 | not owned gives "Submission not found" and no change; otherwise the submission and its analysis are removed, its audit entries are kept with no submission, and its snapshots are kept |
| DashboardModule.Max1 | backend/app/modules/dashboard.py:90 | max(total, 1) is at least 1 and at least the total |
| DashboardModule.ShareFacts | backend/app/modules/dashboard.py:166 | the rounded share is within 0.05 of the exact one, 0 for no items, within 0 and 100 for a part, 100 for the whole |
| DashboardModule.CompletionRate | backend/app/modules/dashboard.py:90 | the rounded completion rate is within 0.05 of the exact one, 0 when none completed, at most 100, and 100 when all did |
| DashboardModule.Percentages | backend/app/modules/dashboard.py:165-168 | one percentage per count key |
| DashboardModule.TimelinessStatistics | backend/app/modules/dashboard.py:132-170 | the four keys (last_minute_rush here), each the grouped count; the total is their sum; the percentages those shares |
| DashboardModule.SharesSumTo100 | backend/app/modules/dashboard.py:161-168 | four rounded shares of a positive total sum to 100 within 0.2 |
| DashboardModule.PerPage | backend/app/modules/dashboard.py:227 | the page size is the requested one capped at 100, and 20 when none is given |
| DashboardModule.Page | backend/app/modules/dashboard.py:226 | the page is the requested one, and 1 when none is given |
| DashboardModule.Unpaginated | backend/app/modules/dashboard.py:245 | without pagination the first 100 rows, in order |
| DashboardModule.NewDeadline | backend/app/modules/dashboard.py:340-386 | no datetime or one that does not parse gives the creation error; a created deadline has a title not already used by the same professor |
| DashboardModule.CreationKeepsTitlesUnique | backend/app/modules/dashboard.py:346-353 | creating a deadline keeps every professor's titles unique |
| DashboardModule.CreateDeadline | backend/app/modules/dashboard.py:340-386 | the table gains the new deadline exactly when creation succeeds, and unique titles stay unique |
| DashboardModule.ApplyPatch | backend/app/modules/dashboard.py:406-420 | the same patch rule as the service, without rubric_id, and updated_at set to now |
| DashboardModule.EmptyPatchTouches | backend/app/modules/dashboard.py:406-420 | an empty patch only sets updated_at |
| DashboardModule.UpdateDeadline | backend/app/modules/dashboard.py:388-440 | not owned gives the not-found error and no change; otherwise the patched row replaces it |
| DashboardModule.Unlinked | backend/app/modules/dashboard.py:505-514 | same submissions, none left linked to the deadline, the others untouched and the linked ones only lose their deadline id |
| DashboardModule.DeleteDeadline | backend/app/modules/dashboard.py:494-537 | not owned gives the not-found error and no change; otherwise the deadline goes and its submissions are unlinked, not deleted |
| DashboardModule.OtherSnapshots | backend/app/modules/dashboard.py:466 | the kept snapshots are exactly those of other submissions, with multiplicities |
| DashboardModule.OtherEntries | backend/app/modules/dashboard.py:469 | the kept audit entries are exactly those of other submissions, with multiplicities |
| DashboardModule.DeleteSubmission | backend/app/modules/dashboard.py:442-492 | not owned gives the not-found error and no change; otherwise the submission, its analysis, its snapshots and its audit entries go |
| SubmissionService.ZipExemptionIsRedundant | backend/app/services/submission_service.py:58-69 | the zip exemption for a .docx name changes nothing: the zip type is itself allowed, so the exemption sits in a branch it never reaches, and a detected type is refused exactly when it is outside the allowed MIME types |
| SubmissionService.ValidateFile | backend/app/services/submission_service.py:38-71 | the size error appears iff the size exceeds the limit, the extension error iff the name has no allowed last suffix, the MIME error iff a detected type is refusable and not exempt; a failed detection adds no error; the list is exactly these messages, at most one each, in the order size, extension, MIME |
| SubmissionService.MessagesDiffer | backend/app/services/submission_service.py:43-69 | the size, extension and MIME messages are pairwise distinct, so the error list identifies which checks failed |
| SubmissionService.IdRun | backend/app/services/submission_service.py:78-82 | the captured id is the longest prefix made of `[a-zA-Z0-9-_]` characters |
| SubmissionService.FirstMatchFrom | backend/app/services/submission_service.py:84-87 | the position found is the first at or after the start where the pattern's literal prefix is followed by an id character; none is found only when no such position exists |
| SubmissionService.Search | backend/app/services/submission_service.py:84-87 | `re.search`: no result iff the pattern matches nowhere; otherwise the capture is the id run after the leftmost match |
| SubmissionService.IdRunOf | backend/app/services/submission_service.py:78-82 | an id followed by a non-id character (or the end) is captured whole |
| SubmissionService.SearchFindsId | backend/app/services/submission_service.py:78-87 | a link made of a pattern prefix, a non-empty id and a non-id remainder yields exactly that id |
| SubmissionService.ValidateDriveLink | backend/app/services/submission_service.py:73-89 | an id is returned iff no error is; the error is the invalid-link message exactly when no pattern matches; the id is that of the first pattern that matches |
| SubmissionService.First | backend/app/services/submission_service.py:119-139 | `.first()`: the index of the first row satisfying the filter, and none only when no row does |
| SubmissionService.CheckDuplicate | backend/app/services/submission_service.py:99-141 | reports a duplicate iff it returns a submission; with neither a hash nor a link there is none; a drive link is checked before a hash, and the submission returned is the first stored one with that owner, deadline and link or hash |
| SubmissionModule.CopiesDifferOnZip | backend/app/modules/submission.py:85-88 | the module's MIME check has no zip exemption: it refuses a detected type exactly when the service would, or when the type is the zip type |
| SubmissionModule.ValidateFile | backend/app/modules/submission.py:65-93 | the size error iff the size exceeds the limit, the extension error iff the last suffix is not allowed, the MIME error iff the detected type is not allowed; a failed detection adds nothing; the list is exactly these messages, at most one each, in the order size, extension, MIME |
| SubmissionModule.Used | backend/app/modules/submission.py:263-265 | the new usage count is one more than the old; every other column of the token is unchanged |
| SubmissionModule.UseKeepsLimit | backend/app/models/submission.py:144-152 | a token that was valid before a use has not gone past its usage limit after it |
| SubmissionModule.LastUseExhausts | backend/app/models/submission.py:150-151 | the use that brings the count to the limit makes the token invalid for the next submission |
| SubmissionModule.DeadlineOf | backend/app/modules/submission.py:255-261 | the deadline is found iff the token names a non-empty deadline id that is stored; it is then that stored deadline |
| SubmissionModule.TokenTable.constructor | backend/app/modules/submission.py:247 | the table holds the given token rows |
| SubmissionModule.TokenTable.ValidateSubmissionToken | backend/app/modules/submission.py:239-267 | a missing or empty token, an unknown token and an invalid token each give their own error and leave the table unchanged; a valid token is returned with its deadline's title and time, and its stored usage count goes up by one |
| SubmissionModule.ShortOrBlankRefused | backend/app/modules/submission.py:335-337 | a text shorter than ten characters or made only of white space is refused as empty |
| SubmissionModule.UnpaddedAccepted | backend/app/modules/submission.py:335-337 | a text of at least ten characters that neither starts nor ends with white space counts as content |
| SubmissionModule.Sanitised | backend/app/modules/submission.py:356 | every one of the characters `<>:"/\|?*` is replaced by `_`, every other character is kept, and the length is unchanged |
| SubmissionModule.SanitisedChars | backend/app/modules/submission.py:356 | no forbidden character survives sanitising, and every character is either `_` or taken from the title |
| Text.StripStart | backend/app/modules/submission.py:357 | the number of leading white-space characters is within the text |
| Text.StripSlice | backend/app/modules/submission.py:357 | the stripped text is a contiguous slice of the original, starting after its leading white space |
| SubmissionModule.SliceChars | backend/app/modules/submission.py:357 | a slice of a sanitised text is still free of forbidden characters |
| SubmissionModule.Cut | backend/app/modules/submission.py:357 | `[:100]` keeps a prefix of at most 100 characters, and the whole text when it is not longer |
| SubmissionModule.FolderName | backend/app/modules/submission.py:356-357 | a folder name is at most 100 characters long |
| SubmissionModule.FolderNameChars | backend/app/modules/submission.py:356-357 | a folder name contains no forbidden character and every character is `_` or from the title |
| SubmissionModule.CleanTitleKept | backend/app/modules/submission.py:356-357 | a title of at most 100 characters with no forbidden character and no surrounding white space is used unchanged as the folder name |
| ValidationService.ValidateFileExtension | backend/app/services/validation_service.py:27-36 | accepts exactly the names whose last suffix is an allowed extension, in any letter case; a name without a dot gets the no-extension message, any other refusal names the lowered extension |
| ValidationService.ExtensionIsLastSuffix | backend/app/services/validation_service.py:29-34 | only the part after the last dot decides: `name.ext` is accepted iff the lowered `ext` is allowed, whatever `name` holds |
| ValidationService.ValidateMimeType | backend/app/services/validation_service.py:39-47 | succeeds iff a type was detected and is allowed, returning that type; a detection failure and a refused type each give their own message |
| ValidationService.SizeLimit | backend/app/services/validation_service.py:52-53 | the limit is the one passed, else the configured maximum, else 52428800 bytes |
| ValidationService.ValidateFileSize | backend/app/services/validation_service.py:50-58 | passes iff the size does not exceed the limit; a refusal states the size and the limit in bytes |
| ValidationService.SizeCheckMonotone | backend/app/services/validation_service.py:55-58 | a size that passes a limit passes every larger limit |
| ValidationService.TrailingNewlineAccepted | backend/app/services/validation_service.py:68-69 | for every valid address, the address followed by a newline is accepted by the pattern as written but is not a full match |
| ValidationService.DomainOfParts | backend/app/services/validation_service.py:68 | a non-empty name of domain characters, a dot and a top-level part of two or more letters form a valid domain part |
| ValidationService.DomainHasNoAt | backend/app/services/validation_service.py:68 | a valid domain part contains no `@` |
| ValidationService.AddressOf | backend/app/services/validation_service.py:68 | a valid local part, `@` and a valid domain part form an accepted address |
| ValidationService.AddressOfParts | backend/app/services/validation_service.py:68 | `local@name.tld` is accepted for every valid local part, domain name and top-level part |
| ValidationService.MatchShape | backend/app/services/validation_service.py:68 | an accepted address has at least six characters, ends with a letter and holds no second `@` after the first one |
| ValidationService.ValidateEmail | backend/app/services/validation_service.py:61-72 | an absent or empty address passes; a present one passes iff it fully matches the pattern; a refusal is the invalid-format message |
| ValidationService.ValidateGoogleDriveUrl | backend/app/services/validation_service.py:75-89 | `re.match`: the URL passes iff it starts with one of the three Drive prefixes followed by an id character; a refusal is the invalid-URL message |
| ValidationService.AcceptedUrlHasId | backend/app/services/validation_service.py:75-89 | a URL this check accepts also yields an id when searched by the submission service |
| ValidationService.LinkOfIdAccepted | backend/app/services/validation_service.py:79-87 | a Drive prefix followed by an id that starts with an id character is accepted, whatever follows |
| Compliance.RetentionPeriod | backend/app/security/compliance.py:130-139 | submissions, analysis results and audit logs are kept 2555 days, sessions 30, exports 7, temporary files 24 hours, and every other type 365 days |
| Compliance.RetentionCheck | backend/app/security/compliance.py:126-146 | the expiry is the creation time plus the type's period; a record is expired iff now is past it; the days field is the whole days of the period |
| Compliance.ExpiryIsPermanent | backend/app/security/compliance.py:139-143 | once a record is expired it stays expired at every later time |
| Compliance.EveryPeriodAtLeastADay | backend/app/security/compliance.py:130-143 | no record of any type expires within its first day, and a temporary file expires once a day has passed |
| Compliance.RecordsKeptLongest | backend/app/security/compliance.py:130-139 | no type is kept longer than submissions |
| Compliance.Encrypt | backend/app/security/compliance.py:48-62 | without a cipher or for empty data the data is returned as it is; otherwise the cipher text, or the data itself when encryption fails |
| Compliance.Decrypt | backend/app/security/compliance.py:64-78 | without a cipher or for empty data the data is returned as it is; otherwise the plain text, or the input itself when decryption fails |
| Compliance.DecryptUndoesEncrypt | backend/app/security/compliance.py:48-78 | with a cipher whose decryption inverts its encryption, decrypting what was encrypted gives back the original data |
| Compliance.Anonymize | backend/app/security/compliance.py:80-124 | empty text is returned as it is; any other text goes through the redaction |
| Compliance.SuffixLacks | backend/app/security/compliance.py:304 | a suffix of a text lacks every character the text lacks |
| Compliance.NameExt | backend/app/security/compliance.py:304 | the extension of a base name is empty or a dot followed by everything after the last dot |
| Compliance.SplitExt | backend/app/security/compliance.py:304 | `os.path.splitext`: the extension is empty or a dot followed by text with no dot and no path separator |
| Compliance.SplitExtOf | backend/app/security/compliance.py:304 | `stem.ext` with a plain stem that does not start with a dot has the extension `.ext` |
| Compliance.DotFileHasNoExt | backend/app/security/compliance.py:304 | a hidden file name such as `.docx` has no extension |
| Compliance.ValidateFileSecurity | backend/app/security/compliance.py:295-316 | a size that cannot be read gives the security-error message, a size over the limit gives the too-large message, a disallowed extension the disallowed message, and any other file passes |
| Compliance.DocumentPasses | backend/app/security/compliance.py:303-312 | a file named `stem.docx` or `stem.doc`, in any letter case and within the size limit, passes |
| Compliance.DotSuffix | backend/app/security/compliance.py:303-306 | `.x` is an allowed suffix iff `x` is `docx` or `doc` |
| Compliance.LowerDot | backend/app/security/compliance.py:306 | lowering a dotted suffix lowers the part after the dot |
| Compliance.HiddenFileRefused | backend/app/security/compliance.py:303-307 | a file named only `.docx` (a hidden file with no extension) is refused as a disallowed type, even within the size limit |
| Accounts.AuthStore.constructor | backend/app/models/user.py:10-51 | the users and sessions tables start empty |
| Accounts.WithEmail | backend/app/models/user.py:14 | the ids returned are exactly the stored users having that e-mail |
| Accounts.OneWithEmail | backend/app/models/user.py:14 | while e-mails are unique, at most one user has a given e-mail, so `filter_by(email=...).first()` is well defined |
| Accounts.AddKeepsUnique | backend/app/models/user.py:14 | adding a user under a fresh id with an e-mail no one has keeps e-mails unique |
| Accounts.UpdateKeepsUnique | backend/app/models/user.py:14 | rewriting a user while keeping its e-mail keeps e-mails unique |
| Accounts.HashPassword | backend/app/modules/auth.py:584-588 | a stored hash is the 32-character salt, ':', then the digest of the password followed by the salt |
| Accounts.VerifyPassword | backend/app/modules/auth.py:590-596 | a password can only be accepted against a stored hash holding exactly one ':' |
| Accounts.HashSplits | backend/app/modules/auth.py:584-594 | splitting a stored hash at ':' gives back the salt and the digest |
| Accounts.VerifyRoundTrip | backend/app/api/auth.py:303-315 | every password is accepted against its own hash |
| Accounts.WrongPasswordRefused | backend/app/api/auth.py:303-315 | a password whose salted digest differs from the stored one is refused |
| Accounts.MalformedHashRefused | backend/app/modules/auth.py:590-596 | a stored hash that does not split into exactly two parts refuses every password |
| AuthModule.DomainField | backend/app/modules/auth.py:176 | the domain read from an address (the second field between '@'s) contains no '@' |
| AuthModule.DomainFieldOf | backend/app/modules/auth.py:176 | for `local@domain` with neither part holding '@', the domain read is `domain` |
| AuthModule.DomainCheck | backend/app/modules/auth.py:171-178 | an empty allow-list permits every address; an address without '@' fails with the index error; otherwise the address passes iff its lowered domain equals a lowered allowed domain or ends with '.' and one, and a refusal lists the allowed domains |
| AuthModule.LowerAppend | backend/app/modules/auth.py:176-177 | lowering distributes over concatenation |
| AuthModule.AllowedDomainPasses | backend/app/modules/auth.py:177 | an address whose domain equals an allowed domain in any letter case passes |
| AuthModule.LowerKeepsSuffix | backend/app/modules/auth.py:177 | lowering a text keeps the lowered suffix as its suffix |
| AuthModule.LowerAfterDot | backend/app/modules/auth.py:177 | lowering `.domain` lowers the part after the dot |
| AuthModule.SubdomainPasses | backend/app/modules/auth.py:177 | an address at any subdomain of an allowed domain passes |
| AuthModule.RoleFor | backend/app/modules/auth.py:184-185 | the role is Student iff the stored user type is 'student', and never Admin |
| AuthModule.CreateOrUpdateUser | backend/app/modules/auth.py:180-218 | an existing user with the e-mail is rewritten in place, a new one is added under the fresh id; the stored user carries the Google id, name, picture, the role of this sign-in, the login time and is active; e-mails stay unique |
| AuthModule.CreateUserSession | backend/app/modules/auth.py:220-246 | a new active session for the user is recorded, expiring after the configured timeout |
| AuthModule.ValidateSession | backend/app/modules/auth.py:259-289 | a missing token, an unknown or inactive session, an expired session and an inactive account each give their own error; an expired session is marked inactive and nothing else changes; otherwise the user and session are returned |
| AuthModule.LogoutUser | backend/app/modules/auth.py:295-314 | succeeds iff the session is active, in which case only its active flag is cleared; otherwise the session-not-found error and no change |
| AuthService.Cleaned | backend/app/services/auth_service.py:133 | the cleaned allow-list has no more entries than the configured one |
| AuthService.CleanedHas | backend/app/services/auth_service.py:133 | every configured domain that is not blank appears stripped and lowered |
| AuthService.CleanedLower | backend/app/services/auth_service.py:133 | no cleaned domain holds an upper-case letter |
| AuthService.AllowedList | backend/app/services/auth_service.py:133-134 | the list checked always ends with 'gmail.com' |
| AuthService.EmailDomain | backend/app/services/auth_service.py:131 | the domain is the text after the first '@', empty when there is none, and itself holds no '@' |
| AuthService.DomainError | backend/app/services/auth_service.py:130-137 | no check is made when the allow-list is empty or `['']`; otherwise the address passes iff its domain, not lowered, is in the cleaned list plus 'gmail.com'; a refusal names the domain and the list |
| AuthService.GmailAlwaysAllowed | backend/app/services/auth_service.py:132-134 | a Gmail address is always let through |
| AuthService.ConfiguredDomainAllowed | backend/app/services/auth_service.py:133-136 | an address at a configured domain, written stripped and lowered, passes |
| AuthService.CapitalisedDomainRefused | backend/app/services/auth_service.py:131-136 | once the list is checked, a domain holding an upper-case letter is refused, because the address is not lowered |
| AuthService.GmailLower | backend/app/services/auth_service.py:134 | 'gmail.com' holds no upper-case letter |
| AuthService.RoleFor | backend/app/services/auth_service.py:139-140 | the role is Professor iff the user type is absent or 'professor', and never Admin |
| AuthService.RoleCopiesDisagree | backend/app/services/auth_service.py:139-140 | for a user type that is neither 'professor' nor 'student', the sign-in module gives Professor and the service gives Student |
| AuthService.SignIn | backend/app/services/auth_service.py:139-174 | a new user is added with the role of this sign-in, an existing one only has its name, Google id, picture and login time replaced, and a new seven-day session is recorded; e-mails stay unique |
| AuthService.ValidateSession | backend/app/services/auth_service.py:180-198 | a missing token, an unknown token, an expired session and a missing or inactive user each give their own error; the session's own active flag is never read |
| AuthService.InactiveSessionStillValid | backend/app/services/auth_service.py:185-198 | a session that was deactivated but has not expired still validates here, while the sign-in module rejects it |
| AuthService.Logout | backend/app/services/auth_service.py:200-207 | always succeeds, and the session with that token is deleted whether or not it existed |
| AuthService.CreateBasicAuthUser | backend/app/services/auth_service.py:212-232 | an e-mail already in use gives the user-exists error and no change; otherwise an active professor with the unsalted digest of the password is added under the fresh id |
| AuthService.CreatedAccountMatches | backend/app/services/auth_service.py:220-250 | an account created here accepts its own password |
| AuthService.SaltedHashNeverMatches | backend/app/services/auth_service.py:244-251 | an account whose hash was made by the salted registration route never accepts its password here |
| AuthService.ValidateBasicAuth | backend/app/services/auth_service.py:239-271 | logs in iff a user with the e-mail has a hash equal to the unsalted digest and is active; a refusal changes nothing and is the invalid-credentials or inactive-account error; a login records the login time and a new seven-day session |
| AuthApi.BearerToken | backend/app/api/auth.py:213-217 | the token is read iff the header starts with `Bearer `, and is the rest of the header; otherwise authentication is required |
| AuthApi.BearerOfToken | backend/app/api/auth.py:213-217 | the header `Bearer t` yields `t` |
| AuthApi.Lookup | backend/app/api/auth.py:344 | no user is found iff none has the e-mail; otherwise the one that has it |
| AuthApi.TokenRequest | backend/app/api/auth.py:206-246 | a missing bearer header and an invalid session are refused with 401; the request passes iff the session is valid, its user is a professor and any deadline named is theirs and not before the local time, and it then yields the professor's id |
| AuthApi.PastDeadlineRefused | backend/app/api/auth.py:244-245 | a request for a deadline already past on the local clock is refused |
| AuthApi.NewTokenRow | backend/app/api/auth.py:248-262 | the new token row carries the token, owner and deadline, expires thirty days from now, is active and unused |
| AuthApi.NewTokenValidFor30Days | backend/app/api/auth.py:249-262 | a new token is valid at exactly the times up to thirty days after its creation |
| AuthApi.GenerateSubmissionToken | backend/app/api/auth.py:206-295 | a refused request is answered with its status and message and stores nothing; an accepted one stores the new token row and answers with the token, its expiry, the deadline details and the submission URL |
| AuthApi.NormalEmail | backend/app/api/auth.py:329 | the e-mail read is stripped and lowered: no upper-case letter, and empty iff the input is blank |
| AuthApi.RegisterCheck | backend/app/api/auth.py:323-348 | no data, no e-mail, no password, a password under six characters, no name, an e-mail already used by a Google account and an e-mail already used are refused in that order with their statuses; otherwise registration goes ahead |
| AuthApi.Registered | backend/app/api/auth.py:351-358 | the new user has the normalised e-mail, is an active professor and stores the salted hash of the password |
| AuthApi.Register | backend/app/api/auth.py:319-369 | a refused registration is answered with its status and message and stores nothing; an accepted one adds the registered user under the fresh id; e-mails stay unique |
| AuthApi.LoginCheck | backend/app/api/auth.py:382-413 | no data, a missing e-mail or password, an unknown user, an account without a password, a wrong password and a deactivated account are refused in that order; the login goes ahead iff the user exists, its salted hash accepts the password and it is active |
| AuthApi.LoginBasic | backend/app/api/auth.py:378-444 | a refused login changes nothing; an accepted one records the login time and a new active session expiring after the configured timeout |
| AuthApi.RegisterThenLogin | backend/app/api/auth.py:319-413 | after a successful registration, logging in with the same e-mail and password finds the new user |
| AuthApi.RegisteredFailsBasicAuth | backend/app/api/auth.py:354 | the unsalted basic-auth check never accepts the password of an account made by this registration route |
| AuthSchemas.HoldsAt | backend/app/schemas/auth_schemas.py:48 | `'@' in value` is defined for texts, lists and dicts, and raises for every other value |
| AuthSchemas.Len | backend/app/schemas/auth_schemas.py:54 | `len(value)` is the length of a text, and raises for values without a length |
| AuthSchemas.LoginFieldsPresent | backend/app/schemas/auth_schemas.py:19 | no login field is missing iff both e-mail and password are keys of the body |
| AuthSchemas.ValidateLogin | backend/app/schemas/auth_schemas.py:14-29 | an empty body, missing fields, an empty e-mail and an empty password are refused in that order with their messages; everything else passes |
| AuthSchemas.RegisterFieldsPresent | backend/app/schemas/auth_schemas.py:44 | no registration field is missing iff e-mail, name and password are all keys |
| AuthSchemas.RegisterValues | backend/app/schemas/auth_schemas.py:48-57 | the values pass iff the e-mail is truthy and holds '@', the name is truthy and the password has at least six characters; each failure gives its own message |
| AuthSchemas.ValidateRegister | backend/app/schemas/auth_schemas.py:39-57 | an empty body and missing fields are refused first; then the values decide |
| AuthSchemas.RegisterBodyLogsIn | backend/app/schemas/auth_schemas.py:14-57 | a body valid for registration is valid for login |
| AuthSchemas.LoneAtPassesSchema | backend/app/schemas/auth_schemas.py:48 | the e-mail '@' passes the registration schema although the validation service refuses it |
| AuthSchemas.Truncate | backend/app/schemas/auth_schemas.py:74 | `int` of a float truncates toward zero |
| AuthSchemas.IntOf | backend/app/schemas/auth_schemas.py:74 | `int(value)` keeps integers, turns booleans into 0 or 1, and fails for null, lists and dicts |
| AuthSchemas.ValidateTokenGeneration | backend/app/schemas/auth_schemas.py:67-80 | the body passes iff it has no `max_usage`, or one that converts to an integer of at least 1; conversion failure and a too small value give their own messages |
| AuthSchemas.FractionalMaxUsage | backend/app/schemas/auth_schemas.py:74-76 | a `max_usage` of 0.5 is refused as too small while 1.5 passes, because of truncation |
| Schemas.Missing | backend/app/schemas/deadline_schemas.py:20 | the missing fields are drawn from the required list, so there are never more of them |
| Schemas.MissingMembers | backend/app/schemas/deadline_schemas.py:20 | a field is listed as missing iff it is required and not a key of the body |
| Schemas.MissingNone | backend/app/schemas/deadline_schemas.py:20-22 | nothing is missing iff every required field is a key of the body |
| Schemas.MissingAppend | backend/app/schemas/deadline_schemas.py:20 | the missing fields of two required lists, one after the other, are the missing fields of each, in order |
| DeadlineSchemas.CreateFieldsPresent | backend/app/schemas/deadline_schemas.py:20-22 | no creation field is missing iff both `title` and `deadline_datetime` are keys |
| DeadlineSchemas.CreateValues | backend/app/schemas/deadline_schemas.py:24-36 | the values pass iff the title is a text that is not blank, the time is truthy and parses as ISO; a truthy title that is not a text raises; each refusal has its own message |
| DeadlineSchemas.ValidateCreate | backend/app/schemas/deadline_schemas.py:15-36 | an empty body and missing fields are refused first, with their messages; then the values decide |
| DeadlineSchemas.UpdateValues | backend/app/schemas/deadline_schemas.py:55-66 | the values pass iff a title, when given, is a text that is not blank, and a time, when given, parses; a truthy title that is not a text raises |
| DeadlineSchemas.UpdateTitle | backend/app/schemas/deadline_schemas.py:56-57 | a given title passes iff it is a text that is not blank; a truthy title that is not a text raises; a refusal says the title cannot be empty |
| DeadlineSchemas.Field | backend/app/schemas/deadline_schemas.py:56-60 | a field is read iff it is a key of the body, and is then its value |
| DeadlineSchemas.ValidateUpdate | backend/app/schemas/deadline_schemas.py:46-66 | an empty body is refused, then a body naming none of the updatable fields; then the title and time given decide |
| DeadlineSchemas.CreateBodyIsValidUpdate | backend/app/schemas/deadline_schemas.py:15-66 | a body valid for creating a deadline is valid for updating one |
| DeadlineSchemas.DescriptionOnly | backend/app/schemas/deadline_schemas.py:20-53 | a body holding only a description is a valid update but is refused for creation with both required fields reported missing |
| SubmissionSchemas.ValidateUpload | backend/app/schemas/submission_schemas.py:14-34 | passes iff a file is present and neither `student_id` nor `student_name` is given truthy but blank once stripped; the missing file is reported first |
| SubmissionSchemas.EmptyUploadPasses | backend/app/schemas/submission_schemas.py:19-34 | with a file, an empty or absent form passes |
| SubmissionSchemas.LinkValue | backend/app/schemas/submission_schemas.py:53-61 | a link passes iff it is a text that is not blank and names drive.google.com or docs.google.com once stripped; a value that is not a text raises; a blank link and a foreign host get their own messages |
| SubmissionSchemas.ValidateDriveLink | backend/app/schemas/submission_schemas.py:44-61 | an empty body and a missing `drive_link` are refused first; then the link value decides |
| SubmissionSchemas.MiddleOccurs | backend/app/schemas/submission_schemas.py:58 | a text that begins with `a + b + c` contains `b` |
| SubmissionSchemas.AcceptedUrlPassesSchema | backend/app/schemas/submission_schemas.py:53-61 | every link the validation service accepts, once stripped, passes the schema |
| SubmissionSchemas.ShortUrlRefused | backend/app/services/validation_service.py:79-89 | a URL shorter than 32 characters matches none of the Drive patterns |
| SubmissionSchemas.ShortLinkPassesSchemaOnly | backend/app/schemas/submission_schemas.py:58-59 | a short link naming a Google host passes the schema while the validation service refuses it: the schema's check is strictly weaker |
| ReportSchemas.StatusTextsAreStatuses | backend/app/schemas/report_schemas.py:29 | the allowed filter texts are exactly the stored values of the five submission statuses |
| ReportSchemas.ExportValues | backend/app/schemas/report_schemas.py:23-33 | the values pass iff the export type, lowered, is pdf or csv and any status given is an allowed text; an export type that is not a text raises; each refusal has its own message, the export type checked first |
| ReportSchemas.StatusField | backend/app/schemas/report_schemas.py:28 | the status is read iff it is a key of the body |
| ReportSchemas.ValidateExport | backend/app/schemas/report_schemas.py:14-33 | an empty body and a missing export type are refused first; then the values decide |
| ReportSchemas.LoweredExportTypePasses | backend/app/schemas/report_schemas.py:23-24 | an export type that passes passes lowered too |
| ReportSchemas.EveryStatusFilterAccepted | backend/app/schemas/report_schemas.py:27-31 | every submission status, as its stored value, is accepted as a filter |
| AnalysisDto.Eval | backend/app/schemas/dto/analysis_dto.py:18-31 | a single key reads that key (null when absent); `a or b` reads `a` when it is truthy and `b` otherwise; a key with a default reads the default exactly when the key is absent |
| AnalysisDto.Project | backend/app/schemas/dto/analysis_dto.py:12-32 | a falsy section or a value that is not a dict serialises as {}; otherwise every output key of the table, in order, holds its evaluated source |
| AnalysisDto.ProjectLookup | backend/app/schemas/dto/analysis_dto.py:17-32 | looking an output key up in a projected section gives that key's evaluated source |
| AnalysisDto.ZeroRevisionFallsThrough | backend/app/schemas/dto/analysis_dto.py:23 | a stored `revision_count` of 0 is falsy, so the serialised revision count is the `revision` key instead |
| AnalysisDto.ContributorsDefaultEmpty | backend/app/schemas/dto/analysis_dto.py:26 | metadata without contributors serialises them as [] |
| AnalysisDto.MissingCountIsZero | backend/app/schemas/dto/analysis_dto.py:44-52 | a statistics dict lacking any of the counts serialises that count as 0 |
| AnalysisDto.ResultValues | backend/app/schemas/dto/analysis_dto.py:109-129 | there is one value per result key, and a falsy metadata, statistics, insights or NLP column gives {} |
| AnalysisDto.ResultEntries | backend/app/schemas/dto/analysis_dto.py:109-129 | the result has exactly the fixed keys, in order, and each of the metadata, statistics, insights and NLP sections is {} when its column is falsy |
| AnalysisDto.SerializeResult | backend/app/schemas/dto/analysis_dto.py:104-134 | no result gives None; otherwise the fixed entries, followed by `document_text` exactly when asked for |
| AnalysisDto.FullTextOnRequest | backend/app/schemas/dto/analysis_dto.py:131-132 | `document_text` is a key iff the full text was asked for |
| DeadlineDto.Late | backend/app/schemas/dto/deadline_dto.py:34 | the number of late submissions is at most the number of submissions |
| DeadlineDto.OnTime | backend/app/schemas/dto/deadline_dto.py:33 | the number of on-time submissions is at most the number of submissions |
| DeadlineDto.OnTimePlusLate | backend/app/schemas/dto/deadline_dto.py:33-39 | every submission is counted exactly once, as on time or as late |
| DeadlineDto.NoneLate | backend/app/schemas/dto/deadline_dto.py:34 | no submission is counted late iff none is late |
| DeadlineDto.Summary | backend/app/schemas/dto/deadline_dto.py:32-40 | the summary holds the total, the on-time count and the late count; the two counts add up to the total, and the late count is 0 iff no submission is late |
| DeadlineDto.DeadlineEntries | backend/app/schemas/dto/deadline_dto.py:17-27 | the fixed deadline keys, in order |
| DeadlineDto.SubmissionEntries | backend/app/schemas/dto/deadline_dto.py:29-40 | the count always, then the summary only for a non-empty list |
| DeadlineDto.Record | backend/app/schemas/dto/deadline_dto.py:17-42 | the fixed entries, followed by the submission entries exactly when submissions are included |
| DeadlineDto.Serialize | backend/app/schemas/dto/deadline_dto.py:12-15 | no deadline gives None; otherwise its record |
| DeadlineDto.CountOnlyOnRequest | backend/app/schemas/dto/deadline_dto.py:29-36 | `submission_count` is a key iff submissions are included, and `submissions_summary` iff they are included and there is at least one |
| DeadlineDto.SerializeList | backend/app/schemas/dto/deadline_dto.py:45-47 | one record per deadline, in order, without submissions |
| DeadlineDto.ListRecord | backend/app/schemas/dto/deadline_dto.py:59-72 | the list view has its fixed keys, without description or owner, and always ends with the submission count |
| DeadlineDto.SerializeListView | backend/app/schemas/dto/deadline_dto.py:54-57 | no deadline gives None; otherwise its list record |
| DeadlineDto.SerializeListViews | backend/app/schemas/dto/deadline_dto.py:75-77 | one list record per deadline, in order |
| DeadlineDto.ListCountMatchesFull | backend/app/schemas/dto/deadline_dto.py:29-70 | the list view's count equals the full view's count |
| SubmissionDto.IfTruthy | backend/app/schemas/dto/submission_dto.py:43-50 | the key is added, with its value, exactly when the value is truthy |
| SubmissionDto.StandardEntries | backend/app/schemas/dto/submission_dto.py:27-41 | the fixed keys of the standard view, in order |
| SubmissionDto.StandardExtras | backend/app/schemas/dto/submission_dto.py:43-53 | the drive link, deadline id and error message keys each appear only when truthy, then the analysis summary only on request |
| SubmissionDto.Standard | backend/app/schemas/dto/submission_dto.py:18-55 | the fixed entries followed by the optional entries, and nothing else |
| SubmissionDto.Serialize | backend/app/schemas/dto/submission_dto.py:13-16 | no submission gives None; otherwise its standard view |
| SubmissionDto.OptionalKeysNotFixed | backend/app/schemas/dto/submission_dto.py:27-53 | none of the optional keys is among the fixed ones |
| SubmissionDto.StandardOptionalKeys | backend/app/schemas/dto/submission_dto.py:43-53 | the drive link, deadline id and error message are keys iff they are truthy, and the analysis summary iff it was asked for |
| SubmissionDto.StandardTimestamps | backend/app/schemas/dto/submission_dto.py:18-25 | both timestamps carry a zone, 'Z' being added when they have none, and the last-modified time is the creation time when there is no update time |
| SubmissionDto.SerializeList | backend/app/schemas/dto/submission_dto.py:57-60 | one standard view per submission, in order, without analysis |
| SubmissionDto.WordCount | backend/app/schemas/dto/submission_dto.py:76-80 | no analysis or falsy statistics give no word count; otherwise the stored `word_count` |
| SubmissionDto.ListRecord | backend/app/schemas/dto/submission_dto.py:72-100 | the list view has its fixed keys, followed by an analysis summary holding the word count exactly when one is available |
| SubmissionDto.SerializeListView | backend/app/schemas/dto/submission_dto.py:67-70 | no submission gives None; otherwise its list view |
| SubmissionDto.SerializeListViews | backend/app/schemas/dto/submission_dto.py:103-105 | one list view per submission, in order |
| SubmissionDto.ListSummaryOnlyWithWordCount | backend/app/schemas/dto/submission_dto.py:76-98 | without an analysis there is no summary, and with a stored integer word count there is one |
| SubmissionDto.DetailEntries | backend/app/schemas/dto/submission_dto.py:117-159 | the fixed keys of the detail view, in order |
| SubmissionDto.DetailExtras | backend/app/schemas/dto/submission_dto.py:161-167 | the linked analysis result and deadline are nested, each only when present, through their own serialisers |
| SubmissionDto.Detail | backend/app/schemas/dto/submission_dto.py:117-169 | the fixed detail entries followed by the nested rows, and nothing else |
| SubmissionDto.SerializeDetail | backend/app/schemas/dto/submission_dto.py:112-115 | no submission gives None; otherwise its detail view |
| SubmissionDto.StandardKeysInDetail | backend/app/schemas/dto/submission_dto.py:27-159 | every key the standard view can have is a fixed key of the detail view |
| SubmissionDto.DetailCoversStandard | backend/app/schemas/dto/submission_dto.py:13-169 | every key of a submission's standard view is a key of its detail view |
| SubmissionDto.NestedKeysNotFixed | backend/app/schemas/dto/submission_dto.py:134-167 | the nested keys are not among the fixed detail keys |
| SubmissionDto.DetailNestsLinkedRows | backend/app/schemas/dto/submission_dto.py:161-167 | `analysis_result` is a key iff the submission has an analysis, and `deadline` iff it has a deadline |
| Response.Success | backend/app/utils/response.py:31-42 | the status is echoed; a dict's keys are merged at the top level and override `success` and `message`; null adds nothing; any other value goes under `data` |
| Response.MergeAppends | backend/app/utils/response.py:36-38 | a dict without `success` or `message` keys ends up after the two head entries, in its own order |
| Response.Error | backend/app/utils/response.py:68-76 | the keys are `success` (false), `error` (the message), and `errors` only when the errors are truthy; the status is echoed |
| Response.MulMono | backend/app/utils/response.py:107 | multiplying by a positive page size keeps order |
| Response.TotalPages | backend/app/utils/response.py:107 | the page count is the ceiling of total over the page size: one page fewer would not hold the items, this many does |
| Response.PagesOfCount | backend/app/utils/response.py:107 | no items make no pages, and any item makes at least one |
| Response.Pagination | backend/app/utils/response.py:113-120 | the page, size and total are echoed, with the page count, `has_next` iff the page is before the last, and `has_prev` iff the page is after the first |
| Response.HasNextIffMoreItems | backend/app/utils/response.py:107-118 | there is a next page iff the items up to this page fall short of the total |
| Response.Paginated | backend/app/utils/response.py:107-123 | success with the message, the items under `data` and the pagination block, always status 200 |
| Exceptions.ClassStatus | backend/app/core/exceptions.py:8-89 | every class status is a 4xx or 5xx code, 401 belongs only to the authentication error and 404 only to the not-found error |
| Exceptions.NotFoundMessage | backend/app/core/exceptions.py:54-58 | the message starts with the resource type, and goes on past "not found" iff the id is truthy |
| Exceptions.DuplicateMessage | backend/app/core/exceptions.py:65-69 | the message starts with the resource type, and goes on past "already exists" iff the field is truthy |
| Exceptions.ServiceMessage | backend/app/core/exceptions.py:92-96 | the message starts with the service name, and goes on past "service unavailable" iff a message is truthy |
| Exceptions.NotFoundMessageInjective | backend/app/core/exceptions.py:55-57 | two ids give the same not-found message only when they are equal |
| Exceptions.ErrorDict | backend/app/core/exceptions.py:19-22 | `error` holds the message, overriding any payload entry; every other key reads as in the payload when it is a truthy dict and is absent otherwise |
| Exceptions.AppException.constructor | backend/app/core/exceptions.py:12-17 | keeps the message and payload, and the class status 500 unless a status is passed |
| Exceptions.AppException.ValidationError | backend/app/core/exceptions.py:29-31 | status 400, the message and the field recorded |
| Exceptions.AppException.AuthenticationError | backend/app/core/exceptions.py:38-39 | status 401, the message defaulting to "Authentication required" |
| Exceptions.AppException.AuthorizationError | backend/app/core/exceptions.py:46-47 | status 403, the message defaulting to "Access denied" |
| Exceptions.AppException.ResourceNotFoundError | backend/app/core/exceptions.py:54-58 | status 404 with the not-found message |
| Exceptions.AppException.DuplicateResourceError | backend/app/core/exceptions.py:65-69 | status 409 with the already-exists message |
| Exceptions.AppException.FileProcessingError | backend/app/core/exceptions.py:76-77 | status 422, the message defaulting to "File processing failed" |
| Exceptions.AppException.DatabaseError | backend/app/core/exceptions.py:84-85 | status 500, the message defaulting to "Database operation failed" |
| Exceptions.AppException.ExternalServiceError | backend/app/core/exceptions.py:92-96 | status 503 with the service-unavailable message |
| Exceptions.AppException.ToDict | backend/app/core/exceptions.py:19-22 | the dict's `error` entry is the exception's message |
| Exceptions.NotFoundRendering | backend/app/core/exceptions.py:50-58 | a not-found exception keeps its class status 404 and renders as only its message under `error` |

## Left out

- Flask routing, request parsing, `jsonify`, `send_file`, blueprints and decorators are not modelled. Only the early-return decisions and the HTTP statuses the routes answer with are kept.
- SQLAlchemy queries, commits and rollbacks are not modelled: tables are maps or sequences. The effects of a commit that the dashboard service relies on (the `updated_at` refresh, audit entries losing a deleted submission) are written out on the members that commit. Atomicity, concurrent processing and the exception paths of database writes are left out.
- python-docx, zipfile and ElementTree are inputs: the three metadata layers and the extracted text are given.
- spaCy, NLTK, textstat, VADER and Gemini are function parameters or inputs: the scores, token sequences, entity lists and AI response text are given. JSON decoding of the AI response is a parameter.
- Time zones are modelled by a function from zone name to an optional UTC offset, with no DST rules. `datetime.fromisoformat` is a parser parameter, and `utcnow()`/`now()` are passed in as seconds.
- `isoformat()` and `strftime` rendering are not modelled: a timestamp's ISO text is an input where it is serialised.
- SHA-256, Fernet, `secrets`, `uuid` and `werkzeug.secure_filename` are uninterpreted function parameters or inputs. Creating the encryption key file is left out: the cipher is an optional parameter.
- The regular-expression anonymisation in `anonymize_text_for_processing` is a redaction parameter; only the empty-input guard is modelled. `magic` MIME sniffing is an input, either a detected type or a detection error.
- The Google OAuth flow (`get_google_auth_url`, the token exchange in `handle_oauth_callback`), Drive downloads, file-system moves and deletes, PDF rendering, audit logging and the rubric routes are not modelled.
- In `upload_file` and `submit_drive_link`, only the submission-token check, the content-length check and the folder-name rule are modelled. The file handling around them is not.
- Case conversion and letter/digit tests cover ASCII only. Python's Unicode case mapping and its Unicode `isalpha`/`isalnum` are not modelled; white space follows Python's full Unicode set.
- DashboardService.DeleteSubmission: the snapshots of a deleted submission are kept as they are. `document_snapshots.submission_id` is a non-null foreign key with no relationship on `Submission`, so a database that enforces foreign keys would refuse the commit instead; that refusal is not modelled.
- DashboardService.DeleteDeadline: the same holds for the snapshots of the submissions it deletes.
- NlpApi.KeepWord: `isalpha()` is the ASCII letter test, so a word with a non-ASCII letter is dropped where Python keeps it.
- NlpApi.AnalyzeTokens: the kept words follow the ASCII-only `KeepWord`.
- NlpApi.TokenAnalysisMeans: states its facts about the ASCII-only `KeepWord`.
- NlpService.KeepToken: `isalnum()` is the ASCII letter-or-digit test, so a token with a non-ASCII letter or digit is dropped where Python keeps it.
- NlpService.AnalyzeTokens: the kept tokens follow the ASCII-only `KeepToken`.
- NlpService.StatsMeans: states its facts about the ASCII-only `KeepToken`.
- NlpApi.ComputeTextStatistics: only the sentence tokeniser can fail; an exception inside the other steps is not modelled.
- MetadataApi.AnalyzeStep: an exception while storing is modelled only at the final commit, after the completion time was set; one raised earlier (the query for an existing analysis, say) would leave that time unset.
- Exceptions.AppException.AuthenticationError, AuthorizationError, FileProcessingError and DatabaseError: `None` stands for the omitted argument; an explicit `None` passed by a caller, which Python stores as the message, is not represented.
- Python floats are exact reals. Binary rounding error is not modelled.
- `AnalysisResultDTO.serialize_summary`, `SubmissionTokenDTO` and `UserDTO` are not modelled.
- The `hasattr` checks of the serialisers are not modelled. Every model object is taken to have the attributes they test, since the model classes declare them.
- Reports.CalculateSummaryStatistics: the averages and percentages are exact reals rather than floats.
- Response.TotalPages: requires a positive page size. A page size of 0 raises `ZeroDivisionError` in the source, and a negative one is never passed.
- Response.Pagination and Response.Paginated: carry the same positive-page-size requirement as `TotalPages`.
- Exceptions.ErrorDict: a truthy payload that is not a dict (which `dict()` would reject, or read as pairs) is treated as no payload.
- AnalysisDto.Project: a truthy section that is not a dict serialises as {}. In the source, `.get` on it would raise.
- AuthApi.GenerateSubmissionToken: the fallback that re-inserts the token without its deadline after a failed insert is not modelled. Neither is `max_usage`, which this route never stores.
- AuthModule.CreateUserSession: the encrypted OAuth tokens, IP address and user agent stored with a session are not modelled. The new session token is required to be unused, standing for the random token and the unique column of the source.

## Findings

| source | as written | input that shows it | evidently intended | confidence | as-written member | corrected member |
|---|---|---|---|---|---|---|
| backend/app/services/metadata_service.py:108-121 | a `lastModifiedBy` element without text stores None as the editor; the `'python-docx' in last_editor` screen then raises, and the whole extraction fails | a `core.xml` with an empty `<cp:lastModifiedBy/>` and no documented author | an editor element without text is skipped, leaving the editor 'Unavailable' | not executed | MetadataService.NullEditorFailsExtraction | MetadataService.ExtractFixed |
| backend/app/api/nlp.py:126-133 | the short-text guard returns `readability: None`; consolidation then evaluates `'scores' in None` (line 521) and raises, so a short text cannot be consolidated | the text "too short" (9 characters) | sections the guard left as None are read as absent: empty metrics and no recommendations | not executed | NlpApi.NineCharacterTextFails | NlpApi.ConsolidateFixed |
| backend/app/modules/reports.py:249 | each CSV row reads `submission.student_email`, which the `Submission` model does not have, so every export of at least one submission raises | any export with one or more submissions | an empty 'Student Email' cell, as for a missing student name | not executed | Reports.NonEmptyExportFails | Reports.GenerateCsvRows |
| backend/app/services/validation_service.py:68-69 | `re.match` with a final `$` also accepts an address followed by a newline | "ada@example.com\n" | the whole text must be an address, as `re.fullmatch` or `\Z` would require | not executed | ValidationService.TrailingNewlineAccepted | ValidationService.ValidateEmail |

`Reports.GenerateCsvRows` and `ValidationService.ValidateEmail` are the members the rest of
the model uses. `MetadataService.ExtractFixed` and `NlpApi.ConsolidateFixed` are reference
definitions only: the rest of the model keeps the extraction and consolidation as written, and
the lemmas below relate each corrected member to it. Attached to each finding are the lemma
that exhibits the as-written behaviour and the property the corrected member satisfies:

- `MetadataService.FixedAgreesWhenSourceSucceeds`;
- `NlpApi.ShortTextFailsConsolidation`;
- `Reports.CsvRowsMeans`;
- `ValidationService.AddressOf` and `ValidationService.MatchShape`.
