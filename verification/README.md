# TalentSync core, modelled in Dafny

TalentSync is a job-matching assistant. It builds a structured profile from
a candidate's CV and cover letter and finds scraped job postings similar to
that profile. It then asks a language model to score the fit of each job.
This project models the parts of it that are sequential logic and proves
what they promise:

- **The scraper's JSON normaliser** (`clean_json`), in module `ScrapedJobs`.
  It flattens the queries of a scraped job page into flat job records. It
  skips queries without data and entries without an id. It takes the first
  contact and location and joins list fields with `", "`.
- **Document helpers**:
  - `fix_line_breaks`, the line-merging rewrite of PDF text (`LineBreaks`);
  - the order-preserving de-duplication of DOCX lines (`DocxText`);
  - the extension dispatch of `process_cv` and `process_cover_letter`
    (`DocumentDispatch`);
  - Python's `str.strip`, `str.split`, `str.join`, `str.lower`, and
    integer rendering and parsing, which these use (`Text`).
- **Lookup helpers**: the `INDUSTRIES` table with `fetch_industries`
  (`Industries`), and `NullableIntegerField`, which reads `''` as `None`
  (`NullableInteger`).
- **The job-finding agent**:
  - its records and the additive `job_evaluations` reducer (`AgentTypes`);
  - its nodes (`JobFinding`);
  - its LangGraph graph (`JobFindingGraph`): four nodes in a line, then one
    `evaluate_fit` task per hydrated job, folded into the state in send
    order;
  - the validity of a stored fit evaluation (`FitEvaluationRecord`).
- **The profile agent**: its nodes and router (`ProfileAgent`), the text
  of a `uuid4()` (`Uuid`), and its graph as a suspend/resume state machine
  driven by a caller (`ProfileGraph`).

The language model, the similarity index, the job table, the profile table
and the document extractors are parameters: functions or maps the caller
supplies. `Wrappers` holds the `Option` and `Result` types.

A few behaviours of the code are easy to miss. The model follows the code
in each case:

- The profile graph registers only `create_profile` and `human_feedback`.
  No node checks for an existing profile or edits one.
- A failing `evaluate_fit` task is not caught, so it fails the whole run
  (`JobFindingGraph.JudgeFailureFailsRun`).
- A `KeywordList` object is always truthy, so an empty keyword list still
  queries the index, with `""`.
- The agent's `fit_scores` is an unbounded `int`. Only the validators of
  `UserJobFitEvaluation` bound a score, to 0..100, and only `full_clean`
  runs them (`FitEvaluationRecord.AgentScoreUnchecked`).
- `write_profile` passes the text of a `uuid4()` as the integer `id` of
  `DBUserProfile`, so it never stores a row
  (`ProfileAgent.WriteProfileNeverAddsRow`; see Findings).

## Model

| member | source | states |
|---|---|---|
| Text.Strip | src/data_processing/process_documents.py:48-50 | `str.strip()` with Python's whitespace set: the result has no leading or trailing whitespace, is no longer than its input, and leaves stripped text as it is |
| Text.StripSlice | src/data_processing/process_documents.py:48-50 | the stripped text is a contiguous slice of the input, and everything outside that slice is whitespace |
| Text.StripEmpty | src/data_processing/process_documents.py:53-54 | a line strips to `''` exactly when it is all whitespace |
| Text.StripIdempotent | src/data_processing/process_documents.py:289-290 | stripping twice gives what stripping once gives |
| Text.StripAll | src/data_processing/process_documents.py:289 | each line of a list is stripped on its own, and the list keeps its length and order |
| Text.Lower | src/data_processing/process_documents.py:316 | `str.lower()` keeps the length and lowers each character on its own |
| Text.Join | backend/apps/job_scraping/jobs_functions.py:161-163 | `sep.join(parts)` of no parts is `''`, of one part is that part, and always begins with the first part |
| Text.JoinNonEmpty | backend/apps/job_scraping/jobs_functions.py:161-163 | with a non-empty separator, the joined text is empty exactly when there are no parts or only one empty part |
| Text.Split | src/data_processing/process_documents.py:41 | `str.split(sep)` gives at least one piece, and no piece contains the separator |
| Text.JoinSplit | src/data_processing/process_documents.py:41 | joining the pieces of a split with the same separator gives back the text |
| Text.SplitJoin | src/data_processing/process_documents.py:59 | splitting a join whose parts do not contain the separator gives back the parts |
| Text.NatToString | backend/apps/job_scraping/jobs_functions.py:161 | `str(n)` of a natural number is a non-empty digit string without a leading zero |
| Text.IntToStringRoundTrip | backend/apps/job_scraping/jobs_functions.py:161 | `str(i)` is a well-formed decimal numeral that parses back to `i` |
| Text.PythonInt | backend/apps/profile_agent/agent_functions.py:98-99 | `int(text)`, as Django applies it to an integer lookup value, accepts only text that is non-empty once stripped and holds nothing but digits after its first character |
| Text.PythonIntOfIntToString | backend/apps/profile_agent/agent_functions.py:98-99 | `int(str(i)) == i` for every integer, so `int` accepts the text of every integer |
| Uuid.UuidText | backend/apps/profile_agent/agent_functions.py:96 | `str(uuid4())` has 36 characters, with hyphens at 8, 13, 18 and 23; the digits around them give back the uuid, and it begins and ends with a hexadecimal digit |
| Uuid.UuidIsNotAnInteger | backend/apps/profile_agent/agent_functions.py:96-99 | `int()` of a uuid's text raises `ValueError` for every uuid |
| LineBreaks.Width | src/data_processing/process_documents.py:45-57 | each output line consumes one or two input lines, and never reads past the end |
| LineBreaks.MergeLinesLoop | src/data_processing/process_documents.py:41-58 | the loop with its `skip_next` flag computes the merged line list |
| LineBreaks.MergeLinesCount | src/data_processing/process_documents.py:43-58 | `n` stripped lines merge into between `ceil(n/2)` and `n` lines |
| LineBreaks.MergeLinesGroups | src/data_processing/process_documents.py:44-58 | the output lines come from consecutive groups of one or two input lines, starting at line 0; a group of two is a mergeable pair joined by `" "`, and a lone line is followed by no line it could merge with |
| LineBreaks.PunctuatedLineNeverMerged | src/data_processing/process_documents.py:52 | a stripped line ending in `. ! ? ; : )` is emitted on its own |
| LineBreaks.MergeSingle | src/data_processing/process_documents.py:49 | the last line never merges forward, so a single line comes back as it is |
| LineBreaks.NoLineBreakIsStripped | src/data_processing/process_documents.py:41-59 | text with no `"\n"` is returned stripped |
| LineBreaks.MergedLinesHaveNoBreak | src/data_processing/process_documents.py:56 | merging lines without line breaks creates none |
| LineBreaks.FixLineBreaksLineCount | src/data_processing/process_documents.py:41-59 | the rewritten text has between `ceil(n/2)` and `n` lines when the input has `n` |
| DocxText.NonBlank | src/data_processing/process_documents.py:235-237 | a paragraph or run is kept exactly when its stripped text is not empty; order and multiplicity are stated by `DocxText.NonBlankConcat` and `DocxText.NonBlankAppend` |
| DocxText.NonBlankConcat | src/data_processing/process_documents.py:232-281 | filtering the paragraphs and then the runs gives the paragraphs' fragments first, each list in its own order |
| DocxText.NonBlankAppend | src/data_processing/process_documents.py:235-237 | one more fragment is appended exactly when its stripped text is not empty, which is the source's append-if loop |
| DocxText.DedupeMembers | src/data_processing/process_documents.py:286-294 | the de-duplicated list holds exactly the values of its input |
| DocxText.DedupeDistinct | src/data_processing/process_documents.py:286-294 | the de-duplicated lines are pairwise distinct |
| DocxText.DedupeKeepsFirstOccurrenceOrder | src/data_processing/process_documents.py:286-294 | the de-duplicated lines come in the order of their first occurrences |
| DocxText.UniqueLines | src/data_processing/process_documents.py:286-294 | the loop with its `seen` set returns the stripped lines, de-duplicated in first-occurrence order, pairwise distinct |
| DocxText.DedupeLinesCover | src/data_processing/process_documents.py:286-294 | every stripped input line appears in the output, every output line is stripped, and nothing else appears |
| DocxText.DocxDocumentLines | src/data_processing/process_documents.py:223-294 | the lines of a DOCX document are distinct, non-empty and stripped; each is the stripped text of some paragraph or text run; every non-blank paragraph and text run appears among them; and they come in the order their first fragments were collected |
| DocumentDispatch.RFind | src/data_processing/process_documents.py:316 | the last index of a character, or `-1` when it does not occur |
| DocumentDispatch.SplitExt | src/data_processing/process_documents.py:316 | `os.path.splitext` splits a path into a root and an extension that concatenate back to the path; when an extension is split off is stated by `DocumentDispatch.SplitExtCharacterized` |
| DocumentDispatch.ExtensionShape | src/data_processing/process_documents.py:316 | a non-empty extension starts with `.`, holds no other dot or separator, and follows a root whose last component is not all dots; the converse is `DocumentDispatch.SplitExtCharacterized` |
| DocumentDispatch.SplitExtCharacterized | src/data_processing/process_documents.py:316 | `splitext` splits off an extension exactly when the last path component has a dot with no dot after it and something other than a dot before it, and then splits at that dot; otherwise the root is the whole path |
| DocumentDispatch.ExtensionExamples | src/data_processing/process_documents.py:316 | `cv.PDF` has the extension `.pdf`, `.bashrc` and `docs.d/letter` have none, and `archive.tar.gz` has `.gz` |
| DocumentDispatch.ExtractorFor | src/data_processing/process_documents.py:317-326 | a lowered extension is dispatched exactly when it is one of `.txt .pdf .docx .png .jpg .jpeg .tiff`; any other raises an unsupported-file-type error naming it |
| DocumentDispatch.SupportedIff | src/data_processing/process_documents.py:315-353 | reading a CV or a cover letter succeeds exactly when the extension is supported, and otherwise fails with that extension |
| DocumentDispatch.PdfExtractors | src/data_processing/process_documents.py:315-353 | a `.pdf` CV uses the column-aware extractor and a `.pdf` cover letter the layout extractor; every other extension is read the same way for both |
| DocumentDispatch.CoverLetterIsStrippedCv | src/data_processing/process_documents.py:357 | a cover letter is returned stripped, and for any extension but `.pdf` it is the CV text stripped |
| DocumentDispatch.CvPdfIsStripped | src/data_processing/process_documents.py:203-211 | the column-aware PDF text of a CV is the stripped, line-fixed join of its columns |
| DocumentDispatch.ExtensionCaseInsensitive | src/data_processing/process_documents.py:316 | two paths that agree after lowering have the same lowered extension, so extension matching ignores case |
| DocumentDispatch.SplitExtLower | src/data_processing/process_documents.py:316 | splitting a lowered path gives the lowered root and the lowered extension |
| Industries.Project | backend/apps/job_scraping/constants.py:186-188 | one `(id, name)` pair per table entry, in table order, with the name in the requested language |
| Industries.SortByIdSorts | backend/apps/job_scraping/constants.py:190 | sorting by id gives an ascending permutation of its input |
| Industries.SortByIdOfSorted | backend/apps/job_scraping/constants.py:190 | sorting an already sorted list leaves it unchanged |
| Industries.TableShape | backend/apps/job_scraping/constants.py:16-173 | the table has 39 entries with ids 1..39 in order |
| Industries.FetchIndustriesTable | backend/apps/job_scraping/constants.py:175-191 | the result has 39 pairs, and the `k`-th is `(k + 1, INDUSTRIES[k + 1][lang])` |
| Industries.FetchIndustriesIds | backend/apps/job_scraping/constants.py:186-190 | the ids strictly ascend and are exactly 1..39 |
| Industries.NameInLanguage | backend/apps/job_scraping/constants.py:187 | the name is the `FR` or `EN` entry for those keys and `''` for any other language |
| Industries.FetchIndustriesUnknownLanguage | backend/apps/job_scraping/constants.py:187 | an unknown language keeps all 39 ids and gives `''` for every name |
| Industries.FetchIndustriesDefault | backend/apps/job_scraping/constants.py:175 | the default language is `EN` |
| NullableInteger.FromDbValue | backend/apps/job_scraping/fields.py:7-15 | `''` reads as `None`; any other value goes to the parent's conversion when there is one and comes back unchanged otherwise |
| NullableInteger.ToPython | backend/apps/job_scraping/fields.py:17-20 | `''` converts to `None`; any other value is the parent integer conversion's result or error |
| NullableInteger.FromDbValueWithoutParent | backend/apps/job_scraping/fields.py:12-15 | without a parent conversion a non-empty value is returned as it is, and reading twice is reading once |
| NullableInteger.EmptyStringIndependentOfParent | backend/apps/job_scraping/fields.py:9-19 | `''` becomes `None` whatever the parent conversion does |
| NullableInteger.OnlyEmptyStringIsNone | backend/apps/job_scraping/fields.py:9-20 | `0`, `' '` and `None` are not treated as the empty string |
| ScrapedJobs.CleanQuery | backend/apps/job_scraping/jobs_functions.py:143-212 | a query yields an entry exactly when its `state.data` is present and non-empty and the cleaned entry has a truthy id |
| ScrapedJobs.CleanAll | backend/apps/job_scraping/jobs_functions.py:143-214 | there is at most one entry per query, and every entry has a truthy id |
| ScrapedJobs.CleanJson | backend/apps/job_scraping/jobs_functions.py:126-217 | a missing `queries` key gives no entries, and every entry has a truthy id |
| ScrapedJobs.CleanJsonLoop | backend/apps/job_scraping/jobs_functions.py:138-217 | the loop over queries computes the cleaned list |
| ScrapedJobs.CleanAllFollowsQueries | backend/apps/job_scraping/jobs_functions.py:143-212 | each entry comes from its own query, at strictly increasing query positions, and every query that yields an entry is represented |
| ScrapedJobs.SkippedQueries | backend/apps/job_scraping/jobs_functions.py:144-214 | a query without data, or whose entry has a falsy id, contributes nothing |
| ScrapedJobs.FirstContactAndLocationOnly | backend/apps/job_scraping/jobs_functions.py:150-158 | contact and location fields come from the first contact and location only, with `''` for a missing key |
| ScrapedJobs.NoContactOrLocation | backend/apps/job_scraping/jobs_functions.py:150-158 | a missing or empty contacts or locations list gives `''` in every contact and location field |
| ScrapedJobs.AbsentFieldDefaults | backend/apps/job_scraping/jobs_functions.py:161-201 | absent lists join to `""`, absent nested company, template and application fields are `''`, and absent booleans are `False` |
| ScrapedJobs.LanguageSkillsField | backend/apps/job_scraping/jobs_functions.py:166-169 | the language skills are empty exactly when the list is absent or empty, and one skill renders as `"<language> (Level <level>)"` |
| ScrapedJobs.RenderSkills | backend/apps/job_scraping/jobs_functions.py:167-169 | each language skill is rendered on its own, in list order |
| AgentTypes.AddEvaluations | backend/apps/job_finding_agent/agent_classes.py:53 | `operator.add` keeps the current evaluations as a prefix and appends the update after them |
| AgentTypes.FanInAppends | backend/apps/job_finding_agent/agent_classes.py:53 | folding the updates in appends all of them in order |
| AgentTypes.FanInKeepsEarlier | backend/apps/job_finding_agent/agent_classes.py:53 | after fan-in the earlier evaluations are intact, and the length grows by the sum of the update lengths |
| AgentTypes.ConcatSingletons | backend/apps/job_finding_agent/agent_classes.py:53 | updates of one evaluation each contribute exactly one evaluation each, in order |
| AgentTypes.FanInOrderIndependent | backend/apps/job_finding_agent/agent_classes.py:53 | as a multiset, the merged evaluations do not depend on the order in which the tasks finish |
| JobFinding.Apply | backend/apps/job_finding_agent/agent_classes.py:44-55 | an update overwrites the keys it sets, appends its evaluations, and leaves every other key alone |
| JobFinding.RetrieveProfileFromDb | backend/apps/job_finding_agent/agent_functions.py:18-50 | the node fails exactly when the profile lookup fails, and otherwise sets only `user_profile` |
| JobFinding.PrepareProfileForSimilaritySearch | backend/apps/job_finding_agent/agent_functions.py:52-88 | a state without a profile raises before the LLM is called; with a profile, the node fails exactly when keyword extraction fails, with its error, and otherwise sets only `similarity_search_profile` |
| JobFinding.RetrieveIdSimilaritySearch | backend/apps/job_finding_agent/agent_functions.py:90-128 | without keywords the node returns `job_ids = []` and sends no query; otherwise it sends one query, the keywords joined by `", "` for 20 results, and fails exactly when the index raises, with that error, or returns the ids in one outer list, in result order |
| JobFinding.FlattenIdsMembers | backend/apps/job_finding_agent/agent_functions.py:142-144 | an id is in the flattened set exactly when it occurs in some sublist |
| JobFinding.FilterRowsMembers | backend/apps/job_finding_agent/agent_functions.py:147-161 | the hydrated jobs are exactly the store rows whose id is in the set |
| JobFinding.FilterRowsOrdered | backend/apps/job_finding_agent/agent_functions.py:147-161 | with ids as a primary key, each hydrated row appears once and in store order |
| JobFinding.RetrieveJobsFromIds | backend/apps/job_finding_agent/agent_functions.py:130-161 | the node fails exactly when some id is requested and the database raises; otherwise it sets only `job_info`, to exactly the stored rows with a requested id, and with no id it returns `[]` without reaching the database |
| JobFinding.SearchThenHydrate | backend/apps/job_finding_agent/agent_functions.py:116-161 | with keywords, the search fails exactly when the index raises on their query; after a successful search, hydration fails exactly when the index found an id and the database raises, and otherwise yields exactly the stored rows the index returned |
| JobFinding.NoKeywordsNoJobs | backend/apps/job_finding_agent/agent_functions.py:98-161 | without keywords there is no search and no job is hydrated, whatever the index and the database would do |
| JobFinding.SendToEvaluateFit | backend/apps/job_finding_agent/agent_functions.py:163-188 | one `Send('evaluate_fit', …)` per job, each carrying that job and the same profile; no jobs give no sends |
| JobFinding.EvaluateFit | backend/apps/job_finding_agent/agent_functions.py:190-264 | the task fails exactly when the LLM call fails; otherwise it returns one evaluation with the LLM's score and text |
| JobFinding.EvaluationCarriesJobId | backend/apps/job_finding_agent/agent_functions.py:200-264 | the evaluation's job id is `job[0]`, whatever the LLM put there |
| JobFindingGraph.Step | backend/apps/job_finding_agent/agent_graph.py:58-63 | every step moves to a later phase, so a run terminates |
| JobFindingGraph.RunLinear | backend/apps/job_finding_agent/agent_functions.py:18-161 | each node of the line fails exactly when the service it calls raises: the lookup, the keyword extraction (or a state without a profile), the index when there are keywords, and the database when there are ids |
| JobFindingGraph.EvaluateAll | backend/apps/job_finding_agent/agent_graph.py:62 | the fan-out runs one `evaluate_fit` per send and fails exactly when one of them fails |
| JobFindingGraph.ApplyAllEvaluations | backend/apps/job_finding_agent/agent_graph.py:62-63 | folding the task updates into the state changes only `job_evaluations`, by the additive reducer |
| JobFindingGraph.RunShape | backend/apps/job_finding_agent/agent_graph.py:58-66 | a run fails within the four linear nodes, or runs all four in order and then the fan-out |
| JobFindingGraph.PrefixRun | backend/apps/job_finding_agent/agent_graph.py:58-61 | a run that got through the first `k` nodes of the line is at node `k`, with those nodes in its trace |
| JobFindingGraph.LineFailsAt | backend/apps/job_finding_agent/agent_graph.py:58-61 | a node of the line that raises ends the run with its error, after exactly the nodes before it |
| JobFindingGraph.LookupFailureFailsRun | backend/apps/job_finding_agent/agent_functions.py:18-50 | a profile lookup that raises ends the run at the first node with that error, before any other node runs |
| JobFindingGraph.SearchFailureFailsRun | backend/apps/job_finding_agent/agent_functions.py:106-121 | once the keywords are prepared, an index that raises on their query fails the run after the first two nodes |
| JobFindingGraph.DatabaseFailureFailsRun | backend/apps/job_finding_agent/agent_functions.py:142-159 | a database that raises fails the run at the hydration node when the search found an id, and is never reached when it found none |
| JobFindingGraph.CompletedRun | backend/apps/job_finding_agent/agent_graph.py:58-66 | a completed run visits the four nodes in order and then `evaluate_fit` once per hydrated job; it appends one evaluation per job with that job's id and keeps the earlier ones; with no jobs, `job_evaluations` is unchanged |
| JobFindingGraph.LineKeepsEvaluations | backend/apps/job_finding_agent/agent_graph.py:58-61 | the linear nodes never touch `job_evaluations` |
| JobFindingGraph.FanOutEvaluations | backend/apps/job_finding_agent/agent_graph.py:62-63 | a successful fan-out changes only `job_evaluations`, appending one evaluation per job with that job's id |
| JobFindingGraph.JudgeFailureFailsRun | backend/apps/job_finding_agent/agent_graph.py:62 | one failing `evaluate_fit` fails the whole run after the linear nodes |
| FitEvaluationRecord.BoundErrors | backend/apps/job_finding_agent/models.py:31-34 | a min/max validator pair reports nothing exactly when the value is within the bounds |
| FitEvaluationRecord.Validate | backend/apps/job_finding_agent/models.py:31-51 | each validator reports its error exactly when its field breaks its bound; a null rating and the optional feedback are not checked |
| FitEvaluationRecord.ValidateAcceptsValid | backend/apps/job_finding_agent/models.py:31-51 | validation passes exactly when `llm_score` is in 0..100, `llm_evaluation` is not blank, and a present `user_score` is in 0..5 |
| FitEvaluationRecord.UserFieldsOptional | backend/apps/job_finding_agent/models.py:40-51 | `user_score` and `user_feedback` may both be null, and a blank feedback changes nothing |
| FitEvaluationRecord.AgentScoreUnchecked | backend/apps/job_finding_agent/agent_classes.py:27-29 | the agent's score is an unbounded `int`; the row's validators accept an agent evaluation exactly when its score is in 0..100 and its text is not empty, so a score of 101 is rejected by `full_clean` |
| ProfileAgent.ApplyProfileUpdate | backend/apps/profile_agent/agent_functions.py:73 | a node's return value sets `user_profile` when it carries one and leaves the documents and feedback alone |
| ProfileAgent.CreateProfile | backend/apps/profile_agent/agent_functions.py:16-73 | `user_docs[0]` is the CV and `user_docs[1]` the cover letter; fewer documents raise; the node fails exactly when the LLM does and otherwise sets a profile |
| ProfileAgent.CreateProfileOnlySetsProfile | backend/apps/profile_agent/agent_functions.py:60-73 | the node depends only on the two documents and the feedback, and changes only `user_profile` |
| ProfileAgent.HumanFeedback | backend/apps/profile_agent/agent_functions.py:75-78 | `human_feedback` changes no state |
| ProfileAgent.ShouldContinue | backend/apps/profile_agent/agent_functions.py:117-133 | the route is `"create_profile"` exactly for truthy feedback and `"write_profile"` otherwise |
| ProfileAgent.EmptyFeedbackRoutesToWrite | backend/apps/profile_agent/agent_functions.py:128-133 | absent, `None` and `""` feedback route to `"write_profile"` |
| ProfileAgent.WriteProfile | backend/apps/profile_agent/agent_functions.py:80-115 | the node returns `{}`; it changes nothing without a profile, when `int()` of the uuid's text raises, or when the database raises; otherwise `update_or_create` puts the profile at that integer id and keeps the other rows |
| ProfileAgent.WriteProfileNeverAddsRow | backend/apps/profile_agent/agent_functions.py:91-110 | `write_profile` as written never changes the profile table, whatever the profile and the database do |
| ProfileAgent.WriteProfileCorrected | backend/apps/profile_agent/agent_functions.py:91-110 | the intended write stores the profile under the next id of the table's sequence and advances it; without a profile, or when the database raises, the table is unchanged |
| ProfileAgent.CorrectedWriteAddsRow | backend/apps/profile_agent/agent_functions.py:96-108 | with the sequence ahead of every id, the intended write adds exactly one row, under an unused id, overwrites none and keeps the sequence ahead; otherwise it changes nothing |
| ProfileGraph.Shapes | backend/apps/profile_agent/agent_graph.py:21-26 | the graph registers only `create_profile` and `human_feedback`, and `"write_profile"` is neither registered nor in the path map |
| ProfileGraph.EnterCreateProfile | backend/apps/profile_agent/agent_graph.py:25-29 | entering `create_profile` never ends the run and never touches the profile table |
| ProfileGraph.StartSuspends | backend/apps/profile_agent/agent_graph.py:24-29 | the first `invoke` runs `create_profile` and suspends before `human_feedback` with the new profile in the state |
| ProfileGraph.FeedbackLoopsBack | backend/apps/profile_agent/agent_graph.py:25-29 | resuming with non-empty feedback runs `create_profile` again on the same documents plus that feedback and suspends again |
| ProfileGraph.EmptyFeedbackCrashes | backend/apps/profile_agent/agent_graph.py:26 | resuming with empty feedback raises on the unknown destination `"write_profile"` and writes nothing |
| ProfileGraph.AsWrittenStep | backend/apps/profile_agent/agent_graph.py:21-29 | one resumption of the graph as built never ends it, never writes, and only extends the trace |
| ProfileGraph.AsWrittenNeverEnds | backend/apps/profile_agent/agent_graph.py:21-29 | no sequence of resumptions ends the graph as built or runs `write_profile` |
| ProfileGraph.SessionNeverWrites | backend/apps/profile_agent/agent_graph.py:20-31 | a whole feedback session against the graph as built never ends normally and leaves the profile table unchanged |
| ProfileGraph.CorrectedAgreesOnFeedback | backend/apps/profile_agent/agent_graph.py:26 | on non-empty feedback, the graph with `write_profile` registered behaves exactly like the one as built |
| ProfileGraph.RoutedWriteStillStoresNothing | backend/apps/profile_agent/agent_functions.py:96-110 | with `write_profile` registered and routed but written as in the source, empty feedback ends the run and the profile table is unchanged |
| ProfileGraph.CorrectedEmptyFeedbackWrites | backend/apps/profile_agent/agent_functions.py:128-133 | in the corrected graph, empty feedback runs `write_profile` and ends the run; the profile is stored under the next id of the table's sequence unless there is none or the database raises, in which case the table is unchanged |
| ProfileGraph.CorrectedSessionEnds | backend/apps/profile_agent/agent_functions.py:117-133 | in the corrected graph, rounds of non-empty feedback followed by empty feedback end the run unless a node raised; the final profile is then stored under the next id of the table's sequence unless the database raises, and any feedback round leaves a profile |

## Left out

- HTTP scraping, SQLite and Chroma persistence, and embedding jobs are network or database I/O. They are not part of this model.
- JobFinding.RetrieveProfileFromDb: the `lookup` parameter stands for the `user.profile` relation that the comment at `backend/apps/job_finding_agent/agent_functions.py:31` assumes. With the models of the repository, that relation does not exist. `User` (`backend/apps/users/models.py:5-21`) declares no `profile`, and `DBUserProfile` (`backend/apps/profile_agent/models.py:3`) declares no link to `User`. So `user.profile` raises `AttributeError`, which lines 48-50 re-raise, and every run ends at the first node (`JobFindingGraph.LookupFailureFailsRun`). The model keeps the lookup general so that the later nodes can be stated at all.
- JobFinding.PrepareProfileForSimilaritySearch: the keyword-extracting LLM call is a parameter. Only the missing-profile check in front of it is modelled.
- The stray `%` at `backend/apps/job_finding_agent/agent_functions.py:29` means that file does not parse as written. The model treats the file as if that character were absent.
- LLM calls and prompt text are left out. The LLM is an uninterpreted function, so the "no invention" requirement on its output cannot be stated.
- K-means column detection and the bounding-box heuristics (`src/data_processing/process_documents.py:61-180`) are left out because they rely on sklearn and floating-point thresholds. The per-page column texts are a parameter.
- PDF, DOCX, OCR and plain-file reading are parameters (`Extracted`), because they call pdfplumber, python-docx, pytesseract and the file system. A `<w:t>` run whose text is `None` is not modelled.
- DocumentDispatch.SplitExt follows `ntpath.splitext` (both `\` and `/` separate; leading dots do not start an extension), because the code targets Windows.
- Text.Lower lowers ASCII letters only. `str.islower` is modelled for ASCII and Latin-1 lowercase letters only.
- The LangGraph runtime, its `MemorySaver` checkpointing and the real concurrency of `Send` are not modelled. The fan-in is a fold in send order, and `FanInOrderIndependent` shows that the order does not matter as a multiset.
- Text.PythonInt: the digit-group underscores and non-ASCII digits that Python's `int` also accepts are not modelled. A uuid's text holds neither, so the uuid result does not depend on them.
- Uuid: the version and variant digits of `uuid4()` are not singled out. The results hold for any 32 hexadecimal digits.
- ProfileAgent.WriteProfileCorrected: new ids come from a sequence that only grows, as PostgreSQL numbers rows. SQLite may hand out a deleted largest id again. The database settings are not part of this model.
- JobFinding.RetrieveJobsFromIds: a database error is one error for the whole table. Partial results and which query fails are not modelled.
- `scripts/test_profile_agent.py:19` binds the tuple `build_profile_graph()` returns, so the script stops at line 41 with an `AttributeError`. The `Session` model follows the loop the script evidently intends (lines 37-77), with the graph unpacked as `agent_graph.py:35` does. The script also calls the synchronous `invoke` and `update_state` on a graph whose `should_continue` is a coroutine; the model treats each call as running to completion, as `ainvoke` and `aupdate_state` would.
- `should_continue` and `write_profile` are `async def`. The model treats them as awaited, as under `ainvoke`.
- `update_state(..., as_node="human_feedback")` is modelled as the `GiveFeedback` resumption. Checkpoint history and time travel are left out.
- ScrapedJobs: JSON `null` and values of the wrong type are not modelled. Every raw field is either absent or of its expected type.
- `industry` and `regionId` are copied through as scalars, and the other scalar fields are carried as they are.
- FitEvaluationRecord: the `job` and `user` foreign keys, ids and timestamps are left to the database. `user_feedback` has no validator, so it is not checked.
- FitEvaluationRecord.FromEvaluation: no code of the repository creates a `UserJobFitEvaluation`, so the function only names how an agent evaluation's fields map onto one.
- FitEvaluationRecord.AgentScoreUnchecked: `save()` and `objects.create()` do not run field validators, so a score outside 0..100 would be stored unless a caller runs `full_clean` first. The lemma is about `full_clean` only.
- NullableInteger: the parent `IntegerField` conversion is a parameter, because it belongs to Django.
- JobFinding: a missing `job_ids` key reads as `[]`. The similarity scores are not retained, because the code drops them.
- JobFindingGraph.JudgeFailureFailsRun: a failing task fails the run, because the code does not catch it. Failure isolation per task is not modelled.
- Logging, the Telegram handler, settings, `LLMFactory`, views, admin, migrations and `agent_logic.py` are configuration or placeholder code. They are not part of this model.

## Findings

| source | as written | input that shows it | evidently intended | confidence | as-written member | corrected member |
|---|---|---|---|---|---|---|
| backend/apps/profile_agent/agent_graph.py:21-26 | The graph registers `create_profile` and `human_feedback` only, and the path map is `['create_profile', END]`. `should_continue` returns `"write_profile"` for empty feedback (backend/apps/profile_agent/agent_functions.py:133), a label outside the map, so that branch raises instead of saving the profile | Unpack `graph, memory = build_profile_graph()`, as backend/apps/profile_agent/agent_graph.py:35 does, `invoke` the initial state, then call `update_state(thread, {"user_feedback": None}, as_node="human_feedback")` and `invoke(None, thread)`. These are the calls of scripts/test_profile_agent.py:64-68, which as written stops earlier because line 19 binds the whole tuple | Register `write_profile`, map `"write_profile"` to it and add an edge from it to `END`, so empty feedback stores the profile and ends the run | not executed | ProfileGraph.EmptyFeedbackCrashes | ProfileGraph.CorrectedEmptyFeedbackWrites |
| backend/apps/profile_agent/agent_functions.py:96-110 | `write_profile` calls `DBUserProfile.objects.update_or_create(id=str(uuid.uuid4()), ...)`. `DBUserProfile` declares no primary key (backend/apps/profile_agent/models.py:3), so `id` is Django's integer `AutoField`, and Django converts the lookup value with `int()`. A uuid's text is not an integer, so the call raises `ValueError`, which the `except` at line 109 prints and swallows: no profile is ever stored | Any profile, with any uuid, for example `12345678-1234-4234-8234-123456789abc`: `int()` stops at the hyphen after the first eight digits | Create the row and let the database number it, `DBUserProfile.objects.create(...)` | not executed | ProfileAgent.WriteProfileNeverAddsRow | ProfileAgent.CorrectedWriteAddsRow |
