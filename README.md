# SkillScopeJob bookkeeping, modelled in Dafny

SkillScopeJob matches a user's job profile against job postings. It scrapes
Indeed through jobspy, stores the postings in SQLite, enriches missing company
data with an LLM, extracts profiles from CVs, evaluates CV–job fit with an LLM,
and normalises skill names. This project models the deterministic bookkeeping
around those services and proves what that bookkeeping promises:

- the relevance score and the ranking of postings;
- deduplication of postings by (title, company, location);
- search-term enhancement and search-parameter mapping;
- the live-scrape-then-database-fallback search;
- the set-style replacement of profile collections and the profile store;
- post-processing of the CV–job evaluation reply, its fallbacks, its
  validation and its summary;
- the enrichment reply parser, the "write only what is missing" updates, the
  status classifier, the 30-day staleness purge, the health report, the
  maintenance decision and the rate-limit backoff loops;
- the posting store writes: upsert and insert-or-ignore on the unique
  `job_url`, and the separation of new postings from duplicates;
- CV extraction post-processing: field classification, experience brackets,
  target roles, default keys, entry stamping, success and failure structures;
- skill normalisation, reply parsing and sorted aggregation;
- the timestamp repair script.

Every service the code calls is a parameter of the model:

- the LLM's reply, or the fact that the call raised;
- the jobspy scraper's data frame;
- the SQLite query answers that depend on `LIKE` searches;
- the regex field extraction of the evaluator;
- JSON decoding;
- `uuid4`;
- SQLite's `datetime()` parser;
- the clock.

SQLite tables are sequences of row values. Where the source updates a table
or an object in place, the model is a class whose methods change its fields.
Examples are the posting table, the profile collection, the profile table,
the job store and the enrichment database. Each such method is proved
equal to a function of the old state, and the lemmas about that function
state what the operation promises.

Several components exist twice, once under `src/skillscope/` and once at the
repository root. Each copy is modelled as written.

- Shared code is modelled once and imported by the other copy's module.
- The differences are proved to behave differently where they do. Examples:
  - `RootCvExtraction.SoftwareBeforeData`;
  - `RootCvExtraction.ExperienceBucketAgrees`;
  - `CrewEnrichment.CrewBatchAgrees`.
- Shared with the root `profile_job_matcher.py` (taken from `SrcMatcher`): the relevance score, term enhancement, parameter extraction, remote setting, `_deduplicate_fresh_jobs` and the control flow of `run_profile_based_search`. The two `_deduplicate_fresh_jobs` agree only on text fields: the package copy applies `str()` first, while the root copy calls `.strip()` directly and raises on a `None` title, company or location. A posting whose title or description is `None` never reaches either copy: scoring it raises inside the per-search `try`, and that search adds nothing (`SrcMatcher.SearchJobsCorrect`). Company and location are modelled as text; see "## Left out". For that search, the database answer is the root copy's own `get_profile_job_matches`.
- Shared with the root `indeed_scraper.py` (taken from `SrcScraper`): `convert_dataframe_to_records`.
- The root `profile_job_matcher.py:11` imports `scrape_indeed_jobs_with_profile` from `indeed_scraper`. The root `indeed_scraper.py` does not define it; its functions are at :35-289. So the root matcher fails at import when the root scraper is the one on the path. The root `cv_job_evaluator.py:29-33` then calls `exit(1)`. The `RootMatcher` rows model code that runs only when another `indeed_scraper`, such as the package's, is importable under that name.
- Both INSERTs of the package scraper name `last_seen_timestamp` (src/skillscope/scrapers/indeed_scraper.py:127-143, :450-466). The scraper's own `init_database` (:35-66) creates the table without that column, and the enhanced insert adds only `search_job_type` and `search_is_remote` (:433-441). On such a table every INSERT raises; the error is logged and the record skipped (:162, :475). So nothing is stored and every posting is reported as a duplicate. `SrcScraper.JobStore` carries the schema as `hasLastSeen`, and every scraper contract states both cases.
- Shared with `data_enrichment_crew.py` (taken from `SrcEnrichment`): the selection query, the reply parser, the acceptance rules and `is_rate_limit_error`.
- The rate-limit backoff of both `main`s and of `run_data_enrichment_for_app` cannot fire as written. `batch_enrichment` catches every exception after `sqlite3.connect` and returns False (src/skillscope/core/data_enrichment.py:763-774, data_enrichment_crew.py:344-351). Only a failure to open or close the database escapes, and its message is not a rate-limit message. The loops are modelled over any attempt outcomes, as the loops are written. `MainLoopNeverBacksOff`, `AppLoopNeverRetries` and `CrewMainNeverBacksOff` state what happens when no outcome is rate limited, which is every run of the source.
- Shared with the root `cv_extraction.py` (taken from `SrcCvExtraction`): the file guards, `_parse_llm_response`, `_post_process_cv_data` and the empty structure. It uses the root copy's 3000-character prompt cut.
- `Backup/skill_analyzer.py` is byte-for-byte the same as `skill_analyzer.py`, so one module models both.

Helper modules: `Wrappers` (Option), `Text` (ASCII lower-casing, Python's
`strip`, substring search, split and join, digits) and `Seqs` (first-of-key
deduplication, stable descending sort, distinctness, prefixes).

## Model

| member | source | states |
|---|---|---|
| SrcMatcher.RelevanceScoreBounds | src/skillscope/core/profile_job_matcher.py:736-751 | the relevance score is always in [30, 100] and exactly 30 with no keywords |
| SrcMatcher.RelevanceScoreMonotone | src/skillscope/core/profile_job_matcher.py:736-751 | adding keywords never lowers the score |
| SrcMatcher.CalculateRelevanceScore | src/skillscope/core/profile_job_matcher.py:736-751 | the accumulator loop (+20 for a title hit, else +10 for a description hit, capped at 100) computes the relevance score, which lies in [30, 100] |
| SrcMatcher.DeduplicateFreshJobs | src/skillscope/core/profile_job_matcher.py:781-805 | the result is a subsequence of the input with no two jobs sharing a stripped, lower-cased (title, company, location) key, and the first job of every key is kept |
| SrcMatcher.JobTypeMapping | src/skillscope/core/profile_job_matcher.py:54-67 | every mapped job type is one of fulltime, parttime, internship, contract |
| SrcMatcher.EnhanceWithCorrect | src/skillscope/core/profile_job_matcher.py:456-474 | enhancement only appends: the term keeps its start, modifiers added are pairwise different, and every lower-case modifier considered ends up in the lower-cased term |
| SrcMatcher.EnhancedKeeps | src/skillscope/core/profile_job_matcher.py:467-472 | a modifier already present in the lower-cased term stays present |
| SrcMatcher.EnhancedTermUnmapped | src/skillscope/core/profile_job_matcher.py:456-474 | with no job type that has modifiers the base term comes back unchanged |
| SrcMatcher.EnhancedTermCorrect | src/skillscope/core/profile_job_matcher.py:456-474 | the enhanced term starts with the base term and contains every modifier of the given job types once lower-cased |
| SrcMatcher.EnhanceSearchTerm | src/skillscope/core/profile_job_matcher.py:456-474 | the loop computes the enhanced term, which starts with the base term and holds every modifier |
| SrcMatcher.AddModifiers | src/skillscope/core/profile_job_matcher.py:467-470 | the inner loop over one job type's modifiers ends where considering them one by one with the rest of the modifiers would |
| SrcMatcher.MapLocationDenmark | src/skillscope/core/profile_job_matcher.py:490-505 | every mapped location ends in ", denmark" |
| SrcMatcher.MapLocations | src/skillscope/core/profile_job_matcher.py:490-505 | each preferred location is mapped in order |
| SrcMatcher.MapJobTypes | src/skillscope/core/profile_job_matcher.py:515-522 | unmapped job types are dropped and the rest are scraper job types |
| SrcMatcher.SearchLocationsCorrect | src/skillscope/core/profile_job_matcher.py:488-512 | the locations are never empty (default copenhagen, denmark), have no duplicates, all end in ", denmark", and are exactly the mapped preferred locations when there are any |
| SrcMatcher.SearchJobTypesCorrect | src/skillscope/core/profile_job_matcher.py:514-529 | the job types are never empty (default fulltime), duplicate-free, all valid scraper types, and exactly the mapped ones when any maps |
| SrcMatcher.ExtractSearchParameters | src/skillscope/core/profile_job_matcher.py:475-532 | the loops build the search parameters, whose location and job-type lists are non-empty and duplicate-free |
| SrcMatcher.CollectLocations | src/skillscope/core/profile_job_matcher.py:488-512 | the location loop and its Copenhagen default compute the search locations |
| SrcMatcher.CollectJobTypes | src/skillscope/core/profile_job_matcher.py:514-530 | the job-type loop, its fulltime default and the order-keeping dedup compute the search job types |
| SrcMatcher.DetermineRemoteSetting | src/skillscope/core/profile_job_matcher.py:533-546 | True exactly for "Primarily Remote", False exactly for "Primarily On-site", None for everything else |
| SrcMatcher.SearchCount | src/skillscope/core/profile_job_matcher.py:314-315 | at most 3 titles times 2 locations are searched |
| SrcMatcher.EnhancedTerms | src/skillscope/core/profile_job_matcher.py:318-321 | one enhanced search term per title |
| SrcMatcher.TagJobsTagged | src/skillscope/core/profile_job_matcher.py:349-355 | every posting of a search is tagged live_indeed with its term and location and carries its relevance score |
| SrcMatcher.RowJobsTagged | src/skillscope/core/profile_job_matcher.py:330-369 | every posting of a term's searches was found for that term in one of the locations |
| SrcMatcher.LiveJobsTagged | src/skillscope/core/profile_job_matcher.py:329-369 | every live posting was found by a search for one of the terms and locations and is scored against the job titles |
| SrcMatcher.RankedLiveJobsCorrect | src/skillscope/core/profile_job_matcher.py:372-376 | the ranking is a permutation of the deduplicated live postings, in descending score order, with no two sharing a normalised (title, company, location) key; each was found by a live search and scored in [30, 100] |
| SrcMatcher.LiveOutcomeCorrect | src/skillscope/core/profile_job_matcher.py:379-402 | a live_scraping result has fallback_used False, total_jobs_found equal to the number of unique postings, and jobs equal to the first max_results of the ranking: the best max_results unique postings, best first, none left out scoring above one kept; at most 3 x 2 searches ran |
| SrcMatcher.OutcomeSources | src/skillscope/core/profile_job_matcher.py:372-454 | live_scraping exactly when live scraping yields postings; database_fallback exactly when it does not and the database has matches; failed when neither has any; fallback_used exactly when not live |
| SrcMatcher.EnhanceTitles | src/skillscope/core/profile_job_matcher.py:318-321 | the loop enhances every title in order |
| SrcMatcher.TagFoundJobs | src/skillscope/core/profile_job_matcher.py:349-355 | the loop scores and tags each posting of a search, and yields nothing at the first posting whose title or description is None, where the scoring raises |
| SrcMatcher.TagJobsPointwise | src/skillscope/core/profile_job_matcher.py:349-355 | tagging replaces each posting, in order, by itself with its score and the search's tag |
| SrcMatcher.SearchJobsCorrect | src/skillscope/core/profile_job_matcher.py:335-370 | a search adds nothing when the scraper raised or when any of its postings has a None title or description (the scoring raises before the extend and the except continues); otherwise it adds every posting, in order, scored and tagged |
| SrcMatcher.SearchRow | src/skillscope/core/profile_job_matcher.py:330-369 | the inner loop searches one term in every location and skips a search that raises |
| SrcMatcher.SearchLocation | src/skillscope/core/profile_job_matcher.py:335-357 | one search gives its postings scored and tagged with the term and location, or nothing when the scraper or the scoring of any of its postings raises |
| SrcMatcher.SearchAll | src/skillscope/core/profile_job_matcher.py:329-369 | the outer loop searches every term in every location |
| SrcMatcher.RunProfileBasedSearch | src/skillscope/core/profile_job_matcher.py:282-455 | the whole search computes the outcome whose sources are stated by OutcomeSources and LiveOutcomeCorrect |
| SrcMatcher.Candidates | src/skillscope/core/profile_job_matcher.py:579-597 | every candidate comes from the keyword, field, skills or recent-postings query |
| SrcMatcher.Unscored | src/skillscope/core/profile_job_matcher.py:563-567 | without a stored profile the recent postings are returned with no score |
| SrcMatcher.WriteScoresEffect | src/skillscope/core/profile_job_matcher.py:603-612 | writing the scores sets each candidate's user_profile_match to its score and leaves every other posting as it was |
| SrcMatcher.DatabaseMatchesCorrect | src/skillscope/core/profile_job_matcher.py:547-625 | the database matches are the best limit of the unique candidates (min(limit, unique) of them), best first, none left out scoring above one kept; ids are distinct and each is a candidate carrying its keyword score in [30, 100]; an empty table, or a candidate whose NULL title or description makes scoring raise, gives none |
| SrcMatcher.RankedMatchesCorrect | src/skillscope/core/profile_job_matcher.py:598-614 | scoring, sorting and cutting to limit keeps the best min(limit, unique) scored postings, best first, none left out scoring above one kept, with distinct ids, each scored by the keyword rule in [30, 100] |
| SrcMatcher.ScoreAllBounds | src/skillscope/core/profile_job_matcher.py:603-612 | one match per candidate, each carrying the keyword score of its own title and description, in [30, 100] |
| SrcMatcher.ScoredIdsDistinct | src/skillscope/core/profile_job_matcher.py:598-612 | candidates unique by id stay unique by id once scored |
| SrcMatcher.StoredScoresAgree | src/skillscope/core/profile_job_matcher.py:603-615 | once committed, every returned posting's stored user_profile_match is the score it is returned with, and postings not among the candidates keep their stored value |
| SrcMatcher.ScoredAgreesWithWritten | src/skillscope/core/profile_job_matcher.py:603-612 | the score of every scored candidate is the one written for its id |
| SrcMatcher.PostingTable.GetProfileJobMatches | src/skillscope/core/profile_job_matcher.py:547-625 | returns the database matches and writes back and commits every candidate's score, or writes nothing when it does not commit |
| SrcMatcher.WantedNamesMembers | src/skillscope/core/profile_job_matcher.py:161 | a name is wanted exactly when some non-blank submitted item strips to it |
| SrcMatcher.UpdatedNamesCorrect | src/skillscope/core/profile_job_matcher.py:153-174 | after the update the collection holds exactly the wanted names, each once; names it already had and still wants are kept in their old order and not re-added |
| SrcMatcher.UpdatedNamesIdempotent | src/skillscope/core/profile_job_matcher.py:153-174 | updating twice with the same items changes nothing the second time |
| SrcMatcher.ProfileCollection.Update | src/skillscope/core/profile_job_matcher.py:153-174 | the deletion loop and the append loop leave the collection's names equal to the updated names |
| RootMatcher.DeduplicateAndEnhanceScoring | profile_job_matcher.py:630-644 | the one-pass loop with a seen set computes the deduplicated and scored rows, or fails when a kept row has a NULL title or description |
| RootMatcher.UnscorableFrom | profile_job_matcher.py:630-644 | a newly seen row with a NULL title or description makes the scoring of the whole deduplicated list fail |
| RootMatcher.DedupAndScoreCorrect | profile_job_matcher.py:630-644 | one row per exact, unnormalised (title, company, location) key, the first, and every key of the input is represented; each kept row carries its own keyword relevance score; a kept row with a NULL title or description makes the scoring fail |
| RootMatcher.UniqueOfPrefix | profile_job_matcher.py:636-643 | the rows kept from a prefix are a prefix of the rows kept from the whole |
| RootMatcher.DatabaseMatchesCorrect | profile_job_matcher.py:357-431 | with a stored profile: the best limit of the deduplicated scored candidates, best first, none left out scoring above one kept; exact keys are distinct and each row is a candidate with relevance_score set by the keyword rule, in [30, 100]; an empty table or an unscorable kept candidate gives none |
| RootMatcher.ScoredFromCandidates | profile_job_matcher.py:630-644 | every deduplicated scored row is a candidate with its keyword score in [30, 100], and exact keys are distinct |
| RootMatcher.NoProfileMatches | profile_job_matcher.py:381-385 | without a stored profile the recent quality postings are returned as the query gave them, unscored |
| RootMatcher.OtherSessionsMembers | profile_job_matcher.py:483-500 | INSERT OR REPLACE removes exactly the rows of the session being stored |
| RootMatcher.StoreKeepsValid | profile_job_matcher.py:483-500 | the table keeps one row per session id and fresh row ids |
| RootMatcher.StoreReplaces | profile_job_matcher.py:483-500 | after a store the session has exactly one row, holding the profile just stored, and every other session holds what it held |
| RootMatcher.ProfileTable.StoreUserProfile | profile_job_matcher.py:476-509 | the store replaces the session's row with a new row stamped now and keeps the table valid |
| RootMatcher.JobAgeDistribution | profile_job_matcher.py:453-475 | the total is the row count (0 when the query fails) and fresh, recent, aging and stale are always 0 |
| CvEvaluator.Clamp | cv_job_evaluator.py:316 | max(lo, min(hi, x)) lies in [lo, hi] and is x when x is already there |
| CvEvaluator.ScoreFromCorrect | cv_job_evaluator.py:269-288 | a match score read from the reply is the first pattern's number in [0, 100] |
| CvEvaluator.TextFromCorrect | cv_job_evaluator.py:289-299 | a text field read from the reply is the first usable match, stripped, longer than 2 and at most 300 characters |
| CvEvaluator.ExtractMatchScore | cv_job_evaluator.py:269-288 | the pattern loop stops at the first usable score |
| CvEvaluator.ExtractText | cv_job_evaluator.py:269-299 | the pattern loop stops at the first usable text |
| CvEvaluator.FoundInBound | cv_job_evaluator.py:286-297 | no more fields are found than there are fields |
| CvEvaluator.SingleEvaluationCorrect | cv_job_evaluator.py:161-349 | after parsing a section every field is set; a read score is in [0, 100], otherwise it is max(25, min(85, relevance + 5)) with relevance defaulting to 40; a missing text gets its default; parsing_warning is set exactly when fewer than 3 fields were found |
| CvEvaluator.ParseSingleJobEvaluation | cv_job_evaluator.py:161-349 | the field loop computes the single evaluation |
| CvEvaluator.ReadTexts | cv_job_evaluator.py:264-333 | the text fields in order, each the value read or its default message, and how many were read |
| CvEvaluator.FallbackSingleCorrect | cv_job_evaluator.py:620-649 | the single-job fallback scores in [25, 75]; fit is Fair iff the score is at least 50, else Needs Review; likelihood Medium iff at least 50, else Low; parsing_fallback is set |
| CvEvaluator.BandCountsSum | cv_job_evaluator.py:597-608 | the high, medium and low counts add up to the number of scores |
| CvEvaluator.SummaryCorrect | cv_job_evaluator.py:597-616 | the band counts sum to the number of scores and best_matches holds the min(3, n) best evaluations in descending score order, taken from the list |
| CvEvaluator.Copies | cv_job_evaluator.py:565-570 | the whole response repeated once per job |
| CvEvaluator.EvaluationsUpTo | cv_job_evaluator.py:572-592 | one evaluation per section used |
| CvEvaluator.EvaluationForCorrect | cv_job_evaluator.py:575-590 | the evaluation kept for a section is for its job with a positive score, and is the single-job fallback exactly when the parsed score is 0 |
| CvEvaluator.SimplifiedResultsCorrect | cv_job_evaluator.py:497-619 | one evaluation per section used, never more than the jobs; exactly one per job when no section was detected; the i-th is for the i-th job |
| CvEvaluator.ParseSimplifiedEvaluationResponse | cv_job_evaluator.py:497-619 | the section loop computes the simplified results |
| CvEvaluator.FallbackJobEvaluationCorrect | cv_job_evaluator.py:871-927 | each fallback evaluation is scored in [25, 85] from the job's relevance; fit is Good from 60, Fair from 40, else Needs Review |
| CvEvaluator.FallbackEvaluationCorrect | cv_job_evaluator.py:871-927 | one fallback evaluation per job, in order, and the band counts add up to the number of jobs |
| CvEvaluator.ValidatedCorrect | cv_job_evaluator.py:786-808 | every validated score is in [10, 95] (above 95 becomes 95, below 10 becomes 15); the likelihood is judged on the score before capping, and a score of 85 or more with likelihood Low only rises to Medium |
| CvEvaluator.ValidatedKeepsDefaultLikelihood | cv_job_evaluator.py:330 | the parser's default likelihood sentence is never adjusted by validation |
| CvEvaluator.ValidateOne | cv_job_evaluator.py:790-807 | the loop body caps the score and then adjusts the likelihood |
| CvEvaluator.ApplyBalancedValidation | cv_job_evaluator.py:786-808 | every evaluation of the array is replaced in place by its validated form |
| CvEvaluator.QualifiedMembers | cv_job_evaluator.py:96-112 | the jobs kept are exactly the qualifying ones, each with its match type |
| CvEvaluator.WithMatchTypeQualifies | cv_job_evaluator.py:109-110 | setting the match type keeps a job qualifying |
| CvEvaluator.TopJobMatchesCorrect | cv_job_evaluator.py:96-120 | the min(limit, qualifying) most relevant qualifying matches, best first, each with non-blank title, company and description, a description longer than 50 characters and relevance above 10, and a match type; a qualifying match left out is no more relevant than any chosen; all qualify when at most limit do |
| CvEvaluator.GetTopJobMatches | cv_job_evaluator.py:80-133 | the filter loop and sort compute the top matches |
| CvEvaluator.ShownDescription | cv_job_evaluator.py:738-769 | a description is cut to 800 characters followed by "..." only when longer |
| CvEvaluator.FormatJobsPrefix | cv_job_evaluator.py:738-769 | the text for the first jobs is a prefix of the text for all of them |
| CvEvaluator.JobBlockHeader | cv_job_evaluator.py:738-769 | each job block starts with JOB_n and the number reads back as n |
| CvEvaluator.FormatJobsForEvaluation | cv_job_evaluator.py:738-769 | the loop appends one block per job |
| SrcEnrichment.Survivors | src/skillscope/core/data_enrichment.py:92-151 | the purge never adds rows |
| SrcEnrichment.SurvivorsCorrect | src/skillscope/core/data_enrichment.py:92-151 | the purge deletes exactly the rows whose last_seen is before the cutoff or NULL; survivors keep table order and jobs_after = jobs_before - jobs_removed |
| SrcEnrichment.SurvivorsWithoutOld | src/skillscope/core/data_enrichment.py:92-151 | with nothing old the purge deletes nothing |
| SrcEnrichment.SurvivorsHaveNoOld | src/skillscope/core/data_enrichment.py:92-151 | after the purge no old row is left |
| SrcEnrichment.ActivePlusOld | src/skillscope/core/data_enrichment.py:233-274 | every row is counted once, as active or as old |
| SrcEnrichment.WithFreshness | src/skillscope/core/data_enrichment.py:205-232 | every row is relabelled |
| SrcEnrichment.FreshnessMatchesDistribution | src/skillscope/core/data_enrichment.py:205-274 | the rows labelled active (last_seen at or after the cutoff) are as many as the distribution's active count, the inactive ones as many as the old count |
| SrcEnrichment.WithFreshnessKeepsOld | src/skillscope/core/data_enrichment.py:205-232 | relabelling does not change which rows are old |
| SrcEnrichment.JobAgeDistribution | src/skillscope/core/data_enrichment.py:233-274 | active + old = total |
| SrcEnrichment.DatabaseHealthReport | src/skillscope/core/data_enrichment.py:397-416 | the freshness ratio is active over total, 0 for an empty table, and always in [0, 1] |
| SrcEnrichment.MaintenanceNeededIff | src/skillscope/core/data_enrichment.py:418-465 | maintenance is needed exactly when there are old rows, no cleanup was recorded, or the last was at least seven days ago |
| SrcEnrichment.JobDatabase.CleanOldJobs | src/skillscope/core/data_enrichment.py:92-151 | deletes the old rows, records the cleanup time and reports the counts before and after |
| SrcEnrichment.JobDatabase.UpdateFreshness | src/skillscope/core/data_enrichment.py:205-232 | labels every row active or inactive against the cutoff |
| SrcEnrichment.JobDatabase.AutoMaintenance | src/skillscope/core/data_enrichment.py:418-465 | runs the purge and relabelling exactly when a reason is found, otherwise changes nothing |
| SrcEnrichment.JobDatabase.BatchEnrichment | src/skillscope/core/data_enrichment.py:530-777 | selects, parses the reply and writes each job's missing fields and status, returning the batch's flag |
| SrcEnrichment.MaintenanceSettles | src/skillscope/core/data_enrichment.py:418-465 | right after maintenance a second check at the same instant finds no reason |
| SrcEnrichment.CleanupLeavesOnlyActive | src/skillscope/core/data_enrichment.py:344-380 | after the simple cleanup every remaining row is labelled active |
| SrcEnrichment.RateLimitTwoTests | src/skillscope/core/data_enrichment.py:520-529 | a message is a rate-limit error exactly when its lower-cased text contains "rate limit" or it contains "model_rate_limit"; an empty message is not |
| SrcEnrichment.ParseReply | src/skillscope/core/data_enrichment.py:643-686 | the line loop computes the parsed records |
| SrcEnrichment.ParsedUpdatesValid | src/skillscope/core/data_enrichment.py:643-686 | every record is keyed by a non-empty id, holds at least one field, and each field passed its length and placeholder rule |
| SrcEnrichment.LinesBeforeFirstIdIgnored | src/skillscope/core/data_enrichment.py:654-684 | field lines before the first JOB_ID line are ignored |
| SrcEnrichment.LastRecordSaved | src/skillscope/core/data_enrichment.py:654-686 | the last record is saved under its id at the end, a repeated id overwriting the earlier record, and a record with no accepted field is not saved |
| SrcEnrichment.Candidates | src/skillscope/core/data_enrichment.py:539-548 | the selection never adds rows |
| SrcEnrichment.CandidatesMembers | src/skillscope/core/data_enrichment.py:539-548 | a row is a candidate exactly when it needs enrichment |
| SrcEnrichment.SqlEmptyIsMissing | src/skillscope/core/data_enrichment.py:539-586 | a field empty to SQL is also missing to Python |
| SrcEnrichment.SelectionCorrect | src/skillscope/core/data_enrichment.py:539-586 | at most batch_size records, each from the table, with a field missing and a description |
| SrcEnrichment.Classify | src/skillscope/core/data_enrichment.py:733-748 | full iff all three fields are non-blank, partial iff at least one is, pending otherwise |
| SrcEnrichment.UpdateRows | src/skillscope/core/data_enrichment.py:699-730 | the update keeps the number of rows |
| SrcEnrichment.ApplyAll | src/skillscope/core/data_enrichment.py:694-760 | the update loop keeps the rows and counts at most one update per job |
| SrcEnrichment.ApplyAllEvolves | src/skillscope/core/data_enrichment.py:694-760 | applying the parsed records changes each row only by filling missing fields and its status, for the jobs of the batch |
| SrcEnrichment.NoCountNoChange | src/skillscope/core/data_enrichment.py:694-760 | a pass that counted no update left the table as it was |
| SrcEnrichment.BatchEvolves | src/skillscope/core/data_enrichment.py:530-777 | every row changes only as filling its missing fields allows |
| SrcEnrichment.BatchKeepsPresentFields | src/skillscope/core/data_enrichment.py:699-730 | a row not selected is untouched and a present company, industry or description stays as it was |
| SrcEnrichment.BatchResult | src/skillscope/core/data_enrichment.py:530-777 | with nothing to enrich the batch succeeds without writing; without a reply it fails without writing; a failed batch wrote nothing; a reply with a parsed record succeeds |
| SrcEnrichment.RunBatches | src/skillscope/core/data_enrichment.py:961-1012 | the batch loop of main computes the backoff state |
| SrcEnrichment.MainLoopBounds | src/skillscope/core/data_enrichment.py:961-1012 | at most 15 batches are counted and a rate-limited call is retried without counting; after k retries batch_size is max(3, start // 2^k), never above its start and never increasing, and wait_time is min(3 * 2^k, 60) |
| SrcEnrichment.MainLoopWithoutRateLimit | src/skillscope/core/data_enrichment.py:966-987 | batch_enrichment (:530-537, :763-774) catches everything after connecting, so no call is rate limited; without a rate-limited call the loop keeps its retries, batch size and wait, and every further call gets the current size |
| SrcEnrichment.MainLoopNeverBacksOff | src/skillscope/core/data_enrichment.py:961-987 | from the start of main with no rate-limited call: no retries, every call at the start size, the wait stays 3 |
| SrcEnrichment.AppLoopBounds | src/skillscope/core/data_enrichment.py:1109-1157 | the app loop counts at most max_batches, every call is counted or retried, after k retries the wait is min(start * 2^k, 30), and in the auto context nothing is retried |
| SrcEnrichment.AppLoopWithoutRateLimit | src/skillscope/core/data_enrichment.py:1114-1150 | without a rate-limited call the app loop keeps its retries and wait, and every call is counted as a batch |
| SrcEnrichment.AppLoopNeverRetries | src/skillscope/core/data_enrichment.py:1109-1150 | from the start of the app loop with no rate-limited call: no retries, the wait stays at 2 (auto) or 3, and batches equal calls |
| SrcEnrichment.AutoStopsAtFirstException | src/skillscope/core/data_enrichment.py:1138-1152 | in the auto context the first exception ends the loop |
| SrcEnrichment.NothingMissingNothingSelected | src/skillscope/core/data_enrichment.py:539-586 | with no missing field nothing is selected and the batch succeeds without writing |
| SrcEnrichment.RunForAppCorrect | src/skillscope/core/data_enrichment.py:1048-1201 | the app run succeeds exactly when the database and its statistics are there and either nothing is missing or the LLM test passes and the final statistics are read; the improvement is the drop in missing fields |
| CrewEnrichment.CrewBatchAgrees | data_enrichment_crew.py:125-349 | the crew batch returns the same flag as the newer one and leaves every row as it does except that no status is written |
| CrewEnrichment.CrewBatchKeepsPresentFields | data_enrichment_crew.py:288-329 | only missing fields are written: a row not selected is untouched, present fields are kept, and no status is ever written |
| CrewEnrichment.CrewDatabase.BatchEnrichment | data_enrichment_crew.py:125-349 | the crew batch's rows and return flag |
| CrewEnrichment.TestStep | data_enrichment_crew.py:407-417 | a line never removes an entry of the test parser |
| CrewEnrichment.TestParse | data_enrichment_crew.py:404-417 | the loop of the self-test computes the test parse |
| CrewEnrichment.TestParsedKeys | data_enrichment_crew.py:404-417 | the test parser keeps an entry for exactly the ids of the JOB_ID lines, whether or not a field follows |
| CrewEnrichment.TestParserKeepsPlaceholders | data_enrichment_crew.py:404-417 | the test parser applies no validation: a placeholder company is still recorded |
| CrewEnrichment.CrewMainCorrect | data_enrichment_crew.py:433-545 | main runs batches exactly when the database exists, the self test answered and a field is missing; batch_size starts at 8, halves with floor 3, and wait_time doubles to at most 60 |
| CrewEnrichment.CrewMainNeverBacksOff | data_enrichment_crew.py:476-499 | the crew batch (:125-133, :344-351) also catches everything after connecting; with no rate-limited call every batch has 8 records and the wait stays 3 |
| SrcScraper.LocationOf | src/skillscope/scrapers/indeed_scraper.py:72-111 | the location is the stripped string form, or empty when falsy |
| SrcScraper.ConvertDataframeToRecords | src/skillscope/scrapers/indeed_scraper.py:72-111 | one record per frame row, in order, each carrying the search term and location |
| SrcScraper.Refresh | src/skillscope/scrapers/indeed_scraper.py:146-155 | the refresh UPDATE keeps the number of rows |
| SrcScraper.UpsertAllShape | src/skillscope/scrapers/indeed_scraper.py:124-160 | each record is either inserted with scraped = last_seen = now or refreshes the row of its url (last_seen = now, refresh_count + 1, status active) |
| SrcScraper.UpsertAllUnique | src/skillscope/scrapers/indeed_scraper.py:46 | the upsert keeps job_url unique |
| SrcScraper.UpsertAllKeepsUrl | src/skillscope/scrapers/indeed_scraper.py:124-160 | a url in the table stays there |
| SrcScraper.UpsertAllCovers | src/skillscope/scrapers/indeed_scraper.py:124-160 | after the upsert every non-NULL url of the batch is stored |
| SrcScraper.AllPresentInsertsNothing | src/skillscope/scrapers/indeed_scraper.py:126-160 | records whose urls are all stored insert nothing |
| SrcScraper.ReinsertInsertsNothing | src/skillscope/scrapers/indeed_scraper.py:126-160 | upserting the same batch again inserts nothing and raises each row's refresh_count by the number of times its url occurs |
| SrcScraper.InsertOrIgnoreAllCorrect | src/skillscope/scrapers/indeed_scraper.py:443-476 | insert-or-ignore never touches an existing row, adds one row per counted insert, each a record of the batch stamped with the instant read for that record, and keeps job_url unique |
| SrcScraper.InsertOrIgnoreFromCorrect | src/skillscope/scrapers/indeed_scraper.py:443-476 | the same for the records from position i on: every added row is NewRow(records[k], clock(k)) for some k at or after i |
| SrcScraper.InsertOrIgnoreOneUnique | src/skillscope/scrapers/indeed_scraper.py:424-481 | one insert-or-ignore keeps job_url unique |
| SrcScraper.NewJobsCorrect | src/skillscope/scrapers/indeed_scraper.py:366-379 | new_jobs_for_db holds, in order, exactly the records whose exact key was neither in the database nor earlier in the batch |
| SrcScraper.ScrapeParamsFor | src/skillscope/scrapers/indeed_scraper.py:308-313 | job_type is passed only when non-blank and is_remote only when not None |
| SrcScraper.ProfileSearchCorrect | src/skillscope/scrapers/indeed_scraper.py:285-422 | every converted record is reported in order, total_jobs_found is their number, and duplicates_found is total minus inserted; an empty or failed scrape gives zero counts; on a table without last_seen_timestamp nothing is added and every posting found is reported as a duplicate |
| SrcScraper.SplitNewJobs | src/skillscope/scrapers/indeed_scraper.py:366-379 | the loop keeps every record and separates the new ones |
| SrcScraper.JobStore.InsertJobRecords | src/skillscope/scrapers/indeed_scraper.py:112-171 | on a table with last_seen_timestamp, the upsert at one instant read before the loop, returning only the insert count; an empty batch, or a table without that column (every INSERT fails and is skipped), returns 0 and writes nothing |
| SrcScraper.JobStore.InsertJobRecordsEnhanced | src/skillscope/scrapers/indeed_scraper.py:424-481 | on a table with last_seen_timestamp, insert-or-ignore with the clock read once per record, returning the insert count; without that column it returns 0 and writes nothing |
| SrcScraper.JobStore.ScrapeIndeedJobs | src/skillscope/scrapers/indeed_scraper.py:173-231 | 0 and no write for a failed or empty scrape or a table without last_seen_timestamp, otherwise the upsert's insert count |
| SrcScraper.JobStore.ScrapeIndeedJobsWithProfile | src/skillscope/scrapers/indeed_scraper.py:285-422 | the duplicate-splitting loop followed by the insert-or-ignore of the new postings |
| RootScraper.InsertAllCorrect | indeed_scraper.py:105-145 | existing rows are never modified, the count is the number of rows added, each added row is a record of the batch stamped now, and job_url stays unique |
| RootScraper.AllStoredInsertsNothing | indeed_scraper.py:105-145 | a batch whose urls are all stored inserts nothing |
| RootScraper.StoredAfterInsert | indeed_scraper.py:105-145 | after the insert every non-NULL url of the batch is stored |
| RootScraper.RescrapeAddsNothing | indeed_scraper.py:105-145 | scraping the same frame a second time adds nothing and returns 0 |
| RootScraper.RootJobStore.InsertJobRecords | indeed_scraper.py:105-145 | INSERT OR IGNORE with a counter; an empty batch returns 0 and writes nothing |
| RootScraper.RootJobStore.ScrapeIndeedJobs | indeed_scraper.py:147-196 | 0 for an empty frame or an exception, otherwise the insert count |
| SrcCvExtraction.EmptyCvStructure | src/skillscope/core/cv_extraction.py:298-314 | extraction_success is False, the error is recorded and every list is empty |
| SrcCvExtraction.PostProcessedCorrect | src/skillscope/core/cv_extraction.py:267-296 | every absent default key is added and present values are kept; every entry gets an id and marked_for_removal False |
| SrcCvExtraction.PostProcessedIdsDistinct | src/skillscope/core/cv_extraction.py:283-294 | with fresh uuids every entry gets its own id |
| SrcCvExtraction.PostProcessEmpty | src/skillscope/core/cv_extraction.py:267-314 | post-processing leaves the empty structure as it is |
| SrcCvExtraction.SetDefault | src/skillscope/core/cv_extraction.py:279-281 | an absent key gets its default and a present one keeps its value |
| SrcCvExtraction.FillDefaults | src/skillscope/core/cv_extraction.py:270-281 | the defaults loop fills every key |
| SrcCvExtraction.PostProcessCvData | src/skillscope/core/cv_extraction.py:267-296 | the loops compute the post-processed CV |
| SrcCvExtraction.JsonSpan | src/skillscope/core/cv_extraction.py:253-265 | the greedy brace match runs from the first { to the last }, and exists exactly when a { comes before a } |
| SrcCvExtraction.ParseLlmResponse | src/skillscope/core/cv_extraction.py:253-265 | the decoded match, or the empty structure when there is no match or it does not decode |
| SrcCvExtraction.PromptExcerpt | src/skillscope/core/cv_extraction.py:250 | the prompt embeds at most the first 4000 characters |
| SrcCvExtraction.Preview | src/skillscope/core/cv_extraction.py:176 | the preview is the first 500 characters, with "..." appended exactly when the text is longer |
| SrcCvExtraction.ExtractFromTextCorrect | src/skillscope/core/cv_extraction.py:164-182 | the result is always complete; it fails for fewer than 20 stripped characters or a failing call, otherwise it is marked successful with its preview |
| SrcCvExtraction.UnparseableReplySucceeds | src/skillscope/core/cv_extraction.py:171-176 | an unparseable reply gives the empty structure marked extraction_success True |
| SrcCvExtraction.ExtractSeesOnlyExcerpt | src/skillscope/core/cv_extraction.py:206-251 | two texts with the same excerpt give the same CV data |
| SrcCvExtraction.ExtractFromFileCorrect | src/skillscope/core/cv_extraction.py:136-162 | a missing file, an unsupported suffix, a read error or fewer than 50 stripped characters fail; otherwise the text extraction decides |
| SrcCvExtraction.OverallField | src/skillscope/core/cv_extraction.py:376-397 | always one of the six fields, and Data Science & AI exactly when a data term is mentioned |
| SrcCvExtraction.FirstMatchCorrect | src/skillscope/core/cv_extraction.py:376-397 | the earliest matching rule decides |
| SrcCvExtraction.FirstMatchDefault | src/skillscope/core/cv_extraction.py:396-397 | with no rule matching, Software Development |
| SrcCvExtraction.OverallFieldIsFirstMatch | src/skillscope/core/cv_extraction.py:376-397 | the field is the first match over Data, Software, Project, UX, Marketing, Finance, defaulting to Software Development |
| SrcCvExtraction.DataMentionDecides | src/skillscope/core/cv_extraction.py:376-386 | a study field, job title or skill mentioning a data term makes the field Data Science & AI |
| SrcCvExtraction.CleanTitles | src/skillscope/core/cv_extraction.py:399-405 | the non-blank job titles, stripped |
| SrcCvExtraction.TargetRolesCorrect | src/skillscope/core/cv_extraction.py:399-416 | at most five roles, no duplicates, none empty, each a stripped title or a generic role of the field |
| SrcCvExtraction.TotalYearsBounds | src/skillscope/core/cv_extraction.py:418-420 | the summed years are at least each entry's years |
| SrcCvExtraction.ExperienceLevel | src/skillscope/core/cv_extraction.py:418-433 | the bracket passes exactly the thresholds > 0, >= 1, >= 3, >= 5, >= 10, >= 15 that the total passes |
| SrcCvExtraction.ExperienceBucket | src/skillscope/core/cv_extraction.py:418-433 | one of the labels, and "None" exactly when the total is 0 |
| SrcCvExtraction.ExperienceLevelMonotone | src/skillscope/core/cv_extraction.py:418-433 | more years never give a lower bracket |
| SrcCvExtraction.SuggestProfileFields | src/skillscope/core/cv_extraction.py:372-437 | the loop computes the suggestions |
| RootCvExtraction.ExcerptDecides | cv_extraction.py:242-243 | texts that agree on their first 3000 characters give the same CV data |
| RootCvExtraction.OverallField | cv_extraction.py:370-384 | one of four fields; Data Science & AI only when no software term is mentioned |
| RootCvExtraction.OverallFieldIsFirstMatch | cv_extraction.py:370-384 | first match over Software, Data, Project, Design, defaulting to Software Development |
| RootCvExtraction.SoftwareBeforeData | cv_extraction.py:370-384 | a CV with both "engineer" and "machine learning" is Software Development here and Data Science & AI in the newer copy |
| RootCvExtraction.NonEmpty | cv_extraction.py:386-388 | exactly the non-empty strings, in order |
| RootCvExtraction.TargetRolesCorrect | cv_extraction.py:386-388 | the non-empty job titles of the first two entries, in order, at most two |
| RootCvExtraction.ExperienceBucket | cv_extraction.py:391-403 | "0-1 year" exactly below one year; there is no "None" bracket |
| RootCvExtraction.ExperienceBucketAgrees | cv_extraction.py:391-403 | the two copies agree on positive totals and differ only for none |
| RootCvExtraction.SuggestionsBounds | cv_extraction.py:365-407 | one of four fields, at most two roles, never "None" |
| SkillAnalyzer.NormalizedSkillCorrect | skill_analyzer.py:179-207 | None exactly when the lower-cased stripped input is one of the nine generic terms; otherwise lower-case, trimmed and never an alias key |
| SkillAnalyzer.StripSuffixesKeeps | skill_analyzer.py:193-196 | the suffix loop keeps the skill non-empty, lower-case and trimmed |
| SkillAnalyzer.AliasKeeps | skill_analyzer.py:198-207 | the alias map is applied last and never leaves an alias spelling |
| SkillAnalyzer.GenericPairKept | skill_analyzer.py:193-196 | the result is not re-checked: "it programming" becomes "it" |
| SkillAnalyzer.NormalizeSkill | skill_analyzer.py:179-207 | the loop over the generic terms computes the normalised skill |
| SkillAnalyzer.NormalizedPiecesMembers | skill_analyzer.py:159-167 | a skill is parsed exactly when it is the normalisation of a non-blank piece |
| SkillAnalyzer.GetLlmSkillsCases | skill_analyzer.py:119-177 | no client or an exception gives nothing; a cache hit is returned unchanged |
| SkillAnalyzer.FreshReplySkills | skill_analyzer.py:159-172 | a fresh reply yields exactly the distinct skills of the parsed list, with no repeats, and the cache gets the parsed list before deduplication |
| SkillAnalyzer.CacheRoundTrip | skill_analyzer.py:126-170 | a later call that hits the cache returns the same skills |
| SkillAnalyzer.ProcessJob | skill_analyzer.py:209-234 | final_skills is the duplicate-free union of matched and LLM skills |
| SkillAnalyzer.SortStringsCorrect | skill_analyzer.py:250-254 | sorting a duplicate-free list gives a strictly increasing list with the same elements |
| SkillAnalyzer.StrictlySortedUnique | skill_analyzer.py:250-254 | sorted of a set depends only on the set |
| SkillAnalyzer.AggregateSkills | skill_analyzer.py:237-254 | each list is sorted, duplicate-free and exactly the union of the per-job lists |
| SkillAnalyzer.CombinedIsUnion | skill_analyzer.py:237-254 | when every job's final list is the union of its two others, the combined aggregate is the union of the other two |
| TimestampRepair.SetCell | scripts/fix_db_timestamps.py:71-81 | an UPDATE changes one cell of a row |
| TimestampRepair.IsTimestampColumnIffContains | scripts/fix_db_timestamps.py:52-54 | a column is selected exactly when "timestamp" occurs in its lower-cased name |
| TimestampRepair.TimestampColumns | scripts/fix_db_timestamps.py:52-54 | the selected columns are exactly those, in table order |
| TimestampRepair.TimestampColumnsDistinct | scripts/fix_db_timestamps.py:52-54 | distinct column names give distinct selected columns |
| TimestampRepair.Substr | scripts/fix_db_timestamps.py:71-75 | SQLite SUBSTR: at most n characters from the position |
| TimestampRepair.IsoRewrite | scripts/fix_db_timestamps.py:71-75 | an ISO 8601 date-time is rewritten to characters 1-10, a space and characters 12-19, the RFC 3339 space-separated form, which no longer matches either problematic pattern |
| TimestampRepair.SqlDateTimeUntouched | scripts/fix_db_timestamps.py:61-75 | a value already in the space-separated form is never touched |
| TimestampRepair.CountWhere | scripts/fix_db_timestamps.py:61-65 | a count is at most the rows and 0 exactly when no row matches |
| TimestampRepair.RepairCell | scripts/fix_db_timestamps.py:71-81 | every repaired cell holds text |
| TimestampRepair.RepairCellIdempotent | scripts/fix_db_timestamps.py:71-81 | repairing a NULL, a value without T or an ISO value twice is repairing it once |
| TimestampRepair.TwoUpdatesRepair | scripts/fix_db_timestamps.py:71-81 | the two UPDATEs repair every row and the rewrite neither creates nor removes a NULL |
| TimestampRepair.ColumnPass | scripts/fix_db_timestamps.py:58-83 | a column pass keeps the rows, issues at least one statement and only adds to total_fixed |
| TimestampRepair.ColumnPassCorrect | scripts/fix_db_timestamps.py:58-83 | a pass touches only its column; without a problematic value (containing T or t, or '.') it changes nothing, otherwise it rewrites T values and fills NULLs, and total_fixed grows by the NULL fill's rowcount only |
| TimestampRepair.ColumnPassIdempotent | scripts/fix_db_timestamps.py:58-83 | a second pass changes no row |
| TimestampRepair.ColumnsPassFrame | scripts/fix_db_timestamps.py:58-83 | the loop changes no column outside its list |
| TimestampRepair.ColumnsPassIndependent | scripts/fix_db_timestamps.py:58-83 | every listed column ends as its own pass would leave it |
| TimestampRepair.RaiseLastSeen | scripts/fix_db_timestamps.py:87-94 | the repair keeps the rows |
| TimestampRepair.RaiseLastSeenCorrect | scripts/fix_db_timestamps.py:87-94 | afterwards no row has last_seen before scraped; a row in order is untouched and a repaired one changes only last_seen |
| TimestampRepair.StandardizedFrame | scripts/fix_db_timestamps.py:52-94 | the run changes no column whose name does not mention timestamp |
| TimestampRepair.StandardizedFillsNulls | scripts/fix_db_timestamps.py:58-92 | in a table whose rows carry its columns, a timestamp column (last_seen_timestamp included) that had a value matching %T% or %.% ends without NULLs, and one that had none keeps exactly its NULLs |
| TimestampRepair.StandardizedShaped | scripts/fix_db_timestamps.py:52-94 | a run keeps every row's cells for the table's columns |
| TimestampRepair.StandardizedOrdersSightings | scripts/fix_db_timestamps.py:87-94 | when both columns exist no row is seen before it was scraped |
| TimestampRepair.ColumnsPassClean | scripts/fix_db_timestamps.py:61-66 | columns without a problematic value are left alone |
| TimestampRepair.StandardizedOfClean | scripts/fix_db_timestamps.py:52-98 | a table already in the SQLite form and in order is not changed |
| TimestampRepair.JobPostingsTable.RewriteColumn | scripts/fix_db_timestamps.py:71-75 | the T rewrite and its rowcount |
| TimestampRepair.JobPostingsTable.FillColumn | scripts/fix_db_timestamps.py:78-81 | the NULL fill and its rowcount |
| TimestampRepair.JobPostingsTable.ColumnStatements | scripts/fix_db_timestamps.py:61-83 | one column's statements, failing exactly when one of them raises |
| TimestampRepair.JobPostingsTable.RepairStatements | scripts/fix_db_timestamps.py:71-81 | the two UPDATEs repair the column and count its NULLs unless one of them raises |
| TimestampRepair.JobPostingsTable.ColumnLoop | scripts/fix_db_timestamps.py:58-83 | the column loop, failing exactly when one of its statements raises |
| TimestampRepair.JobPostingsTable.FinishRun | scripts/fix_db_timestamps.py:86-98 | the last_seen repair when both columns exist and the commit, failing exactly when one of them raises |
| TimestampRepair.JobPostingsTable.StandardizeTimestamps | scripts/fix_db_timestamps.py:40-104 | a missing database returns False with no writes; a statement that raises rolls everything back; otherwise the table is the standardized one and the result counts the NULLs filled; every row keeps a cell for each column |

## Left out

- SrcMatcher.Job: company and location are text. A `None` company or location cannot be scraped into the model, so it does not reach the dedup key, where the root `_deduplicate_fresh_jobs` (profile_job_matcher.py:699-703) would raise and send the search to its fallback. A `None` or NaN title or description is modelled, and drops its search.
- SrcMatcher.ProfileSearch and SrcMatcher.RunProfileBasedSearch: the fallback's answer is the parameter `databaseMatches`, the list `get_profile_job_matches` returned. It is not computed from `SrcMatcher.DatabaseMatches`, which yields `Match` records rather than posting dictionaries; the lemmas about the fallback hold for whatever list it returned.
- RootScraper.InsertAll and TimestampRepair.FillNulls: one instant stands for the whole call. SQLite evaluates `CURRENT_TIMESTAMP` (indeed_scraper.py:54) and `DATETIME('now')` once per statement, so rows inserted by different statements, or columns filled by different UPDATEs, can carry different seconds.
- The Streamlit user interfaces, the Selenium scrapers, the launchers and installers, the diagram builders and the inspection scripts are not part of this model.
- External services are parameters of the model and are not modelled themselves:
  - LLM calls, with their prompt texts;
  - jobspy and pandas;
  - spaCy's phrase matcher (`extract_skills_ner`);
  - the PDF, DOCX and TXT readers;
  - JSON decoding;
  - `uuid4`;
  - Python regular expressions in the evaluator, replaced by a field-extraction function;
  - SQLite's `LIKE` searches behind the candidate queries;
  - SQLite's `datetime()` parsing;
  - the clock (`datetime.now()`, `DATETIME('now')`).
- Logging, `time.sleep`, elapsed-time reporting, the `schedule` thread, `asyncio` batching (`analyze_jobs`), the md5 cache key and the cache file I/O are left out. The cache is a value passed in and returned.
- Connection handling and the `__main__` blocks' exit codes are left out.
- SQLite cells are NULL or text in the timestamp repair. INTEGER and REAL cells are not modelled.
- Row order follows the table's order. SQLite's order for a query without ORDER BY is taken to be table order.
- Python's `str.lower` and `str.strip` are modelled for ASCII only.
- Python set iteration order is unspecified, so it is modelled as a parameter or as first-appearance order. This applies to:
  - the generic terms in `normalize_skill` (the `order` parameter);
  - the names appended by `_update_collection`;
  - `final_skills` in `process_job`;
  - the skills `get_llm_skills` returns (`list(set(new_skills))`, skill_analyzer.py:172), which the model keeps in first-appearance order.
  Contracts state only what holds for every order.
- SrcCvExtraction.TargetRolesCorrect: `list(set(...))[:5]` keeps some five of the candidates in unspecified order. The model keeps the first five distinct ones. The contract states only the bounds and membership that hold for any choice.
- Floating-point rounding (`round(..., 1)` on averages and percentages) is not modelled. `freshness_ratio` and years of experience are exact reals.
- Health and alert thresholds that only drive log messages are left out.
- Limits (`limit`, `max_results`, `batch_size`) are natural numbers. Python's negative slicing is not modelled.
- Optional dictionary fields are `Option` values. A key that is present with the value `None` is not told apart from an absent key.
- In-place mutation of job dictionaries (`relevance_score`, `match_type`, evaluation fields) is modelled as returning new values. Aliasing between those dictionaries and other lists is not captured.
- `_job_model_to_dict`, `_calculate_comprehensive_relevance_score` and `_calculate_experience_match_bonus` are not modelled, because no modelled path calls them.
- `smart_database_refresh`, `clear_entire_database` and the database statistics queries are not modelled, because they are plain SQL counts and deletes outside the named core.
- The SQL `LIKE` queries that pick candidates are not modelled: their answers are inputs.
- SrcEnrichment.Cutoff, SrcEnrichment.IsActive, SrcEnrichment.IsOld, SrcEnrichment.JobDatabase.CleanOldJobs and SrcEnrichment.JobDatabase.UpdateFreshness: timestamps are integers compared numerically. SQLite compares the stored text with `cutoff_date.isoformat()` as strings. Values stored as `YYYY-MM-DD hh:mm:ss` sort below the `T` form on the cutoff day, so a posting seen that day after the cutoff time is counted old and deleted. This string ordering is not modelled.
- CvEvaluator.GetTopJobMatches: a `None` title, company or description, or a `None` relevance_score, raises in the loop, and the handler returns `[]` for the whole call. The model reads such a job as `""` or 0, so only that job is skipped. Absent keys, which the source reads the same way, are modelled exactly.
- TimestampRepair.StandardizedFillsNulls: stated for tables whose rows carry every column (`JobPostingsTable.Valid`). A row is a map, so the model can represent a row without the column, which SQLite cannot.
- The substring matches of the skill and field rules ("ai", "ui" inside longer words) are kept as written.
