# MetaReasoner council core in Dafny

This project models the deterministic bookkeeping of MetaReasoner. MetaReasoner is a
three-round "council" of language models:

- each model of a panel answers a query (stage 1);
- every model ranks the anonymised answers (stage 2);
- a chairman model synthesises a final answer (stage 3).

Around the rounds sit four other pieces:

- an aggregate score per model for the current query;
- a row codec that stores a turn in SQLite tables and reads it back;
- an Elo tally over all stored rankings;
- the `.env` handling of the settings endpoints.

Every network call and SQL query is replaced by its result. Model replies, parsed JSON,
streamed chunks and table rows become input sequences, and the ordering a query applies
becomes a parameter.

One module per component:

- `Common`: `Option`, Python's `strip`, `startswith`, `endswith` and `in` on strings.
- `Sorting`: Python's stable descending sort, as an insertion sort. It is proved to be a
  stable, sorted permutation.
- `RankingParser`: `parse_ranking_from_text`. The regular expression is written out as a
  scanner.
- `ResponseCollector`: stage 1.
- `PeerEvaluation`: stage 2.
  - the labels `Response A`, `Response B`, ...;
  - fence stripping;
  - the rubric-derived ranking and the text fallback.
- `AggregateScorer`: `calculate_aggregate_rankings`, with its loops over the two
  `defaultdict`s as methods.
- `Routing`: `classify_query`, `get_council_for_query` and the title clean-up.
- `Synthesizer`: the stage-3 generator and the driver's buffering of it.
- `Council`: `run_full_council`, including its fewer-than-two guard.
- `Storage`: `add_assistant_message` and the assistant part of `get_conversation`.
  - The database is a class whose two tables are `seq` fields that the store methods
    append to.
  - The load is proved to invert the store on the ordinal path.
- `Ratings` and `RatingsProperties`: `calculate_elo_ratings` as nested loops over
  dictionaries. Its counting and membership properties are proved whatever the
  floating-point rating update is.
- `EnvSettings`: `update_settings` and `get_settings` on the file's text, with the
  read-after-write round trip.

Three details of the code are modelled as written:

- The Elo tally visits every pair of rows `i < j` of a group (backend/storage.py:425-454).
  A subject listed twice in one evaluation is therefore paired with itself, unless its
  two positions tie.
- The aggregate rows carry `total_score`, an identical `average_rank` and
  `rankings_count` (backend/council.py:294-301).
- The opening and the closing code fence are removed independently of each other
  (backend/council.py:110-115).

## Model

| member | source | states |
|---|---|---|
| Common.TrimStart | backend/council.py:108 | `lstrip`: the result is a suffix of the input; every dropped character satisfies the predicate; the result does not start with one |
| Common.TrimEnd | backend/council.py:116 | `rstrip`: the result is a prefix; every dropped character satisfies the predicate; the result does not end with one |
| Common.Trim | backend/council.py:338 | `strip(chars)`: the result neither starts nor ends with a dropped character |
| Common.TrimPadded | backend/council.py:108 | stripping `pre + s + post`, where `pre` and `post` are all dropped characters and `s` has none at its ends, gives exactly `s` |
| Common.TrimUnchanged | backend/council.py:116 | a string with nothing to strip at either end is unchanged |
| Common.TrimStartPadded | backend/council.py:108 | `lstrip` of dropped characters followed by `s` gives `s` |
| Common.TrimEndPadded | backend/council.py:116 | `rstrip` of `s` followed by dropped characters gives `s` |
| Common.TrimStartAllDropped | backend/council.py:108 | a string made only of dropped characters strips to the empty string |
| Sorting.Insert | backend/council.py:303-304 | inserting into the sorted list adds exactly one element |
| Sorting.SortDescPermutes | backend/council.py:123-127 | `sorted(..., reverse=True)` returns a permutation of its input (multiset equality) |
| Sorting.SortDescSorted | backend/council.py:123-127 | the sorted list has descending keys |
| Sorting.SortDescStable | backend/council.py:123-127 | stability: for every key value, the elements carrying it keep their original relative order |
| Sorting.FilterSortDesc | backend/council.py:123-128 | filtering before or after the sort gives the same list |
| Sorting.SortDescMembers | backend/council.py:303-304 | sorting does not change which elements are present |
| Sorting.SortDescDistinctBy | backend/council.py:303-304 | sorting keeps rows with distinct models distinct |
| Sorting.SumOfSortDesc | backend/storage.py:466-467 | sorting does not change a sum over the elements |
| Sorting.InsertSplits | backend/council.py:303-304 | an insertion puts the new element at one place and keeps the rest in order |
| RankingParser.LeadingRun | backend/council.py:226 | a greedy `\d+` or `\s*` run: every consumed character matches and the next one does not |
| RankingParser.MatchAt | backend/council.py:226 | an anchored match ends with `Response ` and a capital letter, and is at least 11 characters long |
| RankingParser.FindEntries | backend/council.py:226-229 | every token `re.findall` yields is `Response ` followed by one capital letter |
| RankingParser.LastMarkerFrom | backend/council.py:221-223 | when found, the index is a marker occurrence with none after it up to the bound; when not found, no occurrence exists up to the bound |
| RankingParser.RankingSection | backend/council.py:219-223 | a section exists exactly when the marker occurs; it is the text after an occurrence and holds no further marker (the last piece of `split`) |
| RankingParser.ParseRanking | backend/council.py:206-232 | text without `FINAL RANKING:` gives `[]`; every element is a `Response X` token |
| RankingParser.EntryAt | backend/council.py:226-229 | digits, a dot, whitespace and `Response X` at the front: the scanner reports `Response X` and resumes right after it |
| RankingParser.MatchEntry | backend/council.py:226 | such an entry is matched up to and including its letter |
| RankingParser.EntryThenRest | backend/council.py:226-229 | an entry written `<digits>.<ws>Response <L>` before `rest` parses to `Response L` followed by the entries of `rest` |
| RankingParser.SkipNonDigit | backend/council.py:226 | a character that cannot start an entry is skipped |
| RankingParser.NoDigitsNoEntries | backend/council.py:226-229 | text without digits yields no entries |
| RankingParser.LastMarkerIs | backend/council.py:221-223 | the section is the text after the last occurrence of the marker |
| RankingParser.OnlyTailMatters | backend/council.py:219-229 | for any critique, the result of `critique + marker + section` is the entries of `section` alone |
| RankingParser.CritiqueIrrelevant | backend/council.py:219-229 | two texts that differ only before the last marker parse alike |
| RankingParser.NoFNoMarker | backend/council.py:219 | text without an `F` holds no marker |
| RankingParser.EntryLineThenRest | backend/council.py:226-229 | a line `\n<d>. Response <L>` yields `Response L`, then the entries of what follows |
| RankingParser.ExampleCritiqueIgnored | tests/test_council.py:12-28 | the critique naming A, B and C parses to `["Response B", "Response C"]` |
| RankingParser.ExampleMissingSection | tests/test_council.py:30-36 | text without the marker parses to `[]` although it names two responses |
| RankingParser.ExampleValidBlock | tests/test_council.py:38-49 | `1. Response C / 2. Response A / 3. Response B` parses to `[C, A, B]` in listed order |
| ResponseCollector.Successes | backend/council.py:34-40 | there are never more results than replies |
| ResponseCollector.CollectResponses | backend/council.py:34-42 | the loop's result is one candidate per answered model, in reply order |
| ResponseCollector.SuccessesAppend | backend/council.py:35-40 | the results of two reply lists concatenated are the two results concatenated |
| ResponseCollector.SuccessesMembers | backend/council.py:35-40 | a candidate is in the result if and only if some answered model produced it, with its content or `''` |
| ResponseCollector.AllAnswered | backend/council.py:35-40 | when every model answers, every reply is kept, in order |
| ResponseCollector.NoneAnswered | backend/council.py:35-40 | when no model answers, the result is empty |
| ResponseCollector.ExamplePartialFailure | tests/test_council.py:80-105 | one success and one timeout give exactly `[("model_success", "Success content")]` |
| PeerEvaluation.LabelFor | backend/council.py:62 | a label is a parser token exactly when its index is below 26 (`A` to `Z`) |
| PeerEvaluation.LabelInjective | backend/council.py:62 | different positions get different labels |
| PeerEvaluation.LabelToModel | backend/council.py:65-68 | every key of `label_to_model` is the label of some stage-1 position |
| PeerEvaluation.LabelToModelMaps | backend/council.py:65-68 | the label of position `i` is a key and maps to `stage1[i].model`, for every `i` |
| PeerEvaluation.LabelToModelSize | backend/council.py:65-68 | the map has exactly one key per stage-1 result |
| PeerEvaluation.LabelFresh | backend/council.py:65-68 | the newest label is not a key of the map built from the earlier results |
| PeerEvaluation.StripFences | backend/council.py:108-116 | the cleaned text has no whitespace at either end |
| PeerEvaluation.CleanForJson | backend/council.py:108-116 | the step-by-step reassignment of `clean_text` computes the fence clean-up |
| PeerEvaluation.FencedJson | backend/council.py:108-116 | a body in a `json` code block, with whitespace around the fences, comes out as the stripped body |
| PeerEvaluation.FencedPlain | backend/council.py:108-116 | a plain fence is removed the same way unless the body starts with `json` |
| PeerEvaluation.Unfenced | backend/council.py:108-116 | unfenced text is only stripped of its surrounding whitespace |
| PeerEvaluation.Tokens | backend/council.py:128 | one `Response <label>` token per entry, in order |
| PeerEvaluation.LabelledTokens | backend/council.py:128 | the comprehension never yields more tokens than entries |
| PeerEvaluation.LabelledTokensFilter | backend/council.py:128 | the comprehension is the tokens of exactly the entries that have a `response_label` |
| PeerEvaluation.RubricRankingIsSortedLabels | backend/council.py:123-128 | the rubric ranking is the tokens of the stable descending sort, by `(acc+rea+com+cla)*conf` with defaults 0 and 1.0, of the labelled entries |
| PeerEvaluation.RubricDecides | backend/council.py:120-133 | a rubric with a labelled entry decides `parsed_ranking` |
| PeerEvaluation.TextFallback | backend/council.py:118-138 | without JSON, without `evaluations` or without a labelled entry, `parsed_ranking` is the text parse of the unstripped reply, and `ranking` is the reply |
| PeerEvaluation.NoLabelledEntries | backend/council.py:128 | with no labelled entry, nothing is kept |
| PeerEvaluation.Evaluations | backend/council.py:99-142 | there are never more stage-2 results than replies |
| PeerEvaluation.EvaluationOf | backend/council.py:100-140 | one reply gives at most one result |
| PeerEvaluation.EvaluatesReply | backend/council.py:100-140 | a failed reply gives no result; an answered one gives one result with its model and full text |
| PeerEvaluation.EvaluationsFollowReplies | backend/council.py:99-142 | one result per answered evaluator, in reply order, each with that evaluator and its full reply |
| PeerEvaluation.EvaluationsAppend | backend/council.py:99-142 | one more reply adds what that reply gives, after the earlier results |
| PeerEvaluation.CollectRankings | backend/council.py:62-142 | the loop returns the stage-2 results of the replies and the label map of stage 1 |
| PeerEvaluation.EvaluateOne | backend/council.py:101-140 | the loop body computes the result of one reply |
| PeerEvaluation.ExampleLabels | backend/council.py:62-66 | the first three labels are `Response A`, `Response B` and `Response C` |
| AggregateScorer.Credit | backend/council.py:277-278 | the `+=` on both `defaultdict`s: the score is added, the count goes up by one, and a new model is appended to the key order |
| AggregateScorer.AddSummarises | backend/council.py:277-278 | crediting one more contribution keeps the tally a summary of the contributions |
| AggregateScorer.TallyOfCorrect | backend/council.py:252-292 | the tally lists each credited model once and no other, with its sum and its number of contributions |
| AggregateScorer.NoContributions | backend/council.py:252-253 | a model without contributions has sum 0 and count 0 |
| AggregateScorer.ContributedCounts | backend/council.py:278 | a credited model has a positive count |
| AggregateScorer.Table | backend/council.py:294-301 | one row per listed model, carrying that model's totals |
| AggregateScorer.TableDistinct | backend/council.py:294-301 | the rows list each model once |
| AggregateScorer.TableModels | backend/council.py:294-301 | the rows list exactly the credited models |
| AggregateScorer.TableRows | backend/council.py:294-301 | each row holds its model's sum, an equal `average_rank` and its positive count |
| AggregateScorer.AggregateRankingsCorrect | backend/council.py:235-306 | the output is sorted by descending total; it has one row exactly per model that received a contribution, with that model's sum and count |
| AggregateScorer.OrdinalScores | backend/council.py:285-292 | with every label known, position `p` adds `(n - p + 1) * 10`, weighted 0.5 for a self-ranking and 1.0 otherwise |
| AggregateScorer.UnknownLabelIgnored | backend/council.py:286 | labels missing from `label_to_model` add nothing |
| AggregateScorer.UnknownRubricIgnored | backend/council.py:264 | rubric entries with an unknown label add nothing |
| AggregateScorer.RubricStep | backend/council.py:262-278 | one turn of the rubric loop adds the current entry's contribution |
| AggregateScorer.OrdinalStep | backend/council.py:285-292 | one turn of the ordinal loop adds the current position's contribution |
| AggregateScorer.AddRubricScores | backend/council.py:262-278 | the rubric loop leaves the dictionaries holding the tally with that rubric's contributions added |
| AggregateScorer.AddOrdinalScores | backend/council.py:279-292 | the ordinal loop leaves the dictionaries holding the tally with that ranking's contributions added |
| AggregateScorer.AddEvaluation | backend/council.py:257-292 | one evaluation adds its rubric's contributions when it has a rubric, and otherwise its ordinal ranking's, re-parsed from the text when the ranking is empty |
| AggregateScorer.TableRowsOf | backend/council.py:294-301 | the output loop builds the table in the key order of the dictionaries |
| AggregateScorer.CalculateAggregateRankings | backend/council.py:252-306 | the method returns what `AggregateRankings` specifies, whose properties are `AggregateRankingsCorrect` |
| AggregateScorer.ExampleSelfDiscount | tests/test_council.py:51-78 | a self-ranked first place of two and a second place for the peer leave both models at 10.0 |
| Routing.Upper | backend/council.py:366 | `upper()` maps every character, keeping the length |
| Routing.FirstLine | backend/council.py:368-369 | `split('\n')[0]` is the prefix before the first line break |
| Routing.MatchCategory | backend/council.py:370-372 | the loop returns the first preset key that occurs in the text, if there is one |
| Routing.ClassifyQuery | backend/council.py:364-373 | `classify_query` once the router has replied (or failed) |
| Routing.FirstMatchCorrect | backend/council.py:370-373 | a match is the earliest key that occurs; there is none exactly when no key occurs |
| Routing.ClassificationIsPreset | backend/council.py:383 | the category is always a preset key, so the `.get` default is never used |
| Routing.NoCategoryIsGeneral | backend/council.py:364-373 | a failed router query, or a reply naming no category, gives `GENERAL` |
| Routing.GetCouncilCorrect | backend/council.py:377-383 | a non-empty override is used with `MANUAL_OVERRIDE`; otherwise the result is the category's preset, of at least three models |
| Routing.CodingFirst | backend/config.py:22-23 | a reply naming `CODING` selects it whatever else it names, because it is the first key |
| Routing.LongerCategoriesMiss | backend/council.py:370-372 | categories longer than the text never match |
| Routing.ShortFirstLineIsGeneral | backend/council.py:368-373 | a multi-line reply whose first line is shorter than every category selects `GENERAL` whatever later lines say |
| Routing.CleanTitle | backend/council.py:331-344 | the title is never longer than 50 characters |
| Routing.CleanTitleLong | backend/council.py:341-342 | a title longer than 50 becomes its first 47 characters followed by `...` (50 in all) |
| Routing.CleanTitleShort | backend/council.py:335-344 | a title of at most 50 is the stripped, unquoted text, which has no quote at either end |
| Routing.CleanTitleKeepsClean | backend/council.py:335-344 | a reply that is already a clean, short title is kept as it is |
| Routing.CleanTitleUnwraps | backend/council.py:335-338 | whitespace around the reply and the quotes around the title are removed |
| Routing.DefaultTitles | backend/council.py:331-335 | a failed query and a reply without content both give `New Conversation` |
| Synthesizer.Fragments | backend/council.py:194-196 | one fragment per chunk |
| Synthesizer.Synthesize | backend/council.py:193-203 | the generator yields each chunk, then one final event carrying the concatenation |
| Common.ConcatAppend | backend/council.py:195 | accumulating two runs of chunks gives the two texts concatenated |
| Synthesizer.ConcatLayout | backend/council.py:195 | each chunk sits in the response right after the chunks before it |
| Synthesizer.ConcatLength | backend/council.py:195 | the response is exactly as long as all chunks together |
| Synthesizer.StreamShape | backend/council.py:193-203 | the stream has one fragment per chunk, in order, then the single `done` event from the chairman with the whole reply |
| Synthesizer.LastCompleted | backend/council.py:421-428 | a result is a `done` event of the stream; there is none exactly when no event is `done` |
| Synthesizer.BufferFinal | backend/council.py:421-428 | the buffering loop keeps the last `done` event |
| Synthesizer.FinalIsWholeReply | backend/council.py:421-428 | the buffered stage-3 result is the chairman's whole reply |
| Council.ResolveCouncil | backend/council.py:377-383 | the method computes the council and category of `get_council_for_query` |
| Council.RunFullCouncil | backend/council.py:387-437 | the driver computes what `CouncilRun` specifies |
| Council.TooFewStops | backend/council.py:406-410 | fewer than two stage-1 results give no stage 2, the fixed `error` result and metadata holding only the category |
| Council.FullRunCorrect | backend/council.py:412-437 | with two or more results: one stage-2 result per answered evaluator, a label map over every position, a descending aggregate and the whole chairman reply |
| Council.AllTimeoutsStop | tests/test_council.py:107-123 | when every model times out, stages 1 and 2 are empty and the result is the `error` message |
| Council.OverrideIsAsked | backend/council.py:379-380 | a non-empty user selection is the panel that is queried |
| Storage.IndexOfCorrect | backend/storage.py:329 | `index` finds the first occurrence, and nothing exactly when the label is absent |
| Storage.RankPositionFacts | backend/storage.py:328-331 | the rank is 99 for an unlisted label, and otherwise the 1-based position of the label's first occurrence |
| Storage.OrdinalRowsShape | backend/storage.py:349-358 | one row per label, ranked `i + 1`, with the label's model or `unknown_<label>` as subject and no scores |
| Storage.RubricRowsShape | backend/storage.py:322-348 | one row per entry, ranked by the first index in `parsed_ranking` plus one or 99, with the model or `unknown_<label>` as subject and the entry's scores |
| Storage.Stage1Rows | backend/storage.py:306-310 | one response row per stage-1 result |
| Storage.Stage2Rows | backend/storage.py:312-317 | one response row per stage-2 result |
| Storage.Database.constructor | backend/storage.py:294-295 | a database starts with empty tables |
| Storage.Database.AddAssistantMessage | backend/storage.py:279-364 | the tables grow by exactly the stage-1, stage-2 and stage-3 response rows and the ranking rows of the message |
| Storage.Database.AddStage1Rows | backend/storage.py:306-310 | the stage-1 rows are appended; the rankings table is unchanged |
| Storage.Database.AddStage2Rows | backend/storage.py:312-358 | one response row and that result's ranking rows are appended per stage-2 result |
| Storage.Database.AddEvaluation | backend/storage.py:313-358 | one response row, plus rubric rows when there is a rubric and ordinal rows otherwise |
| Storage.Database.AddRubricRows | backend/storage.py:322-348 | the rubric loop appends the rubric rows only |
| Storage.Database.AddOrdinalRows | backend/storage.py:349-358 | the ranking loop appends the ordinal rows only |
| Storage.Database.LoadMessage | backend/storage.py:177-248 | the three stages of the message rebuilt from its rows, the stage-2 rows in the query's order |
| Storage.ReadStage1 | backend/storage.py:180-187 | the stage-1 list is the candidates of the stage-1 rows |
| Storage.ReadStage2 | backend/storage.py:193-237 | one rebuilt entry per stage-2 row, from its evaluator's ordered ranking rows |
| Storage.ReadEvaluation | backend/storage.py:197-237 | one evaluator's entry is rebuilt from its message's and evaluator's rows |
| Storage.LoadRankRows | backend/storage.py:205-225 | `parsed_ranking` skips rank-99 rows and relabels subjects; `rubric` comes from rows with an accuracy score; `has_rubric` holds exactly when some row has one |
| Storage.LoadedRubricNonEmpty | backend/storage.py:216-235 | the rebuilt rubric is non-empty exactly when `has_rubric` is set |
| Storage.CandidatesOf | backend/storage.py:182-187 | one candidate per stage-1 row |
| Storage.LoadedStage2 | backend/storage.py:195-237 | one rebuilt entry per stage-2 row |
| Storage.ModelToLabelMaps | backend/storage.py:190 | with distinct models, each stage-1 model maps back to its own label |
| Storage.LabelsRoundTrip | backend/storage.py:190 | with distinct models, the reverse map undoes `label_to_model` on every label |
| Storage.RemovePrefix | backend/storage.py:219 | removing `Response ` from a label leaves its letter |
| Storage.OrdinalRoundTrip | backend/storage.py:349-358 | distinct models, mapped labels and fewer than 99 of them: the rows rebuild the same ranking and no rubric |
| Storage.RubricRoundTrip | backend/storage.py:322-348 | distinct models and entries with a known label and an accuracy score: the rows rebuild the same entries |
| Storage.StageRowsAppend | backend/storage.py:180 | a stage query over two row lists finds its rows in both, in order |
| Storage.StageRowsSelect | backend/storage.py:180 | a query finds every row of its own message and stage and none of another stage |
| Storage.StageRowsAbsent | backend/storage.py:180 | a message without rows finds nothing |
| Storage.Stage1RowsAt | backend/storage.py:183-187 | stored stage-1 rows load back as the stage-1 list |
| Storage.RankRowsForSelect | backend/storage.py:199-203 | the rankings query keeps its own message's and evaluator's rows and drops the rest |
| Storage.RankRowsOfAbsent | backend/storage.py:199-203 | an evaluator without results has no rows |
| Storage.RankRowsOfEvaluator | backend/storage.py:199-203 | with distinct evaluators, an evaluator's query finds exactly the rows written for its result |
| Storage.StrictlyAscendingUnique | backend/storage.py:200 | a strictly ascending sequence is its only ascending arrangement |
| Storage.OrdinalRowsOrdered | backend/storage.py:200 | `ORDER BY rank_position ASC` returns ordinal rows as they were written |
| Storage.OrdinalViews | backend/storage.py:227-237 | one view per stored result, that result's view |
| Storage.OrdinalLoad | backend/storage.py:196-237 | one stored result of the ordinal path loads back with its model, its text, its ranking and no rubric |
| Storage.LoadedStage2Ordinal | backend/storage.py:193-237 | results of the ordinal path load back as their views, one per result |
| Storage.StoredBlocks | backend/storage.py:180-241 | after rows of other messages, each stage query finds exactly its own block |
| Storage.StoredStages | backend/storage.py:306-364 | each stage query of a newly stored message finds exactly the rows written for that stage |
| Storage.StoredRankings | backend/storage.py:312-358 | an evaluator's query finds exactly the rows written for its result |
| Storage.StoreLoadRoundTrip | backend/storage.py:177-364 | stored and loaded on the ordinal path: stages 1 and 3 come back as given and each stage-2 result with its model, text and ranking |
| Ratings.GroupRows | backend/storage.py:419-422 | the grouping loop builds the group-key order and the groups dictionary |
| Ratings.GroupKeysAreGroups | backend/storage.py:420-426 | the listed keys are exactly the dictionary's keys |
| Ratings.Round | backend/storage.py:460 | `round` lands within one half of its argument |
| Ratings.Table | backend/storage.py:456-464 | one output row per listed model, with that model's values |
| Ratings.PlayMatch | backend/storage.py:441-454 | one match on the dictionaries: both ratings are read and replaced by the update, one win and one loss are counted |
| Ratings.PlayAllAppend | backend/storage.py:426-454 | playing two runs of matches is playing the first run, then the second |
| Ratings.RowMatchesArePairs | backend/storage.py:430-454 | the inner loop plays the pairs `(i, i+1)`, ..., `(i, j-1)` |
| Ratings.MatchesBelowArePairs | backend/storage.py:429-454 | the outer loop up to `i` plays the pairs of all earlier rows |
| Ratings.GroupMatchesArePairs | backend/storage.py:428-454 | a group's matches are those of its index pairs, in loop order |
| Ratings.EachPairOnce | backend/storage.py:429-430 | the nested loops visit each pair `i < j < n` exactly once |
| Ratings.RowPairsMembers | backend/storage.py:430 | the inner loop's pairs are exactly `(i, b)` with `i < b < j` |
| Ratings.PairsBelowMembers | backend/storage.py:429-430 | the pairs before row `i` are exactly those with a first index below `i` |
| Ratings.PairsBelowDistinct | backend/storage.py:429-430 | no pair is visited twice |
| Ratings.PlayRow | backend/storage.py:430-454 | the inner loop plays row `i`'s matches against the later rows |
| Ratings.PlayNext | backend/storage.py:431-454 | one step of the inner loop plays the pair of rows `i` and `j` |
| Ratings.PlayPair | backend/storage.py:431-454 | equal positions are skipped; otherwise the lower position wins |
| Ratings.PlayGroup | backend/storage.py:428-454 | the pairs loop plays every match of the group |
| Ratings.PlayGroups | backend/storage.py:426-454 | the loop over the groups plays their matches in key order |
| Ratings.SeedStandings | backend/storage.py:412-417 | the appearance loop seeds every stage-1 model at 1000.0 and counts its rows |
| Ratings.TableRowsOf | backend/storage.py:456-464 | the output loop builds the table in the key order of `elo` |
| Ratings.CalculateEloRatings | backend/storage.py:385-468 | the method returns what `EloRatings` specifies, whose properties are `EloRatingsCorrect` and `EloTotals` |
| RatingsProperties.SeedSummarises | backend/storage.py:413-417 | after the appearance loop every stage-1 model is listed once at the base rating, with no wins or losses |
| RatingsProperties.PlayKeepsOrder | backend/storage.py:444-445 | a match enters only its two players and keeps the model list duplicate-free |
| RatingsProperties.PlayKeepsOthers | backend/storage.py:450-451 | a match changes only its players' ratings |
| RatingsProperties.PlayCounts | backend/storage.py:453-454 | a match adds one win to its winner and one loss to its loser |
| RatingsProperties.PlaySummarises | backend/storage.py:441-454 | one match keeps the standings a summary of the stage-1 models and the matches |
| RatingsProperties.PlayAllSummarises | backend/storage.py:426-454 | so does any run of matches |
| RatingsProperties.FinalSummarises | backend/storage.py:408-454 | the final standings summarise the stage-1 models and all matches played |
| RatingsProperties.AppearanceCountsCount | backend/storage.py:414-415 | `appearances[m]` is the number of stage-1 rows of `m` |
| RatingsProperties.TableRows | backend/storage.py:456-464 | the table has one row per listed model and no other |
| RatingsProperties.EloRatingsRows | backend/storage.py:456-467 | the sorted output has one row for each rated model and only those |
| RatingsProperties.EloRatingsCorrect | backend/storage.py:385-468 | sorted by rounded rating, highest first; one row exactly per stage-1 model or player; wins, losses and appearances counted; 1000 for a model that never played |
| RatingsProperties.MatchOfCases | backend/storage.py:436-442 | equal positions give no match; otherwise one match, won by the lower position |
| RatingsProperties.MatchesBelowFrom | backend/storage.py:429-442 | every match of a group is between two of its rows, won by the lower position |
| RatingsProperties.GroupsCollect | backend/storage.py:420-422 | the group of a key is the subsequence of the rows with that key, in query order |
| RatingsProperties.GroupsKeyed | backend/storage.py:420-422 | every row of a group has the group's key |
| RatingsProperties.GroupKeysDistinct | backend/storage.py:426 | each group is visited once |
| RatingsProperties.RankedRowsMembers | backend/storage.py:394-398 | the query keeps exactly the rows whose position is not 99 |
| RatingsProperties.MatchesAreDecided | backend/storage.py:393-454 | every match is between two ranked rows of the same message and evaluator, won by the lower position |
| RatingsProperties.EloTotals | backend/storage.py:441-454 | the wins and the losses over the output rows each add up to the number of matches |
| RatingsProperties.WinsTotal | backend/storage.py:453 | over a duplicate-free list holding every winner, the wins add up to the number of matches |
| RatingsProperties.LossesTotal | backend/storage.py:454 | over a duplicate-free list holding every loser, the losses add up to the number of matches |
| EnvSettings.FirstKeyLine | backend/main.py:111-115 | the index is the first line starting with `OPENROUTER_API_KEY=`, or the line count when there is none |
| EnvSettings.UpdateKeyLines | backend/main.py:111-118 | the loop with its flag and `break`, then the append, computes the updated lines |
| EnvSettings.ReplacesFirstKeyLine | backend/main.py:111-115 | with a key line present, only the first one is replaced, and the line count stays the same |
| EnvSettings.AppendsKeyLine | backend/main.py:117-118 | without a key line, the new line is appended after the unchanged lines |
| EnvSettings.UpdatedFirstKeyLine | backend/main.py:111-118 | after an update, the first key line is the one written |
| EnvSettings.UpdateIdempotent | backend/main.py:111-118 | saving the same key twice leaves the same lines as saving it once |
| EnvSettings.FindChar | backend/main.py:90 | the index of the first occurrence of the character, or the length |
| EnvSettings.KeyValue | backend/main.py:90 | the value read has no quote at either end |
| EnvSettings.KeyLineHasEquals | backend/main.py:90 | the first `=` of a key line ends its prefix |
| EnvSettings.GetSettings | backend/main.py:80-93 | the search loop returns the value of the first key line, or `""` when the file is missing or has none |
| EnvSettings.UpdateSettings | backend/main.py:96-127 | the new file text is the updated lines, with a missing file read as empty; the environment gets the key |
| EnvSettings.TranslateHasNoReturn | backend/main.py:107-108 | reading in text mode leaves no `\r` |
| EnvSettings.SplitLinesShape | backend/main.py:107-108 | each line read is non-empty and ends in its only `\n`, except perhaps the last |
| EnvSettings.ReadBackLines | backend/main.py:121-122 | lines that each end in their only `\n`, once written, are read back as the same lines |
| EnvSettings.KeyValueOfKeyLine | backend/main.py:89-90 | the value of the line written for `key` is `key`, when it has no quote at either end |
| EnvSettings.ReadAfterWrite | backend/main.py:89-118 | reading after saving `key` returns `key`, when the key has no line break and no end quote and the old last line ended in a newline |
| EnvSettings.WrittenLinesRead | backend/main.py:107-122 | the lines written are the lines later read |
| EnvSettings.UpdatedLinesEnded | backend/main.py:113-118 | an update keeps every line terminated |
| EnvSettings.UnterminatedLastLineLosesKey | backend/main.py:117-122 | saving to a one-line file with no newline glues the key line to that line, and reading back gives `""` |

## Left out

- Network calls, `asyncio` fan-out, `title_task`, the server-sent-event generator and the
  FastAPI setup are not modelled. The query layer's replies, the router's and title
  model's replies, and the chairman's chunks are inputs. `backend/openrouter.py` is not
  part of this model.
- The order of the parallel query's replies is an input sequence, as the query layer
  sets it.
- The streaming endpoint is not modelled, and neither is its lack of the
  fewer-than-two guard.
- Prompt strings of stages 2 and 3 are plain formatting with nothing to verify.
- `json.loads` is an input function `decode` from text to `Decoded`. Rubric fields are
  already numbers, so the `float(...)` conversions that can raise in
  `calculate_aggregate_rankings` are not modelled.
- The `re` module is not used. `\d` is ASCII digits, `\s` is the whitespace `str.isspace`
  accepts, `[A-Z]` and `upper()` are ASCII only, and non-ASCII case mappings are not
  modelled.
- PeerEvaluation.LabelFor requires fewer than `0xD800 - 65` positions, because Dafny
  characters are scalar values. Larger panels are not modelled.
- AggregateScorer.Table treats `round(·, 2)` as identity on `real` scores. Floating-point
  rounding of scores is not modelled.
- Ratings.PlayMatch takes the Elo update (K = 32 and the `10 ** (d / 400)` expectation)
  as a parameter `update`. The floating-point arithmetic is not modelled; `round` of the
  final rating is modelled as round-half-to-even on `real`.
- SQLite is a pair of row sequences in insertion order. `ORDER BY rank_position` and the
  Elo query's `ORDER BY` are an `orderBy` parameter. For the round trip it is required to
  return a permutation in ascending rank. The Elo properties hold for any ordering.
- The stage-1 and stage-2 queries' `ORDER BY id ASC` is taken as insertion order.
- `fetchone()` of the stage-3 query is the first matching row.
- Connections, `init_db`, timestamps, `lastrowid` and `uuid` are not modelled. The
  message id is an input.
- `add_user_message`, the conversation metadata and the user messages of
  `get_conversation` are not modelled; only the assistant message's three stages are.
- Storage.RankingRow folds a NULL score column and a missing rubric key into the same
  `None`.
- Storage.StoresRubric, like the source's `if rubric:`, sends a missing, `None` or empty
  rubric to the ordinal path.
- `if stage3:` is modelled as "a stage-3 result is present". An empty dictionary is
  treated as present.
- Storage.RubricRoundTrip is stated before the load orders the rows by rank. After the
  `ORDER BY`, rubric entries come back in rank order, which is the rubric order only when
  the ranks increase along the rubric.
- Storage.OrdinalRoundTrip requires fewer than 99 labels. Position 99 is the rank the
  store writes for an unlisted rubric entry, and the load skips it.
- Storage.StoreLoadRoundTrip is proved for the ordinal path only. The rubric path's round trip
  is RubricRoundTrip, on rows in written order.
- `.env` file access becomes text values: `Path`, `exists` and `touch` are an
  `Option<string>`. Writing is modelled with POSIX newlines and reading with universal
  newlines. `os.environ` is a map.
