# Leakage-safe merge and negative sampling, modelled in Dafny

This project models the data-preparation core of an agent-augmented recommender
experiment. The core:

- reads the MovieLens adjacency-list files and the simulated agents' logs;
- keeps only the simulated users (`final_merge.py`), or keeps everybody and every watched
  item (`merge_all.py`, "Variant A");
- builds the global seen-item index from train, valid, test and agent data;
- rejection-samples 99 negatives for every dev and test row, never drawing an item the
  user has seen anywhere;
- writes the baseline and enhanced ReChorus folders.

It also models the three Grocery scripts:

- the 1000-user subset (`stage0_prepare_1000_agents.py`);
- the merge of agent feedback rated 4 or more into the human train table
  (`stage3_merge_for_rechorus.py`);
- the rebuild of the asin-to-id mapping and of the item title/category table
  (`recover_text.py`).

Modules, one per file:

- `Wrappers`: `Option`, `Result`.
- `Seqs`: filter, dedup keeping the first occurrence, flatten, cardinality facts.
- `Sorting`: a stable sort and Python's string order.
- `Interactions`: pairs, ReChorus rows, the `History` index, the merged train pool.
- `CfText`: `read_cf_txt`.
- `AgentLogs`: the two agent-log parsers.
- `HistoryIndex`: `merge_hist`/`merge_h`, the agent-row loop, `filter_hist`.
- `NegativeSampler`: `generate_negative_samples`.
- `FinalMerge` and `MergeAll`: the two `main`s.
- `Stage0`, `Stage3`, `RecoverText`: the three Grocery scripts.

`read_cf_txt` and `generate_negative_samples` behave the same in `final_merge.py` and
`merge_all.py` apart from their console output. Each is modelled once and cited from
`final_merge.py`.

How the environment is represented:

- **Files.** A file is a value. It is `None` when the path does not exist; otherwise it is
  its lines, one `seq<Option<int>>` per line, with `None` for a token `int()` rejects.
- **Agent logs.** An agent log is its user id and its pages: the `watch_id` and `rating`
  lists, in dict order.
- **`random.sample`.** It is an oracle: for each evaluation row, a finite stream of
  batches, each a possible `random.sample` result (distinct universe items, as many as
  `min(len(all_items), 2 * num_neg)`). When a row's stream runs out before 99 negatives
  are found, the model returns `OutOfDraws`. That is the situation where the Python
  `while` loop would still be drawing.
- **`random.sample` in `stage0`.** The user draw there is a parameter: any 1000 distinct
  pool users.

Where the behaviour could be read differently, the model follows the code:

- A kept line with a non-integer token makes `int()` raise `ValueError`. The record is not
  skipped.
- A missing input file or folder is not raised by the reader (`final_merge.py` prints a
  message, line 24). It yields a column-less frame, and `main` later raises `KeyError` on a
  column look-up.
- `merge_all.py` only fails that way when a missing frame's column is actually looked up:
  - both train and agent data missing (line 113);
  - dev or test missing (lines 119-120).
- A row with fewer than 99 unseen universe items is not reported. The sampling loop never
  ends, and the model proves that no stream of draws completes such a row.
- In `final_merge.py` the agent items rated below 4 are dropped by the parser, so neither
  the agent rows nor the seen-index add them. Such an item can be drawn as a negative for
  its own user only when another source puts it into `all_items` (lines 174-179).

## Model

| member | source | states |
|---|---|---|
| Seqs.Dedup | src/final_merge.py:226 | `drop_duplicates(keep='first')`: the result is a subsequence holding exactly the input's keys, each once, each represented by the first element with that key, in the order those first occurrences appear |
| Seqs.Filter | src/final_merge.py:154-156 | a row-filter keeps exactly the rows meeting the predicate and is never longer |
| Sorting.Sort | src/recover_text.py:48 | the result is sorted, is a permutation of the input, and every class of equal keys keeps its input order (pandas' multi-key `sort_values(by=['time', 'user_id'])` is stable) |
| Sorting.StrLeTotalPreorder | src/recover_text.py:50 | Python's `<=` on strings is total and transitive, so `sorted` is well defined on asins |
| Interactions.TrainPoolFirstWins | src/final_merge.py:225-226 | concat-then-dedup holds every (user, item) pair of either table exactly once and is no longer than both; a pair of the first table keeps its first row there; any other row comes from the second table |
| Interactions.WithTimePairs | src/final_merge.py:213-216 | adding the time column keeps exactly the pairs and every row has that time |
| Interactions.IndexItems | src/final_merge.py:39-41 | the index of a table gives each user exactly the items the table records for them, and nothing for other users |
| Interactions.OfUsersItems | src/final_merge.py:154-156 | restricting a table to some users keeps those users' items unchanged, empties everyone else's, and adds no item |
| CfText.ParseLines | src/final_merge.py:30-44 | fails exactly when some line of two or more tokens has a non-integer token; otherwise the rows are, in file order, the user paired with each item token of every kept line (one row per token, repeats kept), they are exactly the (user, item) pairs some line mentions, and the history indexes them |
| CfText.RepeatedTokens | src/final_merge.py:36-44 | a repeated item token gives a repeated row: the lines `1 5 5` and `1 6` give the rows (1,5), (1,5), (1,6) in that order |
| CfText.ParsedSkip | src/final_merge.py:32-33 | a line with fewer than two tokens leaves the parse unchanged |
| CfText.BadTokenStep | src/final_merge.py:35-36 | the file raises exactly when an earlier line raised or the new line is kept and has a bad token |
| CfText.ReadCf | src/final_merge.py:19-47 | a missing file gives an empty column-less table and `{}`; an existing file raises exactly on a bad token, otherwise its rows are the per-token rows of its kept lines in file order, which are exactly the mentioned pairs, and its history indexes them |
| CfText.HistoryIsLineUnion | src/final_merge.py:39-41 | `user_history[u]` holds `x` exactly when some line of user `u` lists `x` |
| CfText.LineStep | src/final_merge.py:39-44 | one kept line grows the index only at its user, by the line's items, and emits exactly the user's pairs with each item token |
| CfText.LinePairsIndex | src/final_merge.py:35-44 | the rows of a kept line have one user, whose items are exactly the line's item tokens |
| AgentLogs.ViewsMember | src/final_merge.py:59-70 | the watched items visited are exactly the (log, page, index) positions of every watch list |
| AgentLogs.LogViewsMember | src/final_merge.py:66-70 | within one log, the views are exactly the watched items of its pages |
| AgentLogs.ViewedHighRatedMember | src/final_merge.py:49-78 | `parse_agent_viewed_data` emits (u, x) exactly when some log of `u` watched `x` at an index its page's rating list reaches with a rating of 4 or more |
| AgentLogs.ViewedAllMember | src/merge_all.py:32-58 | `parse_agent_data_all` emits (u, x) exactly when some log of `u` watched `x`, whatever its rating |
| AgentLogs.ViewedAllItems | src/merge_all.py:53-56 | one row per watched id: the item column is all watch lists concatenated, in order, with repetitions |
| AgentLogs.HighRatedWithinAll | src/final_merge.py:69-73 | the rating-filtered table holds no pair the unfiltered one lacks and is never longer |
| HistoryIndex.MergeHist | src/final_merge.py:187-190 | `merge_hist` yields the reference union: every user of either history, with the union of their items, whatever the dict order |
| HistoryIndex.AddRows | src/final_merge.py:197-201 | the agent-row loop yields the union of the history with the index of the rows |
| HistoryIndex.BuildGlobalHistory | src/final_merge.py:184-201 | the global history has exactly the users of the three histories and the agent rows, each mapped to their items across all four |
| HistoryIndex.UnionGrows | src/final_merge.py:187-190 | merging never removes a user or an item |
| HistoryIndex.UnionCommutative | src/final_merge.py:192-194 | the merged history does not depend on the order in which two sources are merged |
| HistoryIndex.UnionAssociative | src/merge_all.py:127 | nor on how successive merges are grouped |
| HistoryIndex.FilterHist | src/final_merge.py:160-161 | `filter_hist` keeps exactly the target users' entries with their item sets untouched |
| HistoryIndex.FilterHistIndex | src/final_merge.py:154-165 | filtering a table's history equals indexing the filtered table, so the two filters agree |
| NegativeSampler.FreshMembers | src/final_merge.py:101-103 | the reference: the unseen candidates of a stream in first-drawn order are distinct and are exactly the stream's items outside `seen` |
| NegativeSampler.FreshSnoc | src/final_merge.py:102-103 | one more candidate is appended exactly when it is neither seen nor already held |
| NegativeSampler.FreshPrefix | src/final_merge.py:99-105 | the samples held after part of the stream are a prefix of those after any continuation |
| NegativeSampler.ScanBatch | src/final_merge.py:101-105 | the inner loop holds the reference samples of everything scanned, never more than `num_neg`, and stops early only when `num_neg` are held |
| NegativeSampler.SampleRow | src/final_merge.py:98-105 | a row completes exactly when the draws contain `num_neg` unseen items; its list is then the first `num_neg` of them, distinct, in the universe, none seen |
| NegativeSampler.CompleteRow | src/final_merge.py:98-105 | once `num_neg` samples are held they are the first `num_neg` unseen candidates of the whole stream and a valid negative list |
| NegativeSampler.TooFewCandidatesNeverFinish | src/final_merge.py:99-105 | with fewer than `num_neg` unseen universe items, no stream of draws completes the row |
| NegativeSampler.SmallUniverseFinishesInOneBatch | src/final_merge.py:100 | when the universe has at most `2 * num_neg` items, a batch is the whole universe and the first one completes any row with enough unseen items |
| NegativeSampler.OnlyEligiblePair | src/final_merge.py:94-105 | with K = 2, universe {10, 11, 20, 30, 40} and seen {10, 11, 30}, the only valid lists are [20, 40] and [40, 20] |
| NegativeSampler.AfterSeenAdd | src/final_merge.py:94-96 | `seen.add(i)` adds `i` to the user's own history entry when there is one, and otherwise changes nothing |
| NegativeSampler.SeenAddNoOp | src/final_merge.py:96 | adding an item the user's history already holds leaves the history unchanged |
| NegativeSampler.SampleFor | src/final_merge.py:89-105 | one row: the history after the aliasing update, and a list that exists exactly when the draws hold enough unseen items and then is valid against the user's history plus the target |
| NegativeSampler.AbsorbStep | src/final_merge.py:89-96 | one more row's aliasing update is absorbing one more row |
| NegativeSampler.AbsorbNoOp | src/final_merge.py:94-96 | when every target is already in its user's history, the aliasing updates of a whole table change nothing |
| NegativeSampler.StarvedLater | src/final_merge.py:94-105 | a row starved against the initial history stays starved against any later one |
| NegativeSampler.ValidEarlier | src/final_merge.py:94-96 | a list valid against a later history is valid against the initial one |
| NegativeSampler.FinishesInFirstBatch | src/final_merge.py:99-100 | with a small universe and no starved row, each row completes on its first batch |
| NegativeSampler.GenerateNegativeSamples | src/final_merge.py:80-110 | one list per row in row order, each `num_neg` distinct unseen universe items; the history ends as every target absorbed; any starved row means no result; a small universe with no starved row and non-empty draws always gives a result |
| FinalMerge.Load | src/final_merge.py:136-156 | raises exactly when a file has a bad token (`ValueError`) or a file or the agent folder is missing (`KeyError`); otherwise the tables are the parsed files and the high-rated agent rows |
| FinalMerge.FilteredItems | src/final_merge.py:154-165 | for a target user, the filtered history holds everything the user has in the table |
| FinalMerge.FilteredKeys | src/final_merge.py:160-165 | only target users survive `filter_hist` |
| FinalMerge.Prepare | src/final_merge.py:147-201 | the tables are restricted to the simulated users; the universe is the items of the filtered tables and agent rows; the global history has exactly the targets, each with everything they have in any source |
| FinalMerge.UniverseHasTargets | src/final_merge.py:174-178 | every dev and test target item is in the universe negatives come from |
| FinalMerge.Attach | src/final_merge.py:209-216 | dev and test rows keep their targets and order and gain the given time and negative list |
| FinalMerge.Assemble | src/final_merge.py:218-229 | the enhanced folder shares dev and test with the baseline, and its train is the baseline train followed by the agent rows, first of each pair kept |
| FinalMerge.EnhancedTrain | src/final_merge.py:224-226 | the enhanced train holds exactly the pairs of the filtered train and the agent rows, each once, all with time 1, and is no longer than both |
| FinalMerge.SampleTable | src/final_merge.py:205-206 | a table's sampling yields valid lists for every row, fails whenever a row is starved, and succeeds for a small universe with no starved row; on success the shared `global_history` it mutates is unchanged, so the test call sees the history the dev call saw |
| FinalMerge.TargetsSeen | src/final_merge.py:184-201 | every filtered dev and test target belongs to a simulated user and is already in that user's global history |
| FinalMerge.EvalFromSamples | src/final_merge.py:203-216 | lists valid against the global history avoid everything the user has in any source, so the dev and test tables are leakage-free |
| FinalMerge.StarvedRow | src/final_merge.py:94-105 | for a target user, being starved against the global history is being starved against the raw tables |
| FinalMerge.StarvedRows | src/final_merge.py:205-206 | every row of a filtered dev or test table is starved in both senses or in neither |
| FinalMerge.StarvedTable | src/final_merge.py:205-206 | a table has a starved row exactly when one of its rows is starved against the global history |
| FinalMerge.SampleAndSave | src/final_merge.py:203-229 | a finished run saves leakage-free dev and test tables and the two train tables; any starved row prevents completion; a small universe with no starved row always completes |
| FinalMerge.Pipeline | src/final_merge.py:133-229 | `main` raises exactly on a bad token (`ValueError`) or a missing input (`KeyError`); a saved result satisfies every guarantee above against the files read |
| MergeAll.Load | src/merge_all.py:94-120 | raises exactly on a bad token (`ValueError`), or when train and agent data are both missing or dev or test is missing (`KeyError`); a missing train file or agent folder alone contributes nothing |
| MergeAll.RowItemsWithTime | src/merge_all.py:99-105 | adding the time column keeps exactly the items |
| MergeAll.UniverseIsUnion | src/merge_all.py:112-120 | `all_items` is the items of train, agent, dev and test together |
| MergeAll.VariantTrainPairs | src/merge_all.py:99-113 | the Variant-A train holds every pair of train and agent data exactly once, all with time 1, and is no longer than both |
| MergeAll.Prepare | src/merge_all.py:117-133 | the universe is the union of all items, and the global history maps every user of any input to everything they have in any input |
| MergeAll.GlobalIsSeen | src/merge_all.py:122-133 | the merged histories plus the agent rows are each user's items over all four inputs |
| MergeAll.RowsSeen | src/merge_all.py:64-67 | every dev and test target is already in its user's global history, so starvation means the same against either view |
| MergeAll.StarvedTable | src/merge_all.py:136-137 | a table has a starved row exactly when one of its rows is starved against the global history |
| MergeAll.EvalFromSamples | src/merge_all.py:136-137 | lists valid against the global history avoid everything the user has in any input |
| MergeAll.SampleAndSave | src/merge_all.py:115-140 | a finished run saves the Variant-A train and leakage-free dev and test tables; any starved row prevents completion; a small universe with no starved row always completes |
| MergeAll.Pipeline | src/merge_all.py:92-140 | `main` raises exactly in the cases of `MergeAll.Load`; a saved result satisfies every guarantee above against the files read |
| Stage0.ActivePool | src/stage0_prepare_1000_agents.py:20-21 | the pool is exactly the users with at least 15 train rows |
| Stage0.Select | src/stage0_prepare_1000_agents.py:24-30 | fewer than 1000 pool users selects the whole pool; otherwise exactly 1000 pool users |
| Stage0.CountOf | src/stage0_prepare_1000_agents.py:33 | restricting the train table keeps a selected user's row count and drops everyone else's to zero |
| Stage0.CountConcat | src/stage0_prepare_1000_agents.py:20 | row counts add up over concatenation |
| Stage0.Prepare | src/stage0_prepare_1000_agents.py:20-35 | the selected users are pool users, 1000 of them when the pool allows; each subset holds exactly the rows of selected users |
| Stage0.SelectedStayActive | src/stage0_prepare_1000_agents.py:20-35 | every selected user keeps all their train rows, hence at least 15 |
| Stage0.SubsetOrder | src/stage0_prepare_1000_agents.py:33 | the train subset keeps the original relative order |
| Stage0.EvalSubsetOrder | src/stage0_prepare_1000_agents.py:34-35 | so do the dev and test subsets |
| Stage3.Kept | src/stage3_merge_for_rechorus.py:24 | the kept feedback is exactly the rows with a rating of 4 or more |
| Stage3.KeptOrder | src/stage3_merge_for_rechorus.py:24 | the kept rows are in log order |
| Stage3.ProjectedMembers | src/stage3_merge_for_rechorus.py:24-32 | a row is among the projected kept feedback exactly when it is the projection of a feedback row rated 4 or more |
| Stage3.Candidates | src/stage3_merge_for_rechorus.py:29-32 | the concatenation is the human train followed by the projected kept feedback, and a row is in it exactly when it is a human row or the projection of a high-rated feedback row |
| Stage3.Enhance | src/stage3_merge_for_rechorus.py:29-42 | the train is the first-wins dedup of the candidates; dev and test are copied unchanged |
| Stage3.ProjectedPairs | src/stage3_merge_for_rechorus.py:24-32 | the projected kept rows carry exactly the high-rated pairs |
| Stage3.EnhancedTrain | src/stage3_merge_for_rechorus.py:29-35 | the enhanced train holds exactly the human and high-rated pairs, each once; a human pair keeps its first human row and time; any other row is a projected high-rated feedback row |
| RecoverText.ReviewLeTotalPreorder | src/recover_text.py:48 | ordering by (time, user) is total and transitive |
| RecoverText.CleanReviews | src/recover_text.py:45-48 | the cleaned reviews are sorted by (time, user), repeat-free, hold exactly the raw reviews, and keep the first-occurrence order among ties |
| RecoverText.ItemColumn | src/recover_text.py:50 | the item column holds exactly the reviewed items |
| RecoverText.ItemIds | src/recover_text.py:50 | `iids` holds exactly the reviewed items in strictly increasing order |
| RecoverText.Item2Id | src/recover_text.py:51 | `item2id` maps exactly the `iids`, the `k`-th to `k + 1` |
| RecoverText.Item2IdOnto | src/recover_text.py:51 | the ids used are exactly 1..n |
| RecoverText.Item2IdInjective | src/recover_text.py:51 | distinct asins get distinct ids |
| RecoverText.Item2IdMonotone | src/recover_text.py:50-51 | the numbering preserves Python's string order |
| RecoverText.ItemMap | src/recover_text.py:45-51 | the mapping's keys are exactly the reviewed items |
| RecoverText.CleanItems | src/recover_text.py:47-48 | dropping repeated reviews and sorting loses no item |
| RecoverText.ItemCount | src/recover_text.py:50-51 | there are as many ids as distinct reviewed items |
| RecoverText.ItemMapBijective | src/recover_text.py:50-51 | `item2id` is an order-preserving bijection from the reviewed items onto 1..n |
| RecoverText.Category | src/recover_text.py:69-75 | no category path, or an empty first path, gives the default; otherwise the category is a level of the first path |
| RecoverText.CategoryLevel | src/recover_text.py:71-75 | on a non-empty first path the category is the level at depth `min(2, deepest)` |
| RecoverText.EnrichAllMembers | src/recover_text.py:63-81 | the enriched rows are exactly the enrichments of the kept records |
| RecoverText.Useful | src/recover_text.py:60 | the line-60 filter keeps exactly the metadata records of reviewed items, each of which has an id |
| RecoverText.SortById | src/recover_text.py:87 | the sorted table is ordered by id and is a permutation of its input |
| RecoverText.UsefulRows | src/recover_text.py:60-81 | a table holding exactly the enrichments of the useful records holds exactly the enrichments of the metadata records of reviewed items |
| RecoverText.EnrichFacts | src/recover_text.py:60-87 | the `asin in item2id` guard at line 65 never drops a useful record; the loop emits nothing exactly when no metadata record is of a reviewed item; the sorted table has one row per useful record and its rows are exactly their enrichments |
| RecoverText.Enrich | src/recover_text.py:60-87 | fails (a `KeyError`: the empty frame has no `item_id` column to sort by) exactly when no metadata record is of a reviewed item; otherwise the output is sorted by id and is a permutation of the enrichments of those records, so its rows are exactly those enrichments |

## Left out

- File and directory I/O is not modelled: paths, `os.makedirs`, `to_csv`, the console
  output, `save_to_folder` and `save_dataset`. A saved folder is a `Dataset` value. The
  negative lists stay integer sequences rather than their `str(samples)` text.
- Unpickling is not modelled: `os.listdir` order, the filename-to-user parse and the
  `isinstance` checks. A log is given already parsed. The `try` wraps the whole per-file
  loop, so a file that raises part-way keeps the rows appended before the exception; such
  a file is represented by its truncated log (the pages and indices reached before the
  failure), and a file that raises before any row by an empty log or no log. Ratings are integers; `int()` truncation of float ratings is not modelled.
- Randomness and seeding (`random.seed(42)`, `random.sample`) become the oracle and draw
  parameters described above.
- Identifiers are unbounded integers. pandas `int64` columns cannot overflow at these sizes.
- `stage3_merge_for_rechorus.py`:
  - CSV reading is not modelled.
  - An empty `rating` cell is `None`, which the `>= 4` filter rejects like NaN.
  - Non-integer ratings are not modelled.
- `recover_text.py`:
  - Not modelled: the download (`curl`), `gzip`, the `eval` of each line, and the column
    renaming.
  - A title or category present as NaN is not modelled. `None` stands only for an absent
    column, which is what `row.get` falls back on.
- `stage0_prepare_1000_agents.py`: the copy of `item_meta_enriched.csv` and the
  `target_user_ids.txt` listing are pure I/O.
- `stage1_profile.py`, `stage2_simulation.py` and `models/` are not part of this model.
- RecoverText.Enrich: the final `sort_values('item_id')` uses pandas' default unstable sort,
  so the order of rows with equal ids is not stated; sortedness and the multiset of rows are.
- FinalMerge.Pipeline: completion is only guaranteed when the universe has at most 198 items,
  where every batch is the whole universe. Above that it depends on the draws, which the
  model takes as given.
- MergeAll.Pipeline: completion is guaranteed only for a universe of at most 198 items, for
  the same reason.
- NegativeSampler.GenerateNegativeSamples: completion is guaranteed only for a universe of at
  most `2 * num_neg` items with non-empty draws, for the same reason.
