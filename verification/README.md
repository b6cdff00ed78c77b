# OpenClaw Memory OS: verified models

Dafny models of the stateful and algorithmic cores of OpenClaw Memory OS, with proofs of what those cores
promise. Run `dafny verify dfyconfig.toml` to check everything.

Five cores are modelled. In each, a function on plain values says what an operation means; the class or method
that works step by step, as the program does, is proved equal to that function; and the lemmas say what the
function guarantees over all inputs, runs and crashes.

1. **BM25 lexical index** (`Lexical`, `Bm25`, `Bm25Index`, `Recency`, with `Ordering` and `Sums`). Documents,
   statistics, posting lists and the search cache are updated in place. They are proved to agree with the plain
   corpus in every reachable state, and a search to return what a scan of the corpus would.
2. **Policy lifecycle and governance** (`PolicyLifecycle`, `PolicyStore`, `Governance`, `LostPromotions`,
   `PromotionBounds`, `TrueHistory`, `EvolutionState`, `Tuning`, `CandidateGeneration`). Each lifecycle operation
   is a sequence of disk steps that may each take effect, fail or be cut off by a crash, followed by the restart
   the constructor performs. Governance is a step machine whose few counters are proved to summarise the whole
   history, or, when a cycle ends before its state is saved, what of it was saved.
3. **Pool ranking** (`PoolRanking`, `PoolProperties`, `PoolSignals`). Reciprocal-rank fusion, calibration, weighted blend,
   Active before Superseded. `rank_candidate_pool` is the authority.
4. **Near-duplicate clustering** (`NearDuplicates`, `Clustering`, `Connectivity`). Banded MinHash buckets feed an
   unranked union-find with path halving over an array; the clusters are proved to be the connected components.
   One configurable model covers both the dashboard estimator and the cron detector.
5. **Evaluation and restartable jobs** (`Ndcg`, `SplitCases`, `Ingestion`, `IngestionManager`, `Migration`,
   `MigrationRunner`).

Scores, weights and times are exact reals. Dictionary and set iteration order is arbitrary in every loop.

Where the code does something other than its comments, documentation or name suggest, the model follows the code:

- The search cache key leaves out the query's exact identifiers, so two queries with the same lower-cased tokens
  share an entry even when their boosts differ (`Bm25.ExactsMatter` says exactly when that shows,
  `Bm25Index.FooBarThenFoobar` shows it on one document).
- One document without term frequencies makes a reload count the text fields alone
  (`Bm25Index.ReloadKeepsStatistics` says exactly when the statistics survive that,
  `Bm25Index.ReloadKeepsAnswers` when the answers to all queries do).
- `promotion_count_30d` is never decremented: at most two promotions ever, not per 30 days.
- An operator's rollback bumps the rollback counter but neither starts a cooldown nor clears the pass streak: a
  candidate can be promoted right after one, and a breaker it trips with no cooldown start on record never
  expires; with an old cooldown start on record it does not hold at all
  (`Governance.StaleCooldownDoesNotHold`).
- The candidate generator is seeded with 42 on every cycle, so its version numbers repeat from cycle to cycle: the
  child in the place of the promoted candidate has its parent's version and is stale from the start.
- The generator's bounds do not fit the shipped policy: the variant that moves importance up or `dense_k` down does
  the opposite (`Tuning.DefaultsLieOutside`), and both variants of `exact_match_boost` are clamped to 1
  (`Tuning.VariantBoostIsOne`).
- A checkpoint is due every 25 chunks and after the last, but is passed by when that chunk is skipped, already known
  or fails to embed (`Ingestion.SavesExactly`).
- `reload_if_changed` refreshes the active slot only; the previous slot in memory goes stale.
- A promotion overwrites the previous slot before the active file, so a crash between the two, or a failure of
  the second write, loses the undo.
- The split's description once says that cases follow their query into training; the code, and the rest of the
  description, sends them to the part of their representative.
- The split's comment promises a non-empty test part when the number of queries permits; with three queries the
  test part is empty.
- The ingestion checkpoint does not name its collection, so resuming against another one skips chunks that are
  not stored there.
- `retrieve` clamps Superseded extras but never appends them when there are Active hits; it is not modelled.
- A cycle that promotes in the store and then dies, or whose save of the governance state raises, with or without
  the handler's own save, leaves a promotion that the counters never see. `PromotionBounds` says exactly how soon
  the next promotion can follow and when the cap can be passed, `TrueHistory` what still backs each promotion.

## Model

| member | source | states |
|---|---|---|
| Ordering.SortIsRankingOf | openclaw_memory_os/lexical.py:660 | Sorting the collected hits by (-score, key) gives one and the same list whatever order the dictionary yielded them in. |
| Ordering.RankedUnique | openclaw_memory_os/retrieval_engine.py:441 | A list sorted by (-score, key) is determined by the entries it holds. |
| Ordering.TopMeaning | openclaw_memory_os/lexical.py:660-661 | Sorting and truncating keeps the best `limit` hits: nothing left out sorts before anything kept. |
| Ordering.TopUnique | openclaw_memory_os/lexical.py:660-661 | The best `limit` entries of a score table are one list. |
| Lexical.AddConsistent | openclaw_memory_os/lexical.py:489-518 | Adding or replacing a record keeps df the number of holders, total_tf their summed frequency, each posting list the duplicate-free set of (document, tf), and no empty entry. |
| Lexical.RemoveConsistent | openclaw_memory_os/lexical.py:523-550 | Removal keeps the same agreement between statistics, postings and documents, whether or not the key is present. |
| Lexical.AddReplaces | openclaw_memory_os/lexical.py:478-521 | After an addition the key holds the record's tokens, length, term counts, exact identifiers and text tokens, whether or not it held another document before, and every other document is as it was. |
| Lexical.RemoveDrops | openclaw_memory_os/lexical.py:523-550 | A removal drops its key and leaves every other document as it was. |
| Lexical.BatchHoldsLast | openclaw_memory_os/lexical.py:976-1011 | After a batch refresh a key holds its last record in the batch. |
| Lexical.RunHoldsLast | openclaw_memory_os/lexical.py:458-562 | After any run of changes the index holds under a key exactly what the last change touching it left: the record last added, or nothing after a removal or clear. |
| Lexical.UntouchedKept | openclaw_memory_os/lexical.py:458-562 | A key that no change of a run touches keeps its document. |
| Lexical.RunConsistent | openclaw_memory_os/lexical.py:458-562 | After any run of additions, replacements, removals, clears and batch refreshes, statistics and posting lists agree with the documents. |
| Lexical.RemoveUndoesAdd | openclaw_memory_os/lexical.py:523-550 | Removing a freshly added document restores documents, statistics and posting lists exactly, posting order included. |
| Lexical.IndexDetermined | openclaw_memory_os/lexical.py:478-550 | Two histories that leave the same documents leave the same statistics and, up to order, the same posting lists. |
| Bm25.SearchMeaning | openclaw_memory_os/lexical.py:610-661 | For boost and limit at least 0 a search returns exactly the documents sharing a query token, each with its full BM25 sum plus exact boost, best first, cut at the limit. |
| Bm25.NoHitDropped | openclaw_memory_os/lexical.py:658-659 | With an idf that is positive for df up to n and a non-negative boost, the `s > 0` filter drops nobody. |
| Bm25.LongerWeighsLess | openclaw_memory_os/lexical.py:640-655 | For a positive idf a token weighs strictly less in a longer document, for the same number of occurrences. |
| Bm25.MoreOccurrencesWeighMore | openclaw_memory_os/lexical.py:640-655 | More occurrences weigh strictly more and always less than 2.2 times the idf. |
| Bm25.AverageDocumentWeighsIdf | openclaw_memory_os/lexical.py:640-655 | One occurrence in a document of average length weighs exactly the idf. |
| Bm25.ShorterFirst | openclaw_memory_os/lexical.py:640-661 | Of two hits for one token with equal counts the shorter document comes first in every answer that shows the longer. |
| Bm25.AverageDocumentScoresIdf | openclaw_memory_os/lexical.py:640-655 | A document of average length that holds the token once scores the idf of the corpus size and the number of its holders. |
| Bm25.ScoresAdd | openclaw_memory_os/lexical.py:640-659 | Queries without a common token add up, and the boost comes on top exactly when an exact identifier is shared. |
| Bm25.EqualLengthsAverage | openclaw_memory_os/lexical.py:557-562 | Among documents of one length that length is the average. |
| Bm25.AverageMeaning | openclaw_memory_os/lexical.py:557-562 | The average times the number of documents is their total length. |
| Bm25.SmallerLimitIsPrefix | openclaw_memory_os/lexical.py:660-661 | A smaller limit returns a prefix of what a larger one returns. |
| Bm25.ExactsMatter | openclaw_memory_os/lexical.py:602-609 | Two queries that share a cache entry deserve the same answer at every limit if and only if the boost is zero or every hit matches both or neither of their exact identifier sets. |
| Bm25.SameBoostsSameAnswer | openclaw_memory_os/lexical.py:602-661 | Such queries get the same answer at each limit, truncated or not, whatever the sign of the boost. |
| Bm25.UntruncatedTellsApart | openclaw_memory_os/lexical.py:602-661 | An answer at a limit that truncates nothing differs as soon as one hit deserves the boost under one query only. |
| Bm25.CaseDecidesBoost | openclaw_memory_os/lexical.py:601-609 | On one document with the identifier FooBar, the queries FooBar and foobar have the same tokens and deserve different answers, also at the default limit. |
| Recency.CacheIsMostRecent | openclaw_memory_os/lexical.py:662-665 | However many entries are used, the bounded cache is the newest part of the unbounded order of last use: what it evicts was always used longest ago. |
| Bm25Index.BM25Index.constructor | openclaw_memory_os/lexical.py:434-448 | A new index is empty, consistent and has an empty cache. |
| Bm25Index.BM25Index.AddOne | openclaw_memory_os/lexical.py:478-521 | The in-place loops over statistics and postings leave the state the specification gives, replacing a document of the same key. |
| Bm25Index.BM25Index.RemoveInternal | openclaw_memory_os/lexical.py:523-550 | The in-place loop decrements, drops emptied entries and filters posting lists as the specification gives. |
| Bm25Index.BM25Index.Forget | openclaw_memory_os/lexical.py:530-550 | Over all tokens of the document, in any order, statistics and postings end as specified, skipping tokens without statistics. |
| Bm25Index.BM25Index.RefreshAverage | openclaw_memory_os/lexical.py:557-562 | The average is the summed length over the number of documents, and zero for none. |
| Bm25Index.BM25Index.Add | openclaw_memory_os/lexical.py:458-476 | A public add keeps the index valid (postings, average, cache coherence), empties the cache and leaves exactly the specified state. |
| Bm25Index.BM25Index.Remove | openclaw_memory_os/lexical.py:552-555 | The same for removal. |
| Bm25Index.BM25Index.Clear | openclaw_memory_os/lexical.py:711-714 | Clearing gives the empty valid index. |
| Bm25Index.BM25Index.IncrementalRefresh | openclaw_memory_os/lexical.py:976-1011 | A batch with one cache clear and one average refresh ends exactly as adding the records one by one, and counts them all. |
| Bm25Index.UniqueTokens | openclaw_memory_os/lexical.py:594-600 | The loop keeps the tokens without repetition in order of first occurrence. |
| Bm25Index.UniqueMeaning | openclaw_memory_os/lexical.py:594-600 | The unique tokens are duplicate-free, the same set, and ordered by first occurrence. |
| Bm25Index.BM25Index.Search | openclaw_memory_os/lexical.py:573-666 | On any index whose postings fit its documents, also one with lost statistics: a hit returns the fresh answer to the query that filled the entry, anything else the fresh answer to this query; the cache afterwards has the entry newest and the oldest beyond 256 gone. |
| Bm25Index.BM25Index.FreshIsScan | openclaw_memory_os/lexical.py:573-661 | In a consistent index a fresh answer is the scan of the whole corpus. |
| Bm25Index.BM25Index.Score | openclaw_memory_os/lexical.py:609-661 | Scoring only the documents in the posting lists of the query tokens, passing over tokens without statistics, equals scoring the whole corpus with the frequencies of the statistics. |
| Bm25Index.BM25Index.Candidates | openclaw_memory_os/lexical.py:621-637 | Uniting the posting lists collects every matching document with its frequencies of exactly the query tokens. |
| Bm25Index.BM25Index.MoveToEnd | openclaw_memory_os/lexical.py:604-608 | A hit moves its entry to the newest end and changes nothing else. |
| Bm25Index.BM25Index.Remember | openclaw_memory_os/lexical.py:662-665 | A new entry goes in last, the oldest are evicted beyond 256, and the cache stays coherent. |
| Bm25Index.BM25Index.FromDict | openclaw_memory_os/lexical.py:745-822 | Unsupported schema versions are rejected; otherwise documents are taken over, statistics recounted, postings kept or rebuilt, the average recomputed, and the cache empty. |
| Bm25Index.BM25Index.RebuildPostings | openclaw_memory_os/lexical.py:877-905 | The rebuilt posting lists agree with each document's term frequencies, its tokens, or its text, in that order of preference. |
| Bm25Index.BM25Index.RebuildStats | openclaw_memory_os/lexical.py:824-875 | Statistics are recounted from the term frequencies, or from the text fields alone as soon as one document has none. |
| Bm25Index.ReloadConsistent | openclaw_memory_os/lexical.py:718-911 | A dump, v2 or v1, of a consistent index in which no document is without term frequencies, or none has a token from another field than its text, reloads to a consistent index over the same corpus; from v2 it is the very same index. |
| Bm25Index.Reload | openclaw_memory_os/lexical.py:745-822 | An index restored from either dump has an empty cache and the saved corpus, with postings that agree with it and recounted statistics; if it is reloadable it is valid, with the saved statistics. |
| Bm25Index.ReloadAndSearch | openclaw_memory_os/lexical.py:573-822 | For every query the first search after a reload from either dump returns the saved corpus scored with the recounted document frequencies and that query's own exact identifiers, which is the scan of the saved corpus when the text of every document covers its tokens or no document is without term frequencies. |
| Bm25Index.ReloadKeepsAnswers | openclaw_memory_os/lexical.py:609-659 | With an idf that falls with the document frequency, a reload answers every query as before if and only if no document is without term frequencies or the text of every document has, as a set, all its tokens. |
| Bm25Index.ReloadKeepsPostings | openclaw_memory_os/lexical.py:745-822 | Whatever becomes of the statistics, the posting lists agree with the documents after any reload. |
| Bm25Index.SearchTwice | openclaw_memory_os/lexical.py:602-666 | Of two queries with the same tokens the second is answered for the first one's exact identifiers. |
| Bm25Index.FooBarThenFoobar | openclaw_memory_os/lexical.py:602-609 | Searching FooBar and then foobar serves the second the boost that only the first deserves. |
| Bm25Index.Restart | openclaw_memory_os/lexical.py:718-822 | Saving and loading gives a fresh valid index with the state of the saved one and an empty cache. |
| Bm25Index.ReloadKeepsStatistics | openclaw_memory_os/lexical.py:849-875 | A reload restores the statistics, and is consistent, if and only if no document is without term frequencies, or no document has a token from another field than its text. |
| Bm25Index.ReloadLosesStatistics | openclaw_memory_os/lexical.py:856-875 | A concrete index of two records whose statistics a reload loses. |
| PolicyLifecycle.CrashServesOldOrNew | openclaw_memory_os/policy_store.py:743-834 | Wherever an operation is cut off, a restart serves the old policy or the one the operation is for: the chosen candidate's version and tunables, active, under its own parent or else the replaced version; the previous policy made active, or the baseline. Success means that one in memory and on disk, an error the old one in both. |
| PolicyLifecycle.PromotionServesCandidate | openclaw_memory_os/policy_store.py:743-789 | A promotion reports success exactly when both writes went through and the process lived; it then serves, in memory and after a restart, the chosen candidate's version and tunables, active, under its own parent or else the replaced version. After any other fate a restart serves that policy or the old one. |
| PolicyLifecycle.RevertServesPrevious | openclaw_memory_os/policy_store.py:791-836 | A revert that reports success serves, in memory and after a restart, the previous policy made active, or the baseline; after any fate a restart serves that or the old one. |
| PolicyLifecycle.FailureKeepsMemory | openclaw_memory_os/policy_store.py:757-824 | A promotion or revert that raises leaves all three slots in memory alone. |
| PolicyLifecycle.ShadowInstalled | openclaw_memory_os/policy_store.py:597-618 | Installing a shadow changes only that slot, in memory always and on disk exactly when it reports success. |
| PolicyLifecycle.RejectionIsWhole | openclaw_memory_os/policy_store.py:658-687 | A rejection empties the shadow in memory and on disk together or changes nothing, and succeeds exactly when there is no file or its deletion goes through. |
| PolicyLifecycle.RestartDurable | openclaw_memory_os/policy_store.py:495-533 | A restart serves what its files say and leaves files that say the same. |
| PolicyLifecycle.RestartInterrupted | openclaw_memory_os/policy_store.py:502-533 | However far a restart got before it was cut off, the next one builds the same three slots. |
| PolicyLifecycle.FreshInstallMatches | openclaw_memory_os/policy_store.py:495-533 | A fresh install serves the baseline with empty slots and is a starting point of the run theorems below. |
| PolicyLifecycle.CompletedRebuilds | openclaw_memory_os/policy_store.py:597-836 | After a completed operation whose deletions succeed, with distinct versions, a restart rebuilds all three slots; a rollback onto the policy already active is included. |
| PolicyLifecycle.CrashIsAtomic | openclaw_memory_os/policy_store.py:658-836 | With distinct versions a crash at any disk step leaves active policy and shadow both from before the operation or both from its completion. |
| PolicyLifecycle.RestartShadowFits | openclaw_memory_os/policy_store.py:689-722 | Whatever the files say, a restart never serves a shadow with the active policy's version or with another parent. |
| PolicyLifecycle.ShadowKeptExactly | openclaw_memory_os/policy_store.py:689-722 | A restart keeps a candidate file as shadow if and only if it is readable, has a version of its own, and names no parent or the served policy. |
| PolicyLifecycle.OtherCandidatesGo | openclaw_memory_os/policy_store.py:689-722 | A candidate file that is not kept is gone after a restart that can move it aside, and one that is kept stays as it is. |
| PolicyLifecycle.CorruptActiveRecovers | openclaw_memory_os/policy_store.py:506-533 | After a promotion a damaged active file costs the promotion only: a restart serves the replaced policy and writes it back, so losing the previous file then changes nothing, while without that file it falls to the baseline. |
| PolicyLifecycle.RunKeepsStatuses | openclaw_memory_os/policy_store.py:495-836 | Over any run the served policy is active or the baseline and the previous slot retired. |
| PolicyLifecycle.RunAcknowledged | openclaw_memory_os/policy_store.py:495-836 | Over any run of operations, failures, crashes and restarts the served policy only ever moves to what an operation is for, in the terms of `CrashServesOldOrNew`, and a reported success does move it. |
| PolicyLifecycle.RunKeepsSlots | openclaw_memory_os/policy_store.py:495-836 | Over any run with distinct versions and no I/O error, crashes included, memory and files stay in step on all three slots and the shadow stays a child of the active policy. |
| PolicyLifecycle.GoneStaysGone | openclaw_memory_os/policy_store.py:658-722 | With distinct versions and no I/O error, a candidate that is not the shadow never becomes one through crashes, restarts and completed operations unless it is installed again. |
| PolicyLifecycle.PromotionEmptiesShadow | openclaw_memory_os/policy_store.py:743-789 | With distinct versions, a promotion that took effect, completed or cut off, leaves no shadow behind. |
| PolicyLifecycle.UndoIsOneDeep | openclaw_memory_os/policy_store.py:743-836 | Promote then revert restores the active policy up to status; a second revert gives the baseline. |
| PolicyLifecycle.PromotionLosesUndo | openclaw_memory_os/policy_store.py:757-767 | For every fate of its steps, a promotion and a restart leave nothing to undo if and only if the first write went through and the second did not, apart from promoting the active policy itself and a promotion without effect where there was nothing to undo. |
| PolicyLifecycle.PreviousAfterPromotion | openclaw_memory_os/policy_store.py:751-767 | For every fate the previous slot after a restart is the replaced policy if the first write went through, and the old slot if not. |
| PolicyLifecycle.FailedDeletionResurrects | openclaw_memory_os/policy_store.py:773-826 | For every fate of a promotion that took effect and of a revert after it, the promoted candidate is a shadow again after a restart if and only if its file outlived both, the revert took effect, and the candidate is not stale for the restored policy. |
| PolicyLifecycle.ReloadKeepsStalePrevious | openclaw_memory_os/policy_store.py:853-887 | After another process promoted, a revert in the reloading process restores the replaced policy if and only if its own previous slot holds that policy, or is empty while that policy is the baseline; with an empty slot it falls to the baseline. |
| PolicyStore.PolicyStore.constructor | openclaw_memory_os/policy_store.py:495-533 | The start-up sequence over any three files builds the specified slots and files. |
| PolicyStore.PolicyStore.Promote | openclaw_memory_os/policy_store.py:743-789 | Step by step, with the previous slot put back when a write raises, promotion has the specified outcome for every fate of its three disk steps. |
| PolicyStore.PolicyStore.Revert | openclaw_memory_os/policy_store.py:791-836 | The same for rollback to the previous policy, or to the baseline. |
| PolicyStore.PolicyStore.SetShadow | openclaw_memory_os/policy_store.py:597-618 | The slot in memory is set before the file is written, and stays set when the write raises. |
| PolicyStore.PolicyStore.RejectShadow | openclaw_memory_os/policy_store.py:658-687 | The file goes before the slot in memory, so a failed deletion changes neither. |
| PolicyStore.PolicyStore.ReloadIfChanged | openclaw_memory_os/policy_store.py:853-887 | A changed valid file replaces the active slot and nothing else. |
| Governance.RunSummarises | openclaw_memory_os/evolution.py:195-236 | After any run of cycles and operator rollbacks the two-slot ring buffer, the streak and the other counters are what the full history says. |
| Governance.NewestWindow | openclaw_memory_os/evolution.py:195-236 | The newest window names the result just recorded: its time, whether it passed, and its candidate or none; a pass keeps the bank only of its own candidate. |
| Governance.BufferNamesLast | openclaw_memory_os/evolution.py:195-236 | Over any run the newest window is that of a last cycle that failed, then with no streak, or that passed without promoting. |
| Governance.UnversionedNeverPromotes | openclaw_memory_os/evolution.py:195-261 | A pass recorded for no candidate raises the streak, yet neither it nor the next pass of any candidate opens the gate. |
| Governance.RunGoverned | openclaw_memory_os/evolution.py:768-835 | With a clock that never goes back each promotion follows two passes of its candidate 600 s apart with no failed window, automatic rollback, promotion or other pass between or since; promotions are 7 days apart, at most two ever, and none within 24 h of an automatic rollback that leaves the breaker tripped. |
| Governance.GateReadsHistory | openclaw_memory_os/evolution.py:768-835 | The gate opens if and only if the history has what it asks for. |
| Governance.StreakLastTwo | openclaw_memory_os/evolution.py:239-261 | The last two counted passes sit in the history with only operator rollbacks around them. |
| Governance.PromotedRightAfterManualRollback | openclaw_memory_os/app.py:694-696 | A run in which an operator's rollback between two passes does not stop the promotion one second later. |
| Governance.StaleCooldownDoesNotHold | openclaw_memory_os/app.py:694-696 | A run in which a breaker tripped by two operator rollbacks, with an old cooldown start on record, does not stop a promotion 699 s later. |
| Governance.ManualBreakerNeverExpires | openclaw_memory_os/app.py:694-696 | A tripped breaker with no cooldown start on record admits no promotion in any continuation without an automatic rollback. |
| LostPromotions.RunLimited | openclaw_memory_os/evolution.py:1616-1717 | With cycles that die or fail to save anywhere, every promotion is still 7 days after each earlier one that was counted, and at most two are counted. |
| LostPromotions.LostPromotionRepeats | openclaw_memory_os/evolution.py:1645-1707 | Right after a promotion the same candidate's very next pass promotes it again if and only if the process died before saving or the handler's save failed as well. |
| LostPromotions.LostLeaveNoTrace | openclaw_memory_os/evolution.py:1645-1707 | Any number of promotions lost in one of those two ways leaves state and counters as they were. |
| LostPromotions.NoLimitWithoutSaving | openclaw_memory_os/evolution.py:1645-1692 | Runs with any number of promotions a second apart, none counted. |
| PromotionBounds.NoneEarlier | openclaw_memory_os/evolution.py:1616-1707 | In every timely continuation of a promoting cycle no promotion ends before the earliest time for that cycle's ending: 7 days later if it was saved, at once if the process died, when the handler gave up if its save failed too, 600 s after the failed window if saving raised. |
| PromotionBounds.ReopensAtEarliest | openclaw_memory_os/evolution.py:1616-1707 | Unless it was saved, a continuation of saved cycles promotes the same candidate exactly then. |
| PromotionBounds.SpacingFailsExactly | openclaw_memory_os/evolution.py:799-835 | A promotion can be followed by another less than 7 days later if and only if its cycle was not saved and that earliest time is less than 7 days later. |
| PromotionBounds.CapFailsExactly | openclaw_memory_os/evolution.py:799-835 | A run can be continued by saved cycles to more than two promotions if and only if one of its promotions is not counted. |
| TrueHistory.LogIsKept | openclaw_memory_os/evolution.py:1616-1707 | The history the gate reads is what happened without what was lost. |
| TrueHistory.EveryPromotionBacked | openclaw_memory_os/evolution.py:239-261 | In the true history too every promotion is preceded by two passes of its candidate 600 s apart, with nothing but operator rollbacks and lost entries between them. |
| TrueHistory.JustifiedExactly | openclaw_memory_os/evolution.py:239-261 | Such a promotion is justified by the true history if and only if nothing was lost between its passes, or the last thing lost is such a pass itself. |
| TrueHistory.EveryPromotionRested | openclaw_memory_os/evolution.py:813-831 | Every promotion, counted or lost, is 24 h after each saved automatic rollback that left the breaker tripped. |
| TrueHistory.LostRollbackUnseen | openclaw_memory_os/evolution.py:1213-1248 | A run in which an automatic rollback whose cycle died does not stop the promotion after it. |
| EvolutionState.EvolutionState.RecordCycleResult | openclaw_memory_os/evolution.py:195-236 | Recording a window, failed, passed for a candidate with the bank reset for another one, or passed for none, has the specified effect on the whole state. |
| EvolutionState.EvolutionState.MayPromote | openclaw_memory_os/evolution.py:768-835 | The sequence of early returns decides exactly the specified gate. |
| EvolutionState.EvolutionState.ForceRollback | openclaw_memory_os/evolution.py:1213-1247 | Rollback bookkeeping has the specified effect, the cooldown starting when the counter reaches two. |
| EvolutionState.EvolutionState.Advance | openclaw_memory_os/evolution.py:1616-1691 | One cycle moves the state as the step machine does, and reports a promotion exactly when one happened. |
| Tuning.NormaliseUnit | openclaw_memory_os/evolution.py:545-553 | Whatever the three weights, negative and all-zero included, normalisation makes them non-negative with sum exactly 1. |
| Tuning.NormaliseKeepsRatios | openclaw_memory_os/evolution.py:545-553 | Non-negative weights only get scaled. |
| Tuning.NormaliseRescales | openclaw_memory_os/evolution.py:545-553 | Negative weights count as zero, the rest are scaled, and the fallback stands in for a vanishing sum. |
| Tuning.ClampIsNearest | openclaw_memory_os/policy_store.py:243-332 | Clamping moves a weight only when it is out of bounds, and then to the nearest bound. |
| Tuning.VariantsAreUnit | openclaw_memory_os/evolution.py:503-553 | Every coordinate variant has both weight triples non-negative with sum exactly 1 and every number within the policy bounds, so the later clamping undoes nothing. |
| Tuning.VariantMovesWeight | openclaw_memory_os/evolution.py:485-507 | The variants of the two fusion weights are the base with that weight alone moved by the step in its direction, as far as the generator's bounds admit. |
| Tuning.VariantMovesCount | openclaw_memory_os/evolution.py:485-517 | The variants of the four counts are the base with that count alone moved by the step, rounded, as far as the bounds admit. |
| Tuning.VariantBoostIsOne | openclaw_memory_os/evolution.py:518 | The variants of the exact-match boost both end at one: the generator's bounds lie above the policy's. |
| Tuning.VariantRescalesFinal | openclaw_memory_os/evolution.py:508-553 | In the fusion blend the weight moved by the step and its two companions are rescaled to sum one, and nothing outside the group changes. |
| Tuning.VariantRescalesAdditive | openclaw_memory_os/evolution.py:511-553 | The same for the additive blend. |
| Tuning.DefaultsLieOutside | openclaw_memory_os/evolution.py:511-518 | On the shipped defaults the variant of importance up lowers it and that of the dense count down doubles it. |
| CandidateGeneration.GenerateCandidates | openclaw_memory_os/evolution.py:575-622 | The nested loop over coordinates and directions yields the variants in order and stops at the requested number, at least one; asking for more than it can yield raises. |
| CandidateGeneration.GeneratedIdentity | openclaw_memory_os/evolution.py:555-589 | The i-th candidate has the i-th drawn version, the active policy as its parent, and the active tunables with the i-th move. |
| CandidateGeneration.GeneratedAreUnit | openclaw_memory_os/evolution.py:575-589 | Every policy generated meets the weight contract. |
| CandidateGeneration.SeededVersionsRepeat | openclaw_memory_os/evolution.py:555-573 | After promoting the i-th candidate of one cycle, the i-th of the next is stale and every other is fit if and only if its draw differs from the i-th. |
| CandidateGeneration.RepeatedVersionIsDiscarded | openclaw_memory_os/evolution.py:492-573 | Installed as shadow after that promotion, a candidate of the next cycle survives a restart if and only if its draw differs from the promoted one. |
| PoolRanking.BuildRanks | openclaw_memory_os/retrieval_engine.py:388-389 | Ranks count from one and a repeated key keeps its last. |
| PoolRanking.BuildBase | openclaw_memory_os/retrieval_engine.py:395-399 | The loops over the two channels build the specified candidate table. |
| PoolRanking.BaseMeaning | openclaw_memory_os/retrieval_engine.py:395-399 | A key is in the table if and only if a channel holds it; its last dense entry stands for it, else its first lexical one. |
| PoolRanking.BuildCalibration | openclaw_memory_os/retrieval_engine.py:123-164 | Min-max calibration of the scored candidates, all ones for a narrow span. |
| PoolRanking.RankPoolBand | openclaw_memory_os/retrieval_engine.py:379-442 | The loop over the key set gives the ranking of the band's score table, for any iteration order. |
| PoolRanking.RankFallback | openclaw_memory_os/retrieval_engine.py:452-465 | The superseded band is ranked only when Active is short, lowered below the lowest Active score and sorted again. |
| PoolRanking.RankCandidatePool | openclaw_memory_os/retrieval_engine.py:444-468 | The whole pass returns the specified list. |
| PoolRanking.FallbackMeaning | openclaw_memory_os/retrieval_engine.py:452-465 | Superseded hits appear only when Active is short, then all of them, none raised, each at least 0.001 below every Active score. |
| PoolRanking.PoolContract | openclaw_memory_os/contracts.py:42-49 | The Active hits in order, as many as the limit admits, then in the room left the best of the Superseded ones, which are there exactly when Active is short, at least 0.001 below every Active score; scores never rise down the list. |
| PoolRanking.ContractUnique | openclaw_memory_os/contracts.py:42-49 | No other list meets that contract. |
| PoolRanking.PoolDistinct | openclaw_memory_os/retrieval_engine.py:466-468 | Bands whose channels share no key give a list without repeated keys. |
| PoolProperties.CalibrateUnit | openclaw_memory_os/retrieval_engine.py:123-164 | A calibrated score lies in [0, 1]. |
| PoolProperties.RrfUnit | openclaw_memory_os/retrieval_engine.py:400-412 | Normalised fusion lies in [0, 1]: its maximum is rank one in both channels. |
| PoolProperties.ScoreRange | openclaw_memory_os/retrieval_engine.py:400-429 | Under unit weight triples all channels stay in [0, 1] and the score in [0, 2]. |
| PoolProperties.GeneratedScoreRange | openclaw_memory_os/evolution.py:521-589 | So does every score under every policy candidate generation produces. |
| PoolProperties.Dominance | openclaw_memory_os/retrieval_engine.py:379-429 | A candidate above another in every ordered channel that holds the other, and no worse on importance, recency and exact match, scores at least as much. |
| PoolProperties.DominatorFirst | openclaw_memory_os/retrieval_engine.py:379-442 | So it comes first in the ranked band unless the scores tie and the other has the smaller key. |
| PoolSignals.EachSignalItsWeight | openclaw_memory_os/retrieval_engine.py:400-429 | Candidates that differ in one of the five signals alone differ in score by exactly that signal's weight times the difference, and a candidate without any signal scores zero. |
| PoolSignals.FusionMeaning | openclaw_memory_os/retrieval_engine.py:405-412 | Fusion gives a key the dense weight over the constant plus its dense rank, the lexical one over the constant plus its lexical rank, or both if both channels hold it. |
| PoolSignals.FusionKeepsRatios | openclaw_memory_os/retrieval_engine.py:400-412 | Normalised fusion is raw fusion in units of one maximum for all keys, or zero without one. |
| PoolSignals.FirstInBothIsOne | openclaw_memory_os/retrieval_engine.py:400-412 | The key that both channels rank first has normalised fusion one. |
| PoolSignals.RanksMeaning | openclaw_memory_os/retrieval_engine.py:388-389 | Exactly the keys of the channel have a rank, which is their last place counted from one. |
| PoolSignals.CalibrationMeaning | openclaw_memory_os/retrieval_engine.py:123-164 | A scored candidate calibrates to one in a narrow span, and otherwise to its place between the lowest score, which gives zero, and the highest, which gives one. |
| PoolSignals.SignalsReadTheirChannel | openclaw_memory_os/retrieval_engine.py:413-414 | The vector signal reads the dense channel's dense scores, the lexical signal the lexical channel's lexical scores. |
| PoolSignals.AbsentHasNoSignal | openclaw_memory_os/retrieval_engine.py:413-414 | A key its channel does not hold has no signal from it. |
| PoolSignals.ExactMatchBoost | openclaw_memory_os/retrieval_engine.py:415-417 | An exact match adds a fiftieth of the boost to the lexical signal, up to one. |
| PoolSignals.RanksTheFirst | openclaw_memory_os/retrieval_engine.py:386-399 | A band ranks exactly the keys among the first `dense_k` of its dense channel or the first `lexical_k` of its lexical one, at least one of each. |
| PoolSignals.ShownScores | openclaw_memory_os/retrieval_engine.py:452-465 | A superseded hit keeps its own score when that is below the lowest Active one by the margin, and is lowered to that otherwise. |
| Connectivity.MergeClassifies | scripts/dedup_cron.py:129-132 | Joining two classes accounts for exactly one more edge of the connectivity relation. |
| Connectivity.ClustersUnique | openclaw_memory_os/analytics.py:1189-1203 | The cluster list is a function of the edge set: the order in which pairs are iterated does not matter. |
| Clustering.RootsUnique | openclaw_memory_os/analytics.py:1156-1162 | The root of every index is determined by the parent array. |
| Clustering.Find | openclaw_memory_os/analytics.py:1158-1162 | Path halving ends on every reachable parent array, returns the root and changes no root. |
| Clustering.Union | openclaw_memory_os/analytics.py:1164-1167 | Joins the two classes and no others. |
| Clustering.Cluster | openclaw_memory_os/analytics.py:1189-1203 | From singletons, over any iteration order of the pairs, the clusters are the components of two or more under the pairs that pass the filter. |
| Clustering.LargeGroups | scripts/dedup_cron.py:158-164 | Exactly the groups of two or more are reported, each ascending, in order of first members. |
| NearDuplicates.MinhashSignature | openclaw_memory_os/analytics.py:1233-1247 | The signature holds each permutation's minimum over the set, and zeros for the empty set, whatever the iteration order. |
| NearDuplicates.JaccardMeaning | openclaw_memory_os/analytics.py:1117-1122 | Jaccard similarity is symmetric, lies in [0, 1], is 1 exactly for equal non-empty sets and 0 exactly for sets without a common element. |
| NearDuplicates.JaccardCounts | openclaw_memory_os/analytics.py:1117-1122 | Times the size of the union it is the size of the intersection. |
| NearDuplicates.SignatureMeaning | openclaw_memory_os/analytics.py:1233-1247 | Each slot of a signature is the least image of the shingles under its permutation, zero for none. |
| NearDuplicates.BandsAreConsecutive | openclaw_memory_os/analytics.py:1169-1176 | Place `p` of a signature is in band `p / rows`, at `p % rows`. |
| NearDuplicates.KeysMeet | openclaw_memory_os/analytics.py:1170-1176 | Two items meet in a bucket exactly when one and the same band of their signatures hashes alike. |
| NearDuplicates.TooManyAlikeAreMissed | openclaw_memory_os/analytics.py:1178-1181 | More items with equal shingles than a bucket may hold make no link at all. |
| NearDuplicates.FileBuckets | openclaw_memory_os/analytics.py:1170-1176 | Each item is in exactly the buckets of its bands, listed ascending. |
| NearDuplicates.CandidatePairs | openclaw_memory_os/analytics.py:1178-1187 | The pairs are exactly those that share a bucket of allowed size. |
| NearDuplicates.DetectDuplicates | openclaw_memory_os/analytics.py:1125-1203 | The clusters are the connected components of two or more of the pairs that share an allowed bucket and pass a Jaccard threshold; above the item limit there are none. |
| NearDuplicates.IdenticalItemsCluster | scripts/dedup_cron.py:104-163 | Without a bucket cap, items with the same non-empty shingle set always share a cluster for any threshold up to 1. |
| Ndcg.NdcgAtK | openclaw_memory_os/evaluation.py:789-805 | The accumulating loop computes the binary nDCG. |
| Ndcg.LoneHit | openclaw_memory_os/evaluation.py:789-805 | One relevant document found at place i alone is worth the discount of i in units of the first place's. |
| Ndcg.BinaryRange | openclaw_memory_os/evaluation.py:789-805 | For a duplicate-free ranking binary nDCG lies in [0, 1], and is 1 if and only if the first min(relevant, k) places are all relevant. |
| Ndcg.FewHitsRange | openclaw_memory_os/evaluation.py:789-805 | The same for every ranking whose hits in the top k, repeats included, are at most min(relevant, k). |
| Ndcg.BoundHolds | openclaw_memory_os/evaluation.py:789-805 | Binary nDCG stays at most 1 under every positive decreasing discount if and only if the hits in the top k, repeats included, are at most min(relevant, k). |
| Ndcg.AlwaysExceeds | openclaw_memory_os/evaluation.py:789-805 | It exceeds 1 under every such discount if and only if the first min(relevant, k) places are all relevant and the top k holds a further hit. |
| Ndcg.DuplicatesExceedOne | openclaw_memory_os/evaluation.py:795-805 | When the first min(relevant, k) places are all relevant, one more hit in the top k, which must be a repeat, exceeds 1 under every discount. |
| Ndcg.SwapRaises | openclaw_memory_os/evaluation.py:795-805 | Moving a relevant document above an irrelevant one within the top k strictly raises it. |
| Ndcg.JudgedNdcg | openclaw_memory_os/evaluation.py:828-864 | The accumulating loop computes the graded nDCG, absent for no judgements. |
| Ndcg.GainDoubles | openclaw_memory_os/evaluation.py:849-864 | A positive grade gains twice what the grade below it gains and one more, from one for the first; others gain nothing. |
| Ndcg.LoneGrade | openclaw_memory_os/evaluation.py:828-864 | One positive grade at place i alone is worth the discount of i in units of the first place's. |
| Ndcg.GradesCount | openclaw_memory_os/evaluation.py:846-855 | A negative grade counts as zero, and judgements beyond the first `k` not at all. |
| Ndcg.Rearrangement | openclaw_memory_os/evaluation.py:849-864 | No order of the grades gains more than the ideal one, and only a non-increasing order gains as much. |
| Ndcg.IdealOrderRearranges | openclaw_memory_os/evaluation.py:856-858 | The ideal order is a non-increasing rearrangement of the positive grades. |
| Ndcg.GradedRange | openclaw_memory_os/evaluation.py:828-864 | Graded nDCG lies in [0, 1], and is 1 if and only if some grade in the top k is positive and the grades never rise. |
| SplitCases.GroupByQuery | openclaw_memory_os/evaluation.py:677-686 | One group per normalised query, holding exactly its cases in input order, the queries in the order of their first cases. |
| SplitCases.Earliest | openclaw_memory_os/evaluation.py:688-699 | The representative is the first of the earliest cases of its group. |
| SplitCases.Distribute | openclaw_memory_os/evaluation.py:725-762 | Every group goes, whole, to the part of its representative. |
| SplitCases.SplitCases | openclaw_memory_os/evaluation.py:613-762 | For any ratios each occurrence of each case lands in the part of its query, parts follow the queries' earliest times, and training and validation hold exactly as many queries as the rounded cuts say; of queries first asked at one time the earlier parts have those that come first in the input. |
| SplitCases.SplitIsPartition | openclaw_memory_os/evaluation.py:668-672 | The three parts together are the input, every occurrence once, and no query is in two parts. |
| SplitCases.SplitIsChronological | openclaw_memory_os/evaluation.py:701-727 | A query's earliest case in an earlier part is no later than any case in a later part. |
| SplitCases.DefaultCuts | openclaw_memory_os/evaluation.py:707-723 | At the default ratios training is never empty, validation is filled if and only if there are three queries, and test if and only if there are two, or four or more. |
| SplitCases.CutsFollowShares | openclaw_memory_os/evaluation.py:707-723 | At ratios that sum to one each cut is within half a query of its share, as far as a training part of one query and, from three queries on, a validation part of one leave room. |
| SplitCases.NoRatiosAllTraining | openclaw_memory_os/evaluation.py:707-723 | Ratios without a positive sum put every query into training. |
| SplitCases.SortStable | openclaw_memory_os/evaluation.py:701-705 | Cases of one time keep the order they came in. |
| Ingestion.ProcessSafe | openclaw_memory_os/ingestion.py:618-674 | One turn of the loop, whatever happens in it, keeps every completed chunk stored. |
| Ingestion.RunSafe | openclaw_memory_os/ingestion.py:509-702 | However a run ends, also with a checkpoint deletion that raises or dies, every chunk completed in memory or in a resumable checkpoint is stored, and no stored point is lost. |
| Ingestion.RunsSafe | openclaw_memory_os/ingestion.py:528-702 | So after any sequence of completed, interrupted, failed and crashed runs and resumes on one collection. |
| Ingestion.InterruptLeavesCheckpoint | openclaw_memory_os/ingestion.py:625-629 | A run that ends interrupted leaves a running checkpoint equal to the progress in memory, which holds all that was completed before and, up to the chunk where it stopped, everything but failed embeddings and a batch that is not full. |
| Ingestion.ResumeSkipsExactly | openclaw_memory_os/ingestion.py:528-651 | After that interrupt and a restart of the process, a resume starts from that progress, and if it completes it has skipped exactly the chunks of its list that were completed there or whose points it knows to be stored. |
| Ingestion.SavesExactly | openclaw_memory_os/ingestion.py:618-674 | A turn that goes on rewrites the checkpoint exactly when its number is a multiple of 25 or the last and the chunk was neither skipped nor known nor failed to embed. |
| Ingestion.CrashLosesAtMost | openclaw_memory_os/ingestion.py:653-674 | A crash at chunk i after a checkpoint at chunk j loses at most i - j completed chunks and a batch that was not full then. |
| Ingestion.CompletedGrows | openclaw_memory_os/ingestion.py:618-674 | No completed chunk is forgotten within a run. |
| Ingestion.BatchStaysSmall | openclaw_memory_os/ingestion.py:653-662 | A full batch is written at once. |
| Ingestion.DryRunStoresNothing | openclaw_memory_os/ingestion.py:588-602 | A dry run stores nothing and leaves a checkpoint no run resumes. |
| Ingestion.KnownChunksAreSkipped | openclaw_memory_os/ingestion.py:632-637 | When every point is known to be stored a run writes nothing and skips all chunks. |
| Ingestion.CompletedStoresAll | openclaw_memory_os/ingestion.py:614-702 | When a non-dry run completes, each chunk is stored or failed to embed in that run, skipped + failed + written in that run is the number of chunks, and no checkpoint is left. |
| Ingestion.ResumeStoresAll | openclaw_memory_os/ingestion.py:528-702 | For any starting world and events, with point ids distinct on the chunks, a completed non-dry run has stored every chunk it could embed if and only if the chunks taken for completed at its start were stored in the collection. |
| Ingestion.ResumeOnOtherCollection | openclaw_memory_os/ingestion.py:528-541 | A checkpoint resumed against a collection without its one chunk completes an undisturbed run without storing it. |
| IngestionManager.IngestionManager.SaveCheckpoint | openclaw_memory_os/ingestion.py:484-489 | The write replaces the checkpoint, or stops the run and may leave a torn file. |
| IngestionManager.IngestionManager.UpsertBatch | openclaw_memory_os/ingestion.py:318-330 | The points of a batch are added together, or the run stops with or without that effect. |
| IngestionManager.IngestionManager.RunIngestion | openclaw_memory_os/ingestion.py:509-702 | The loop with its batch, counters and checkpoints ends in the specified session for every sequence of outside events. |
| Migration.ToV3KeepsRows | openclaw_memory_os/migration.py:229-301 | The rebuild keeps every feedback row in order with its values in every column v3 knows, removes the foreign key and leaves no scratch table of its own. |
| Migration.ToV3Columns | openclaw_memory_os/migration.py:266-287 | A column outside v3 is dropped if and only if the table had the foreign key. |
| Migration.MissingColumnsFilled | openclaw_memory_os/migration.py:240-287 | A column the old table lacked is filled with the row's number, the time of the step, the dashboard as source, or nothing; every other value is the old one. |
| Migration.StepSucceedsExactly | openclaw_memory_os/migration.py:229-301 | Without faults the step gets through if and only if the old table is ready: with the foreign key no missing value where v3 allows none, and no legacy key twice unless the unique index is already there and stays. |
| Migration.ToV3Idempotent | openclaw_memory_os/migration.py:229-301 | Run again on its own result the step changes nothing. |
| Migration.StepMoves | openclaw_memory_os/migration.py:316-360 | A step, whatever statement fails in it, moves version, history and tables together or only notes its failure. |
| Migration.StepOutcome | openclaw_memory_os/migration.py:316-360 | A step commits if and only if its body and its four own statements get through; it then sets the version, appends one success row and takes the body's tables over, and otherwise at most notes its failure. |
| Migration.GarbageCountsAsNone | openclaw_memory_os/migration.py:123-147 | An unreadable version is treated as none: the run has the same result, history and tables. |
| Migration.RunsMove | openclaw_memory_os/migration.py:381-467 | Any sequence of runs extends the successful history rows by a contiguous version chain and never leaves half a step. |
| Migration.Convergence | openclaw_memory_os/migration.py:381-467 | From any version below 3, runs failing at arbitrary steps and then a successful one end in the version and tables of a single uninterrupted run. |
| Migration.NoRowLost | openclaw_memory_os/migration.py:229-467 | No sequence of runs, failing or not, loses a feedback row or a value v3 keeps. |
| Migration.RerunIsNoOp | openclaw_memory_os/migration.py:418-433 | At version 3 a run changes nothing, and a newer database is refused untouched. |
| MigrationRunner.Connection.MigrateToV3 | openclaw_memory_os/migration.py:229-301 | Executed statement by statement on the working copy, the step succeeds exactly when, and changes the tables exactly as, specified. |
| MigrationRunner.Connection.Apply | openclaw_memory_os/migration.py:316-360 | Begin, body, version, history, commit, with rollback and failure row on an error, amount to one atomic step. |
| MigrationRunner.Connection.RunAllMigrations | openclaw_memory_os/migration.py:418-467 | The loop over the migration list ends in the specified database and result. |

## Left out

- Tokenising, CJK n-grams, Unicode and query normalisation, field weights: a record arrives as token sequences and identifier sets, a query as tokens and identifiers.
- Floating point: scores are exact reals; `idf` is a function assumed positive for df up to n, the discount `1/log2(i + 2)` a positive strictly decreasing function, recency and exact text match functions of a candidate.
- SHA-1 and the band hash: uninterpreted functions, so hash collisions are covered.
- JSON and checksums: a file is missing, corrupt or valid; the `last_indexed_at` watermark and the saved schema version of an index loaded from a v1 dump that has postings are not modelled.
- The index's defensive branches for a posting without a document and for a zero frequency: unreachable in a valid index and right after any reload; an index that lost statistics in a reload and then loses documents, whose postings stay behind, is left out.
- Bm25Index.Reload: the postings rebuilt from a v1 dump agree with the documents but may be in another order, so the posting lists are not claimed equal.
- PolicyLifecycle: shadow metadata, archive and history files, the rename of a legacy `policy.json`, the in-memory store without a path, and `set` with its separate `save` are left out; a write takes effect as a whole or not at all, so a `chmod` or `stat` failing after the rename is not covered; a start-up whose own save raises is not covered.
- PolicyLifecycle.Restart: the order of the constructor's own disk steps is kept in the class; that cutting it off is harmless is `RestartInterrupted`.
- PolicyLifecycle.RunKeepsSlots: assumes distinct versions and candidates that name their parent; the generator guarantees the parent but not the version (`CandidateGeneration.SeededVersionsRepeat`); start from any state whose files rebuild it, such as a fresh install.
- Governance: shadow comparisons, metric gates and rollback thresholds are the cause of an event, not computed; lock and pause flags and a lost or corrupt state file are left out; passes without a candidate version are recorded as the source records them but no event of a run makes one; a cycle that ends before the state is saved is in `LostPromotions`, `PromotionBounds` and `TrueHistory` only.
- LostPromotions: an operator route loads and saves the state without the cycle's lock, so one that loads before and saves after a cycle's save also loses what the cycle recorded; that race is left out.
- PromotionBounds.SpacingFailsExactly: the handler of a failed save may run at any later time; one that runs more than 7 days late leaves no room for an early promotion, which the condition on the earliest time says.
- CandidateGeneration.GenerateCandidates: the random branch after the 26 coordinate variants is not modelled beyond the exception its first comparison raises, since it reads an attribute that does not exist.
- PoolRanking: the candidates' other fields, explanation strings and diagnostics are left out; `retrieve`, `_hybrid_merge` and the compatibility ranking module are not modelled.
- Clustering: representative, average similarity, rationale and the final sort of the cluster reports by score are presentation and left out.
- NearDuplicates.IdenticalItemsCluster: holds for the cron detector; the dashboard estimator skips buckets over 200.
- Ndcg.NdcgAtK: a negative `k` is left out.
- SplitCases.SplitCases: timestamps of different kinds, which cannot be compared and raise, are left out; a time is a number or missing.
- Ingestion: file discovery, chunking, `limit` and `since_days`, payload classification and the audit log are left out; embedding succeeds or fails, and an upsert adds its points together.
- Ingestion.RunsSafe: is about runs on one collection; `Ingestion.ResumeOnOtherCollection` shows why.
- Migration: creating the bookkeeping tables, the implicit version bump, unreachable with the shipped migration list, and downgrade are left out.
- Routes, templates, command line, dashboards, providers, authentication, privacy scanning, log parsing and the prune and expire scripts: presentation, plumbing or one-pass filters.
