# Verification of the file pipeline and the show-creation code

A Dafny model of how files move through the program and how shows come to exist, with proofs of what
every step keeps and of what whole runs come to. `dafny verify dfyconfig.toml` checks all of it.

| module | models |
|---|---|
| Files, Download, DownloadRun, Claims, Staging | the download run: one batch with all the places it can raise, the loop over batches, several workers on one table, and where a file is staged |
| Parse, ParseRun | the decision for one file, its dry-run preview, and the run over all selected files |
| Pipeline | downloads, parses and crashes in any order over the life of a row |
| Import, ImportRun, ImportTotals | the path import: one directory split over several shows, the dry and the real mode, and what the counters mean |
| Provisioning, Race | creating a show: the session under every mix of failures, and concurrent calls for one TMDB id |
| Onboarding, Aliases | onboarding from a feed with its plan, and the tagged alias buckets |
| Paths, ScheduleHours, MissingEpisodes | small algorithms of the browser code |
| Common, Text | shared definitions and string laws |

Code that updates rows, shows, sessions or counters step by step is a class whose methods are proved
against functions on values; what the program promises is proved about those functions. An `await`
that can fail, a clock, the order in which a query returns rows and every foreign service is a field
of an environment value (`BatchEnv`, `RunEnv`, `FileEnv`, `ImportEnv`, `CreateEnv`, `Env`) that the
theorems quantify over. Database rows are a map from ids to values.

## What turned out differently

These expectations hold only under a condition. Each is stated as an if-and-only-if, or comes with a
run or an input that breaks it.

- A batch counts every row once exactly when no cancellation reaches an event report: the sink swallows
  exceptions, and a cancellation is not one (`Download.SinkCanBreak`). It leaves a row DOWNLOADING
  exactly when a report of the outer cleanup is cancelled before the last row
  (`Download.DownloadOrchestrator.RunBatch`, `Download.CleanupCanBreak`).
- Timely workers can share a row that was claimed from ERROR. After one crash two workers may reclaim
  the same stale row one after the other, because a reclaim does not refresh `updated_at`; when one of
  them fails it, a third claims it under the other (`Claims.TimelyBatchesCanShare`). Nothing else breaks
  exclusion: timely batches share no row exactly when no claim takes a row that a live batch holds under
  a stamp older than its own claim (`Claims.ExclusiveWhenTimelyExactly`), and such a row is one that this
  batch had itself reclaimed (`Claims.OlderStampIsReclaimed`). A row taken from DISCOVERED or ERROR is
  safe from then on exactly when no claim takes a failed row that a live batch still holds
  (`Claims.FreshExclusiveExactly`), which takes a row shared already (`Claims.HeldFailedWasShared`).
- Two remote files share a destination exactly when the same names are left of them after stripping
  (`Staging.DestinationsExactly`). The same sub-path below two scan roots does, unless one root takes the
  other's file (`Staging.TwoRootsExactly`, `Staging.TwoRootsCollide`).
- The parse preview drops a season name meaning season 0, and uses the group map for a season written
  in the file name, which the real run does not (`Parse.PreviewCanBeWrong`).
- A dry import of several directories over-counts exactly by the untracked episodes they share
  (`ImportTotals.DryTotalExactly`, `ImportTotals.DryRunOvercounts`), and a tracked episode makes a file
  row of its own exactly when no insert is lost, and the tracked paths are pairwise distinct and new to
  the table (`ImportTotals.RunRows`, `ImportTotals.CountedWithoutRow`).
- A show found or adopted by the path import leaves the session poisoned exactly when it has episodes,
  its episode-group map is missing, and either the count made for the map breaks in the database
  (`Provisioning.SecondCountPoisons`) or the backfill after it does (`Provisioning.TmdbCreateShow`); an
  alias failure costs the episodes synced before it (`Provisioning.EpisodesSurviveExactly`).
- A manual match reads and writes the fields it fills in two steps, so it can overwrite a content type
  that another one has filled in between, also after both have lost the insert (`Race.FillsCanCollide`).
  Some run loses a field exactly when the row may begin without it and two manual matches bring different
  values for it (`Race.LosesExactly`). Where no show exists yet, that takes three manual matches for the
  content type: one without and two that differ (`Race.LostAfterCreation`). A field that every call
  creating the row sets is never lost (`Race.SetFieldsStay`).
- An onboarding plan differs from the call for aliases that are not stored in canonical form, and when
  an unpublished subscription on another feed blocks the insert.
- Regenerating aliases keeps a flat alias exactly when the source map was NULL, or the alias is a user
  alias or generated again (`Aliases.FlatAliasKeptExactly`). A flat alias in no bucket is lost
  (`Aliases.OrphanIsLost`); no call of `generate_aliases` or `add_alias` leaves one behind
  (`Aliases.OnlyGeneratedAreDropped`, `Onboarding.TeachingLeavesNoOrphans`).
- A library path equal to its base does not survive parsing and rebuilding (`Paths.RebuildExactly`).

## Model

| member | source | states |
|---|---|---|
| Download.Tally.Record | src/jidou/orchestrators/download_orchestrator.py:160-171 | one finished transfer adds exactly one to one counter, and its size only when it succeeded |
| Download.DownloadOrchestrator.VerifyIntegrity | src/jidou/orchestrators/download_orchestrator.py:45-64 | the hashes and the declared CRC are recorded, and a mismatch is reported exactly when a declared CRC differs from the computed one |
| Download.DownloadOrchestrator.RecordTransfer | src/jidou/orchestrators/download_orchestrator.py:507-531 | a raising hash changes nothing; otherwise the whole new row: ERROR without local path on a mismatch, else DOWNLOADED or IGNORED with path, size and no error |
| Download.DownloadOrchestrator.RecordFailure | src/jidou/orchestrators/download_orchestrator.py:533-553 | the row is in ERROR with its transfer columns as they were; a cancelled transfer reads as interrupted, any other by its own text; no other column changes |
| Download.DownloadOrchestrator.ApplyResults | src/jidou/orchestrators/download_orchestrator.py:474-482 | wherever the pass stops, exactly the rows before that point are settled by their own result and counted; a cancelled report settles its row without counting it |
| Download.DownloadOrchestrator.CreditFinishedTransfers | src/jidou/orchestrators/download_orchestrator.py:449-457 | after a cancelled gather, finished transfers are credited and the others interrupted, with the same stopping and counting rules |
| Download.DownloadOrchestrator.MarkInterrupted | src/jidou/orchestrators/download_orchestrator.py:580-585 | exactly the rows still DOWNLOADING are failed and counted, up to a cancelled report |
| Download.DownloadOrchestrator.PersistBestEffort | src/jidou/orchestrators/download_orchestrator.py:587-599 | a failed flush or commit is swallowed and leaves the database as it was; a cancellation is not swallowed |
| Download.DownloadOrchestrator.TryBatch | src/jidou/orchestrators/download_orchestrator.py:304-332 | the outer try raises exactly when something in it raises, and the settled part of the batch is the counted part |
| Download.DownloadOrchestrator.OuterCleanup | src/jidou/orchestrators/download_orchestrator.py:334-338 | the outer except fails and counts what is still DOWNLOADING, and persists it or leaves the database alone |
| Download.DownloadOrchestrator.RunBatch | src/jidou/orchestrators/download_orchestrator.py:303-338 | wherever a batch stops: each row ends exactly as its own result settles it, interrupted, or as claimed, by where the pass stopped and the first cancelled report of the cleanup; every row is sound (IGNORED exactly for successes with a reason; a success has a path, no error and no CRC mismatch); each row is counted once exactly when no report was cancelled; a row stays DOWNLOADING exactly when a report of the cleanup is cancelled before the last row; the totals are exact in every case; a row reads "interrupted" exactly when its transfer was cut short or the cleanup reached it, another failure its own text, a mismatch both checksums, and a success its path, size and hashes; the database holds the new rows exactly when one of the flushes and commits that are reached works, and else the old ones; other rows are untouched |
| Download.SettledExactly | src/jidou/orchestrators/download_orchestrator.py:435-482 | a row is settled exactly when progress did not raise, its own hash works, and neither a hash nor a report before it broke; it is counted exactly when its own report did not break either |
| Download.EndedRowReads | src/jidou/orchestrators/download_orchestrator.py:507-585 | what a row reads for each way the batch can reach it: which failure it names, and that a failed row keeps its transfer columns but for the hashes of a mismatch |
| Download.SinkCanBreak | src/jidou/orchestrators/download_orchestrator.py:533-553 | a batch of one failed transfer whose report is cancelled ends with the row in ERROR and nothing counted |
| Download.CleanupCanBreak | src/jidou/orchestrators/download_orchestrator.py:555-585 | a batch of two rows that is cancelled, and again at the report of the first row, ends as ERROR and DOWNLOADING with nothing counted |
| Download.SoundRow | src/jidou/orchestrators/download_orchestrator.py:507-524 | settling or interrupting a DOWNLOADING row always leaves a sound row that is no longer DOWNLOADING |
| DownloadRun.SelectBatch | src/jidou/orchestrators/download_orchestrator.py:397-406 | a claim takes distinct eligible rows up to the limit, and misses an eligible one only when the limit is reached |
| DownloadRun.MarkBatch | src/jidou/orchestrators/download_orchestrator.py:408-427 | the whole batch is marked and paired with its staging path: a row from DISCOVERED or ERROR is stamped with the time of the claim, a reclaimed one keeps its stamp, no other column and no other row changes; or a refused path stops the claim |
| DownloadRun.ClaimBatch | src/jidou/orchestrators/download_orchestrator.py:397-432 | a claim that returns has marked, stamped and committed exactly its batch, with the destination computed for each row; one that raises has committed nothing |
| DownloadRun.TakenIsSafe | src/jidou/orchestrators/download_orchestrator.py:274-290 | a row taken from DISCOVERED or ERROR is eligible again exactly for a cutoff after its claim |
| DownloadRun.CreditBatch | src/jidou/orchestrators/download_orchestrator.py:474-482 | what a batch adds to the tally is what its rows gain: one failure per failed attempt, one success with its size at the first successful one |
| DownloadRun.BatchAdvance | src/jidou/orchestrators/download_orchestrator.py:302-332 | a completed batch keeps the run invariant and uses up one attempt of each of its rows |
| DownloadRun.RunTurn | src/jidou/orchestrators/download_orchestrator.py:302-338 | a turn of the loop either finds nothing eligible, raises, or strictly decreases the number of attempts still to come |
| DownloadRun.Run | src/jidou/orchestrators/download_orchestrator.py:283-340 | with a finite failure budget per row the loop ends; on return every initially eligible row is DOWNLOADED or IGNORED at its staging path, all others are untouched, and the totals are the number of eligible rows, the sum of their failure budgets and the sum of their sizes; it does return when nothing raises |
| DownloadRun.ExpectedMeans | src/jidou/orchestrators/download_orchestrator.py:160-171 | the recursive totals of a run are one success for each eligible row, its budget of failures, and the size of its first successful attempt |
| Claims.TakenIsMarked | src/jidou/orchestrators/download_orchestrator.py:408-431 | what a claim writes to a row is the mark that the exclusion theorems are about |
| Claims.BatchIsClaim | src/jidou/orchestrators/download_orchestrator.py:397-432 | a claim of the orchestrator is a claiming step of the worker model |
| Claims.BatchIsFinish | src/jidou/orchestrators/download_orchestrator.py:303-338 | a batch of the orchestrator finishes its rows exactly when it saves them, and otherwise leaves the database as a crash does |
| Claims.FreshExclusiveExactly | src/jidou/orchestrators/download_orchestrator.py:274-290 | when every batch is timely: a row that a batch took from DISCOVERED or ERROR is never in another live batch while that one lives, exactly when no claim takes a failed row that a live batch still holds |
| Claims.HeldFailedWasShared | src/jidou/orchestrators/download_orchestrator.py:408-431 | a live batch holds a failed row only if it shared the row with another live batch that finished it |
| Claims.ExclusiveWhenTimelyExactly | src/jidou/orchestrators/download_orchestrator.py:397-432 | when every batch is timely: no row is ever in two live batches exactly when no claim takes a row that a live batch holds under an older stamp than its own claim |
| Claims.OlderStampIsReclaimed | src/jidou/orchestrators/download_orchestrator.py:408-431 | as long as no row is shared: a live batch holds a row under an older stamp only if it claimed the row while it was DOWNLOADING |
| Claims.ExclusiveWhenTimely | src/jidou/orchestrators/download_orchestrator.py:282-290 | batches that finish within the stale age never share a row in a run without crashes, nor in any run if reclaiming refreshed `updated_at` |
| Claims.TimelyBatchesCanShare | src/jidou/orchestrators/download_orchestrator.py:411-431 | a run with one crash in which every batch is timely and a row claimed from ERROR is in two live batches, because reclaiming DOWNLOADING over DOWNLOADING does not refresh `updated_at` |
| Staging.BestMatch | src/jidou/orchestrators/download_orchestrator.py:106-114 | the scan over the roots returns the longest match, as the specification that the next two lemmas characterise |
| Staging.RootWritten | src/jidou/orchestrators/download_orchestrator.py:108 | a root is stripped alike however many slashes stand before and after it |
| Staging.KeptExactly | src/jidou/orchestrators/download_orchestrator.py:117 | building the destination drops empty and "." names wherever they stand, and no others |
| Staging.ResolveMeans | src/jidou/orchestrators/download_orchestrator.py:118-120 | resolving lets ".." cancel the name before it and stay at the root, and keeps every other name |
| Staging.LongestMatches | src/jidou/orchestrators/download_orchestrator.py:108-114 | the stripped root is a matching root or nothing, it is a prefix of the path, and no matching root is longer |
| Staging.OrderIrrelevant | src/jidou/orchestrators/download_orchestrator.py:106-114 | the same root is stripped whatever the order and repetition of the roots |
| Staging.StagingPathFor | src/jidou/orchestrators/download_orchestrator.py:105-122 | an accepted path resolves inside the resolved staging root; otherwise the call raises |
| Staging.AcceptedExactly | src/jidou/orchestrators/download_orchestrator.py:117-122 | a path is accepted exactly when, after climbing above the staging root, it descends again through the same names |
| Staging.KeptNames | src/jidou/orchestrators/download_orchestrator.py:105-117 | for a clean path the destination drops exactly the names of the stripped root and keeps the rest |
| Staging.CleanAccepted | src/jidou/orchestrators/download_orchestrator.py:117-122 | a clean path is never refused |
| Staging.SameDestinationExactly | src/jidou/orchestrators/download_orchestrator.py:105-122 | two clean paths that share a stripped root have the same destination exactly when they are the same path |
| Staging.DestinationsExactly | src/jidou/orchestrators/download_orchestrator.py:105-122 | for any two clean paths and any roots: the destinations are equal exactly when the names left after the stripped roots are |
| Staging.TwoRootsExactly | src/jidou/orchestrators/download_orchestrator.py:106-117 | for any two different scan roots and any sub-path: the two files share a destination exactly when neither root is also a longer root of the other's file |
| Staging.TwoRootsCollide | src/jidou/orchestrators/download_orchestrator.py:115-117 | below two scan roots of which neither lies in the other, every common sub-path is staged at the same destination |
| Pipeline.SafeStep | src/jidou/models/downloaded_file.py:18-61 | every step of a download run, parse run or crash keeps the row invariant and leaves finished rows alone |
| Pipeline.TransferredOnce | src/jidou/orchestrators/download_orchestrator.py:283-290 | over every run: a file is recorded as transferred at most once, exactly when it is staged; DOWNLOADED, UNMATCHED, MATCHED and IGNORED rows are staged, and DISCOVERED, DOWNLOADING and SEEDED rows are not |
| Pipeline.ClaimsTakeUnstaged | src/jidou/orchestrators/download_orchestrator.py:274-276 | no claim of any run takes a staged file, so a failed parse is never downloaded again |
| Pipeline.FrozenForever | src/jidou/models/downloaded_file.py:58-90 | SEEDED, IGNORED and MATCHED rows and failed parses never change again in these stages |
| Pipeline.BatchIsStep | src/jidou/orchestrators/download_orchestrator.py:303-338 | every batch the orchestrator runs, complete or not, is such a step |
| Parse.FirstNumbered | src/jidou/services/episode_lookup.py:9-29 | the first row by id with these numbers: no earlier one has them; or proof that there is none |
| Parse.ResolveEpisodeExactly | src/jidou/services/episode_lookup.py:80-94 | an episode is found exactly when one answers the numbers: the known season only, else the absolute number, else season 1 |
| Parse.OutcomeAgrees | src/jidou/orchestrators/parse_orchestrator.py:786-869 | however a file ends, its row agrees with its outcome; MATCHED means a show and, unless it is a movie, an episode; the transfer columns never change |
| Parse.DecisionExplained | src/jidou/orchestrators/parse_orchestrator.py:367-415 | the row and outcome of every decided file, by the services' answers: low confidence, no show, unmapped arc, or the episode looked up: the first by id with the numbers used, the one the episode groups send a season name's numbers to, or the title guess, before or after a refresh; a known season is kept and a missing one taken from the episode; without an episode only the show is linked |
| Parse.FailsExactly | src/jidou/orchestrators/parse_orchestrator.py:783-869 | a file is decided and saved exactly when none of the calls it makes raises, each call being made exactly when those before it leave it to be made |
| Parse.RefreshesExactly | src/jidou/orchestrators/parse_orchestrator.py:467-493 | a show counts as refreshed exactly when its file missed at the first attempt, the refresh is allowed, and nothing raised before |
| Parse.FailedAfterDeciding | src/jidou/orchestrators/parse_orchestrator.py:783-869 | the two *_THEN_FAILED outcomes are exactly the files whose closing flush fails after a decision; FAILED exactly those whose name parse raises or that raise before a decision |
| Parse.SeasonNameHolds | src/jidou/orchestrators/parse_orchestrator.py:233-272 | a file whose season comes from a season name is linked within that season or where the episode groups map it: by number or title, and after a refresh that may have brought new groups |
| Parse.PreviewExactly | src/jidou/orchestrators/parse_orchestrator.py:517-637 | with no exception, title match or successful refresh, the dry run tells the real outcome exactly when it neither drops a season name meaning season 0 whose look-ups disagree nor uses the group map for a season written in the file name |
| Parse.PreviewCanBeWrong | src/jidou/orchestrators/parse_orchestrator.py:594-637 | a special and a grouped season for which the preview and the real run differ, one in each direction |
| ParseRun.ParseOrchestrator.ResolveMatchedEpisode | src/jidou/orchestrators/parse_orchestrator.py:233-272 | the real look-up with its title-match fallback, and what it writes to the row |
| ParseRun.ParseOrchestrator.RefreshForMiss | src/jidou/orchestrators/parse_orchestrator.py:480-493 | a refresh happens exactly when a refresher exists, the show is no movie and was not refreshed before; each show is refreshed at most once and movies never |
| ParseRun.ParseOrchestrator.ResolveWithRefresh | src/jidou/orchestrators/parse_orchestrator.py:446-465 | look-up, at most one refresh and retry; the row only changes when an episode is found by other numbers |
| ParseRun.ParseOrchestrator.ApplyMatch | src/jidou/orchestrators/parse_orchestrator.py:367-415 | the stepwise updates of the row come to the specified row, including where they are cut off by an exception; a file that is decided is linked to an episode that answers its numbers or its title, and shows the numbers it was found under |
| ParseRun.ParseOrchestrator.Decide | src/jidou/orchestrators/parse_orchestrator.py:786-854 | gate, show look-up, unmapped arc, season name and match, step by step, come to the specified decision |
| ParseRun.ParseOrchestrator.ParseOne | src/jidou/orchestrators/parse_orchestrator.py:764-869 | a dry run changes nothing and returns the preview; a real one ends as specified, with the row that the answers explain, and is decided exactly when no call it makes raises |
| ParseRun.ParseOrchestrator.Run | src/jidou/orchestrators/parse_orchestrator.py:901-947 | a run that returns has decided every selected file and committed, and its three counters are the numbers of files by outcome, those that failed after their decision being in two; one that raises has committed nothing; a dry run changes nothing |
| ParseRun.CompletedRun | src/jidou/orchestrators/parse_orchestrator.py:905-929 | after a completed real run every DOWNLOADED or UNMATCHED row was parsed, its row agrees with its outcome and is the one its answers explain, and no other row has changed |
| ParseRun.EveryFileCounted | src/jidou/orchestrators/parse_orchestrator.py:931-939 | matched + unmatched + failed = processed + the files that failed after their decision |
| Import.Append | src/jidou/orchestrators/path_import_orchestrator.py:395-397 | one pass of the insertion-ordered dictionary: the entry joins the first group with its key, or makes a new last group that keeps its display name |
| Import.SplitEntries | src/jidou/orchestrators/path_import_orchestrator.py:362-397 | an entry stays with its directory's show exactly when it is a directory, its parse raises or is not trusted, it has no name, or its name agrees with the show; each other file is in the group of its normalised name, which is shown under the name of its first file; nothing is lost or repeated |
| Import.SplitPartition | src/jidou/orchestrators/path_import_orchestrator.py:362-397 | every entry of a directory is kept or in exactly one split-off group, the groups come in the order their names are first met, and the sizes add up |
| Import.GroupByShow | src/jidou/orchestrators/path_import_orchestrator.py:281-303 | one group for each directory of the listing, holding each of its entries as often as it is listed |
| Import.DirectoriesPartition | src/jidou/orchestrators/path_import_orchestrator.py:282-303 | every entry of a run is in exactly one directory group, and the groups come in the order they are first met |
| Import.FourOutcomesAddUp | src/jidou/orchestrators/path_import_orchestrator.py:716-737 | the four outcomes of a group add up to its entries |
| Import.ListsMatchCounters | src/jidou/orchestrators/path_import_orchestrator.py:726-734 | the path lists are as long as the counters |
| Import.SummaryMeans | src/jidou/orchestrators/path_import_orchestrator.py:716-737 | a group counts and lists, in order, the entries without an episode and those whose episode was claimed before or by an earlier entry, and counts the episodes that are new |
| Import.TrackedCountsEpisodes | src/jidou/orchestrators/path_import_orchestrator.py:765-786 | the tracked counter is the number of episodes newly claimed, not of entries |
| Import.ClaimsHideTracking | src/jidou/orchestrators/path_import_orchestrator.py:765-786 | what earlier groups of a directory have tracked does not change an outcome, since they also claimed it |
| Import.TrackingAfter | src/jidou/orchestrators/path_import_orchestrator.py:765-786 | exactly the newly claimed episodes turn tracked, and an episode tracked before keeps its whole row |
| Import.NewRows | src/jidou/orchestrators/path_import_orchestrator.py:770-775 | a newly tracked episode names the first file on it and the import as its source |
| Import.FilesAfter | src/jidou/orchestrators/path_import_orchestrator.py:772-783 | the file rows a group leaves are those of its inserts: one insert for each tracked entry, with its path, episode and whether it is lost |
| Import.InsertedExactly | src/jidou/orchestrators/path_import_orchestrator.py:772-783 | any sequence of inserts makes at most one row each, and exactly one each when none is lost and the paths are pairwise distinct and not in the table |
| Import.OneRowPerTracked | src/jidou/orchestrators/path_import_orchestrator.py:772-783 | a group makes one new file row per tracked episode exactly when its tracked paths are pairwise distinct and new, and no insert is lost to another request |
| ImportRun.PathImportOrchestrator.TrackEntry | src/jidou/orchestrators/path_import_orchestrator.py:739-786 | the outcome of one entry, the claimed set, and the whole new store |
| ImportRun.PathImportOrchestrator.ProcessShowEntries | src/jidou/orchestrators/path_import_orchestrator.py:565-597 | the result of a group and the store it leaves, in every mode: all paths unmatched without a show, entries with and without a number for a show a dry run would create, and new, repeated and unmatched entries for an existing one |
| ImportRun.PathImportOrchestrator.ImportShow | src/jidou/orchestrators/path_import_orchestrator.py:348-433 | a directory's results do not depend on whether the run is dry; the groups share one claimed set; a rollback of a failed resolution loses nothing |
| ImportRun.WorksMean | src/jidou/orchestrators/path_import_orchestrator.py:348-433 | a directory is one group, or the entries that stay and one group for each other show, each resolved under its own shown name |
| ImportRun.PathImportOrchestrator.Run | src/jidou/orchestrators/path_import_orchestrator.py:281-303 | the shows are counted by how they were resolved, the unmatched and repeated files are as many as the lists name, the counters are the totals over the results, and the store is theirs in turn |
| ImportRun.DirectoryTracks | src/jidou/orchestrators/path_import_orchestrator.py:405-431 | initially tracked plus claimed is what is tracked, after any number of groups |
| ImportTotals.GroupAccounts | src/jidou/orchestrators/path_import_orchestrator.py:565-597 | each group counts every entry once or knows it as tracked before, with lists as long as counters |
| ImportTotals.WorksPartition | src/jidou/orchestrators/path_import_orchestrator.py:348-433 | the groups of a directory together hold each of its entries once |
| ImportTotals.RunPartition | src/jidou/orchestrators/path_import_orchestrator.py:282-303 | the groups of all directories together hold each entry of the run once |
| ImportTotals.DirectoryCounts | src/jidou/orchestrators/path_import_orchestrator.py:405-431 | a directory reports exactly the episodes it claims that were not tracked before |
| ImportTotals.RunTotalIs | src/jidou/orchestrators/path_import_orchestrator.py:301-303 | the reported total is the sum over directories and groups |
| ImportTotals.RunTracks | src/jidou/orchestrators/path_import_orchestrator.py:281-303 | over a run exactly the claimed episodes turn tracked, and no already tracked episode is rewritten |
| ImportTotals.RunCounts | src/jidou/orchestrators/path_import_orchestrator.py:281-303 | the total of tracked episodes is the number of episodes that turn tracked over the run |
| ImportTotals.RunRows | src/jidou/orchestrators/path_import_orchestrator.py:772-783 | the total is never less than the number of new file rows, and equal exactly when, over the tracked entries of the whole run as the initial store determines them, no insert is lost and the paths are pairwise distinct and not in the initial table; no existing row changes |
| ImportTotals.CountedWithoutRow | src/jidou/orchestrators/path_import_orchestrator.py:772-783 | one file whose path is already in the table, or whose insert another request wins: the total is one and the table of files is unchanged |
| ImportTotals.DryThenReal | src/jidou/orchestrators/path_import_orchestrator.py:405-431 | for one directory whose shows all resolve, the dry run and the real run return the same results |
| ImportTotals.DryTotalExactly | src/jidou/orchestrators/path_import_orchestrator.py:281-303 | for a whole run the dry total is never too low, and it is exact exactly when no two directories claim the same episode that was not tracked before |
| ImportTotals.DryRunOvercounts | src/jidou/orchestrators/path_import_orchestrator.py:281-303 | two directories with the same untracked episode: the dry total is two and the real one is one |
| Provisioning.Session.InsertShow | src/jidou/orchestrators/_show_provisioning.py:47-54 | insert, or roll back a lost race and see what the winner committed; any other failure leaves the transaction broken |
| Provisioning.Session.Swallow | src/jidou/orchestrators/_show_provisioning.py:57-84 | re-raise, roll back or leave alone, as the two flags say |
| Provisioning.Session.SyncEpisodesBestEffort | src/jidou/orchestrators/_show_provisioning.py:110-119 | the effect of the sync under each failure and policy; nothing is committed |
| Provisioning.Session.GenerateAliasesBestEffort | src/jidou/orchestrators/_show_provisioning.py:147-157 | the effect of generation and its flush under each failure and policy; nothing is committed |
| Provisioning.Session.EnsureEpisodeGroupMap | src/jidou/orchestrators/tmdb_orchestrator.py:609-625 | a raising count raises; a failed backfill is swallowed without a rollback and so leaves the session poisoned |
| Provisioning.GetOrCreate | src/jidou/orchestrators/show_creation_orchestrator.py:248-315 | once the middle commit succeeds the show and its synced episodes are committed whatever alias generation does, and the new show has the generated names; exactly when the call returns a new show, an existing one, or raises |
| Provisioning.CreateRequest | src/jidou/orchestrators/show_creation_orchestrator.py:305-315 | after the whole request, commit or rollback, the show is still there with its old episodes and those the sync found, and the session is clean |
| Provisioning.ResolveShowByTmdbId | src/jidou/orchestrators/manual_match_orchestrator.py:164-223 | the same durability for a manual match, for its own show and for an adopted winner, with every database error raised; a call that returns has committed the episodes the sync found |
| Provisioning.SyncAndAliasNewShow | src/jidou/orchestrators/manual_match_orchestrator.py:237-297 | sync, commit, aliases: what is committed, and when it raises |
| Provisioning.TmdbCreateShow | src/jidou/orchestrators/path_import_orchestrator.py:951-977 | the new show stays committed and the session is never left poisoned whatever sync, count and aliases do; an adopted show leaves it poisoned exactly when it has episodes, its group map is missing, and the count made for the map or the backfill after it breaks in the database |
| Provisioning.SyncNewShowEpisodes | src/jidou/orchestrators/path_import_orchestrator.py:1066-1083 | a failing sync or count costs exactly the synced episodes |
| Provisioning.SyncEpisodesIfNeeded | src/jidou/orchestrators/path_import_orchestrator.py:490-522 | a found show without episodes gets those its sync finds, one with episodes is left alone; then the session is poisoned exactly when the map is missing and the second count, or the backfill after it, breaks in the database; the call raises exactly when the first count fails |
| Provisioning.SecondCountPoisons | src/jidou/orchestrators/path_import_orchestrator.py:515-522 | an input on which the step returns normally with a poisoned session and no backfill has run |
| Provisioning.EpisodesSurviveExactly | src/jidou/orchestrators/path_import_orchestrator.py:975-977 | synced episodes that were not committed survive exactly when the count and the alias generation succeed too |
| Race.OneShow | src/jidou/orchestrators/_show_provisioning.py:47-54 | for any interleaving of any calls: at most one row ever exists, every call that returns holds it, and at most one reports having created it |
| Race.LostFindsWinner | src/jidou/orchestrators/show_creation_orchestrator.py:292-301 | a call that lost the race always finds the winner |
| Race.OverwritesExactly | src/jidou/orchestrators/manual_match_orchestrator.py:35-48 | a fill overwrites a set field exactly when the field was unset as read, was set before the write, and the call brings another value |
| Race.SetFieldsStay | src/jidou/orchestrators/manual_match_orchestrator.py:175-212 | when every call that creates the row sets a field, no fill of any run ever changes it; for the path a manual match always does |
| Race.LosesExactly | src/jidou/orchestrators/manual_match_orchestrator.py:35-48 | from any initial state, some run overwrites a set field exactly when the row, already there or created by one of the calls, may begin without it and two manual matches bring different values for it |
| Race.LostAfterCreation | src/jidou/orchestrators/show_creation_orchestrator.py:259-290 | from an empty table a content type is lost in some run exactly when one manual match brings a path and no type and two bring different types; a path, exactly when some other call creates without one and two manual matches bring different ones |
| Race.FillsCanCollide | src/jidou/orchestrators/manual_match_orchestrator.py:195-208 | a run in which two manual matches lose the insert to a third that names no content type, and find its row: the second fill overwrites the content type of the first, and the path stays |
| Onboarding.FeedOnboardingOrchestrator.ResolveShow | src/jidou/orchestrators/feed_onboarding_orchestrator.py:133-141 | an existing show is used as it is; a created one is committed at once |
| Onboarding.FeedOnboardingOrchestrator.TeachAlias | src/jidou/services/alias_handling.py:80-112 | the name is appended to the aliases and to the user bucket where it is not known yet, unless it is the title's; a list without buckets becomes the user's; no other bucket changes; the flag says whether the name was new |
| Onboarding.TeachingIsIdempotent | src/jidou/orchestrators/feed_onboarding_orchestrator.py:144-156 | no alias or user alias is lost, the name is then known in both places, a legacy list moves into the user bucket, and teaching again changes nothing |
| Onboarding.TeachingLeavesNoOrphans | src/jidou/services/alias_handling.py:80-112 | where every alias is in some bucket, it stays so |
| Onboarding.FeedOnboardingOrchestrator.EnsureSubscription | src/jidou/orchestrators/feed_onboarding_orchestrator.py:179-217 | the first subscription of the show on the feed, else its first unlinked one with each missing regex and its flag taken from the request, else a new one that holds the request's filters, flags and name; no other subscription changes |
| Onboarding.AdoptionOnlyFills | src/jidou/orchestrators/feed_onboarding_orchestrator.py:188-201 | adopting never overwrites a regex the user has and turns nothing off |
| Onboarding.BlockedExactly | src/jidou/models/rss.py:90-95 | the call keeps one unpublished subscription per show exactly when it does not have to insert beside one |
| Onboarding.OnboardingIsIdempotent | src/jidou/orchestrators/feed_onboarding_orchestrator.py:97-121 | a second identical call returns the same show and subscription with all flags false and changes nothing |
| Onboarding.PlanExactly | src/jidou/orchestrators/feed_onboarding_orchestrator.py:221-256 | for an existing show the plan is what the call does exactly when its aliases are canonical for the name and no unpublished subscription on another feed blocks the insert |
| Onboarding.PlanForNewShow | src/jidou/orchestrators/feed_onboarding_orchestrator.py:221-256 | for a show the call creates, they agree exactly when the name is empty, or it matches the requested title exactly if it matches the created title or is one of the created aliases |
| Onboarding.PlanMissesCapitals | src/jidou/orchestrators/feed_onboarding_orchestrator.py:234-236 | an alias stored in capitals is known to the plan and new to the call |
| Onboarding.PlanMissesBlock | src/jidou/orchestrators/feed_onboarding_orchestrator.py:239-256 | an unpublished subscription on another feed blocks the insert the plan announces |
| Onboarding.FeedOnboardingOrchestrator.AddShowFromFeed | src/jidou/orchestrators/feed_onboarding_orchestrator.py:74-121 | a dry run writes nothing; a real call resolves the show, teaches it the name, reuses, adopts or creates the subscription with the request's own filters and changes nothing else, or leaves only the created show exactly when it is refused |
| Onboarding.OnboardedMeans | src/jidou/orchestrators/feed_onboarding_orchestrator.py:74-217 | a call is refused exactly when no show can be had or it needs a second unpublished subscription; otherwise its show, aliases, subscriptions and answer are as said of the state before |
| Aliases.ExtractTmdbAliases | src/jidou/orchestrators/alias_orchestrator.py:46-65 | the extraction holds, once and in the order of supply, each stripped lower-case title from JP, US, GB or KR or of a transliteration type, but never the canonical title |
| Aliases.FirstOccurrencesFacts | src/jidou/orchestrators/alias_orchestrator.py:134-140 | the merged list is a set in order of first occurrence that misses nothing |
| Aliases.BuildFlatAliases | src/jidou/orchestrators/alias_orchestrator.py:134-141 | the loop over the three buckets builds that list, and NULL when it is empty |
| Aliases.StripAllMeans | src/jidou/orchestrators/alias_orchestrator.py:123 | the LLM's names are stripped, put in lower case and kept in order, blank ones dropped |
| Aliases.GenerateAliases | src/jidou/orchestrators/alias_orchestrator.py:144-218 | TMDB and LLM buckets are replaced, a failed fetch keeps the TMDB bucket, the user bucket or a legacy list is kept, and the flat list is the ordered union |
| Aliases.BucketsKept | src/jidou/orchestrators/alias_orchestrator.py:164-211 | over any sequence of calls the user aliases stay and the TMDB bucket is that of the last successful fetch |
| Aliases.AliasesAfterRuns | src/jidou/orchestrators/alias_orchestrator.py:164-218 | after every call the flat list is the duplicate-free union of the buckets in order, and holds every user alias |
| Aliases.FlatAliasKeptExactly | src/jidou/orchestrators/alias_orchestrator.py:202-218 | a call keeps a non-empty flat alias exactly when the source map was NULL, or it is a user alias, or it is in the new TMDB bucket or the LLM's proposal |
| Aliases.OrphanIsLost | src/jidou/orchestrators/alias_orchestrator.py:207-208 | a flat alias beside an empty, non-NULL source map is lost |
| Aliases.OnlyGeneratedAreDropped | src/jidou/orchestrators/alias_orchestrator.py:210-218 | no call leaves a flat alias outside the buckets, so what the next call drops is a generated alias and never a user's |
| Paths.SanitizedFolderName | frontend/src/utils/paths.ts:10-14 | the result is non-empty, free of separators and illegal characters, single-spaced and trimmed; it has the title's own words in order; sanitising twice changes nothing |
| Paths.ParseBuilt | frontend/src/utils/paths.ts:43-83 | parsing a built path gives back its type and slash-normalised folder exactly when no earlier base also covers the path |
| Paths.SlashedMeans | frontend/src/utils/paths.ts:49-51 | a folder is stored with forward slashes and without leading ones, and nothing else of it changes |
| Paths.NoFolder | frontend/src/utils/paths.ts:65-77 | no path offers the anime library; a base is its own empty folder |
| Paths.RoundTripExactly | frontend/src/utils/paths.ts:43-83 | all folders of a type survive the round trip exactly when no earlier base equals its base, is an ancestor of it, or lies below it in stored form |
| Paths.RebuildExactly | frontend/src/utils/paths.ts:61-83 | rebuilding a parsed path gives it back exactly when it lies below the base found for it and its remainder has no backslash or leading slash |
| Paths.LastNameOf | frontend/src/utils/paths.ts:80-82 | an unrecognised path is a tv folder of its last name, with or without slashes, whichever it uses and however many end it; of slashes alone, the empty folder |
| Paths.LibraryPath | frontend/src/utils/paths.ts:10-53 | a sanitised title gives a path exactly one level below its base that parses back |
| Paths.HostPathMeans | frontend/src/utils/paths.ts:23-37 | the host path is the base's without its trailing slashes, then the rest of the path with the host's slashes; a path below no base is left alone |
| Paths.HostPathsDistinct | frontend/src/utils/paths.ts:23-37 | two container paths first covered by the same base of the order share a host path exactly when they are equal, or differ only in slashes under a Windows host |
| ScheduleHours.ParseScheduleHours | frontend/src/utils/scheduleHours.ts:11-24 | the loop accepts exactly the valid inputs and returns the specified list |
| ScheduleHours.ParsesExactly | frontend/src/utils/scheduleHours.ts:11-24 | an input is accepted exactly when each part is blank or digits for 0 to 23, with or without white space around them, and some part is not blank; the hours are those numbers |
| ScheduleHours.ParsedIsHourList | frontend/src/utils/scheduleHours.ts:11-24 | every successful parse is a non-empty strictly ascending list over 0..23, at most 24 long, naming exactly the hours written |
| ScheduleHours.RoundTrip | frontend/src/utils/scheduleHours.ts:11-30 | parsing a printed hour list returns it |
| ScheduleHours.NormalizeIdempotent | frontend/src/utils/scheduleHours.ts:27-30 | normalising twice changes nothing |
| ScheduleHours.NormalizeAlikeExactly | frontend/src/utils/scheduleHours.ts:27-30 | two valid inputs normalise alike exactly when they name the same hours |
| MissingEpisodes.ComputeMissingEpisodes | frontend/src/utils/missingEpisodes.ts:26-45 | seasons strictly ascending, exactly those in which an episode has aired before today and has no file, each with the number of its aired episodes and with those episodes sorted by number, equal numbers in their order |
| MissingEpisodes.BeforeMeans | frontend/src/utils/missingEpisodes.ts:32 | the date comparison is the order of strings: smaller at the first difference, or a proper prefix |
| MissingEpisodes.ReportIsComplete | frontend/src/utils/missingEpisodes.ts:28-45 | the missing lists together are, as a multiset, exactly the aired untracked episodes |
| MissingEpisodes.SortedFacts | frontend/src/utils/missingEpisodes.ts:38-44 | the sort orders a list, loses and invents nothing, and keeps equal elements in their order |

## Left out

- SFTP, TMDB, the LLM, Redis, Celery and SQL text: foreign calls, present only as chosen answers and failures.
- Hashing: a file's SHA-256 and CRC32 are given values.
- Event and log text, progress counts, prompts and timestamps other than `updated_at`; that one only matters while a row is DOWNLOADING, and writes that end a row leave it here.
- Symbolic links: `Path.resolve()` is taken lexically.
- The download dry run: it only lists the eligible rows.
- Claims.Claim: a claim is one atomic step, as SKIP LOCKED and the commit make it; the query's own locking is not modelled, and claims whose flush fails are crashes.
- Pipeline.Step: download and parse runs do not overlap here; the interleaving of several download workers is in Claims.
- The route stage and the statuses it produces (ROUTING, ROUTED), the local scan (MISSING) and manual edits of a row.
- In a parse: the crc, confidence, content-type and duplicate columns, the alias write-back and the library path of the show; they do not decide an outcome, and their failures are one chosen exception.
- ORM details after a rollback or a failed flush beyond committed, pending and poisoned, such as expired attributes.
- `resolve_declared_season` and the building of the episode-group map: a show's map is a given table of pairs.
- In a path import: the auto-set library path and the texts of the result; the episodes that this run's syncs add count as present and untracked from the start, since matching never returns one that is not there.
- ImportRun.PathImportOrchestrator.Run: an exception from matching aborts the source's run and is not modelled; within one directory a show's matches do not change between its groups.
- Choosing the TMDB candidate for a directory name, and the fields of a new show.
- Manual match by show id, reset, and the assignment of the file to its episode.
- Race.Step: the retry of a whole request and the deletion of shows.
- `Object.values` in `toHostPath` takes the configured order of the bases; here it is an argument.
- Unicode case folding and trimming of the host languages outside ScheduleHours and Paths: given functions.
- React components, network clients, migrations, configuration and API schemas.
