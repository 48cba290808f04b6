# Better Context Engine: a verified model

This project models the content-addressed core of the context engine server and of its MCP client, and proves
what that core is for. `dafny verify dfyconfig.toml` checks all of it.

- **Checkpoint protocol and garbage collection.** Clients keep a checkpoint id and a manifest, send deltas, lose
  responses, are told 410, and share snapshots and blobs with everybody else while projects are purged. `State`
  holds the store as one value and says declaratively what a purge removes; `MemoryStore` is the in-memory store
  with its loops; `Archive` decides which project row an upload lands in; `Service` and `Client` are the two
  halves of the protocol; `Protocol` is the state machine and holds the theorems over all runs, proved through
  `Safety`; `Interleaving` takes a client's upload and retrieval apart and lets anything happen in between, and
  `GhostRuns` is a run where that matters; `IndexSafety` and `RankingSafety` hold what steps keep of the inverted index
  and what its ids stand for, `SearchRuns` the theorems on index, searches and memo over all interleavings.
- **Incremental snapshot statistics.** `Stats` has the full aggregate and the difference from a base, `StatsRuns`
  every write that touches their tables, `StatsQueue` the pointer write and the background worker.
- **Chunking.** `Layout`, `Chunker` and `Chunking` are the three segmenters, the in-place merge and the windows;
  `SourceLines` has the line tests as the server makes them, `SourceChunks` what the segmenters do with those.
- **Result assembly.** `Pseudo` and `PseudoIndex` rejoin split files, `Curate` and `Hits` merge and slice hits,
  `Diversify` seats near-duplicates, `Skeleton` elides, `Output` writes the answer, `Prefilter` allocates the chunk
  budget, `Ranking` and `Bm25` score.
- **Accounting.** `Ledger` is the daily upload volume with refunds, `RateLimit` the per-minute window.

`Text`, `Sums` and `Domain` are shared vocabulary.

## What is assumed, and where the code and its comments part

- `Safety.SoundHashes`: the checkpoint digest is injective, and hashes are non-empty hexadecimal, so without newline
  and colon. Nothing is assumed of the blob hash in `Protocol`. `IndexSafety` needs that no two uploaded files share a
  blob name; `IndexSafety.NamesClashExactly` says when they do even under a perfect hash (path and content are hashed
  run together), and `IndexSafety.ClashLosesAFile` gives an instance.
- A client's upload and retrieval are one step of `Protocol`. As two steps (`Interleaving`), "every listed name is
  stored" is false: in the seven steps of `GhostRuns.GhostRun` a purge falls between the two, and the client's saved
  checkpoint lists a name that the store does not have. A listed name is missing exactly when a purge removed it while
  some client was between its upload of that name and its retrieval, and nobody has stored it again since
  (`Interleaving.MissingExactly`). Names of repository files and repository snapshots are never missing
  (`Interleaving.RepositoriesLoseNothing`), and manifest and snapshot still list the same names
  (`Interleaving.SavedCheckpointListsManifest`). A repository sync is one step in both.
- Statistics: a snapshot lists stored blobs only, and a blob is stored together with its chunks. The results over runs
  hold with `whole` for all columns when the names of every checkpoint make up whole files (`Stats.WholeFiles`), and
  without it for all but the file count. That count moves by the difference exactly when `Stats.DeltaIsExact` says so;
  `Stats.HashInPathMiscounts` is a path with `#` in a directory name that is miscounted.
- `queueSnapshotStats` is documented as a no-op for a pending snapshot; the code replaces the pending model. After a
  pointer move all seeded models are queued exactly when at most one was seeded
  (`StatsQueue.SnapshotStats.SaveACEProject`); with two, one is lost (`StatsQueue.SecondModelIsLost`).
- "Branch rows are never collapsed" is false: a row somebody called `project-x` on branch `main` goes when the same
  snapshot is archived from a directory `repo` (`Archive.NamedBranchRowLost`). A matched branch row of the user goes
  exactly when it is not the landing and its name starts with `project-` (`Archive.BranchRowGoes`).
- Offsets of split files are true exactly when no part but the last is empty (`Pseudo.OffsetsExact`), because an empty
  part counts no line but holds one.
- The gap between hits of one unit is not kept by padding: chunks 1-4 and 9-12 of a twelve-line file show lines 1-7
  and 6-12 (`Hits.PaddingCanOverlap`). Two hits of one unit overlap exactly when both spans are small and the second
  starts within six lines of the first one's end (`Hits.HitsOverlapExactly`).
- A refund and a re-upload of the same project cancel out where the store reports ciphertext sizes
  (`Ledger.ReuploadIsNeutral`: the counter ends at the larger of its value and the project). With the in-memory store,
  which reports plain lengths, such a round leaves the counter as it was exactly when other rows of the user hold the
  whole project, and raises it otherwise (`Ledger.PlainReuploadExactly`, an instance is `Ledger.PlainReuploadRaises`).
- The limiter's bound over any minute is twice the limit, and it is reached for every limit: `RateLimit.TwiceIsReached`.
- The ratio tests (half of the blobs for purge and archival, 0.7 of the lines for near copies) are exact integer
  comparisons.

## Model

| member | source | states |
|---|---|---|
| `Protocol.SavedCheckpointIsExact` | cmd/mcp/main.go:89-156 | over every run of rounds, lost responses, 410 resets, uploads, syncs and purges by anyone: a saved checkpoint that still resolves lists exactly the names of the client's saved manifest, and every one is stored |
| `Protocol.RoundReachesWorkspace` | cmd/mcp/main.go:89-156 | an answered round leaves the checkpoint equal to the current workspace, owned by its user and fully stored, whatever came before |
| `Protocol.NothingDangles` | internal/store/memory.go:674-761 | over every run, every project row and checkpoint pointer resolves, and every name a snapshot or repository file lists is stored |
| `Protocol.RepeatedRoundIsIdle` | cmd/mcp/main.go:89-156 | after any run, repeating an answered round with nothing edited leaves store and client exactly as they are: no row wanders, nothing is stored |
| `Protocol.PurgeAgreesWithSQL` | internal/store/postgres.go:1280-1342 | on every reachable store with the row, the loops of the in-memory purge and the PostgreSQL transaction (row, jobs, doomed snapshots, pointer, dead blobs and their cascades) leave one and the same store |
| `Protocol.StepIsSafe` | internal/store/memory.go:674-761 | each kind of step keeps the store sound and every client's saved state faithful to its checkpoint id |
| `Protocol.SearchSynchronises` | cmd/mcp/main.go:89-107 | a search that falls back to the full manifest after a 410 synchronises, and the fallback cannot be refused |
| `Protocol.SyncIsSafe` | internal/indexer/service.go:218-303 | a repository sync keeps the store sound: its snapshot and manifest name stored blobs only |
| `Interleaving.SavedCheckpointListsManifest` | cmd/mcp/main.go:108-156 | with uploads and retrievals as separate steps and anything in between: a saved checkpoint that resolves lists exactly the names of the saved manifest |
| `Interleaving.MissingExactly` | cmd/mcp/main.go:108-156 | a listed name is missing from the store exactly when a purge of the run removed it while some client had uploaded it and not yet retrieved, and no later world of the run has it |
| `Interleaving.QuietRunsLoseNothing` | cmd/mcp/main.go:108-156 | when no purge falls between a client's two steps every listed name is stored |
| `Interleaving.StruckNameIsGhost` | internal/httpapi/server.go:763-769 | a name not stored when the retrieval is answered is listed by the client's own new checkpoint |
| `GhostRuns.GhostRun` | internal/httpapi/server.go:763-769 | a run of seven steps, for any file: two clients of two users hold it, the one's project is purged between the other's upload and retrieval, and the saved checkpoint lists a name that is not stored |
| `Interleaving.RepositoriesLoseNothing` | internal/indexer/service.go:218-303 | in every interleaving every name of a repository's files and snapshots is stored |
| `Interleaving.PurgeAgreesWithSQL` | internal/store/postgres.go:1280-1342 | in every interleaving, names missing or not, the loops and the transaction leave one and the same store |
| `Interleaving.AnswerListsSent` | internal/httpapi/server.go:831-858 | an answer lists exactly the names of the files that were sent, stored or not |
| `Interleaving.ReferencesResolve` | internal/store/memory.go:674-761 | in every interleaving every row and pointer resolves |
| `Interleaving.RunIsSafeBut` | cmd/mcp/main.go:108-156 | every interleaved run keeps the store sound but for the names missing, and every client faithful |
| `Client.DeltaExact` | cmd/mcp/main.go:108-156 | saved names minus the deleted plus the added are exactly the names of the current files |
| `Client.McpClient.SearchDelta` | cmd/mcp/main.go:108-156 | the attempt over the store: upload of the changed files, then retrieval of the delta, with the new state on an answer |
| `Client.McpClient.Search` | cmd/mcp/main.go:89-107 | the saved state moves only when an answer arrives; a refused delta is retried once from scratch |
| `Service.UploadBlobs` | internal/indexer/service.go:167-211 | the store after the batch: names stored before are skipped, new blobs are stored with chunks, postings and content hashes |
| `Service.ResolveCheckpoint` | internal/indexer/service.go:580-619 | refusal exactly for an unknown claimed id; otherwise base minus deleted plus added as a snapshot under the hash of its sorted names |
| `Service.Retrieval` | internal/httpapi/server.go:831-858 | a claimed checkpoint must be the caller's; the resolved one becomes his pointer and is archived |
| `Service.IndexedIDs` | internal/indexer/chunker.go:174-186 | chunks of a blob are numbered under its name, so their ids are distinct |
| `Safety.ResolveIsExact` | internal/indexer/service.go:580-619 | the resolved snapshot lists a name exactly when it was added, or not deleted and listed by the claimed one; it is content-addressed, and the store stays sound |
| `Safety.MintIsExact` | internal/indexer/service.go:600-619 | a minted checkpoint lists exactly the given names, whether or not a snapshot of that id was there before |
| `Safety.RetrievalIsExact` | internal/httpapi/server.go:831-858 | a retrieval answers with a checkpoint the user owns that lists base minus deleted plus added |
| `Safety.JobOfRetrieval` | internal/httpapi/server.go:831-858 | an answered retrieval of a user records its job exactly when a name was added or deleted, and shows its checkpoint in a row of his |
| `Safety.RefusedExactly` | internal/httpapi/server.go:831-858 | a retrieval is refused exactly when it claims a checkpoint that does not resolve, or that neither the caller's pointer nor any row of his holds |
| `Safety.RetrievalWrites` | internal/httpapi/server.go:831-858 | an answered retrieval points its user's pointer at the answer and touches no other user's pointer or row, no blob and no repository file; of the shared token it touches no row or pointer at all |
| `Safety.RetrievalRepeats` | internal/httpapi/server.go:831-858 | retrieving again with the answered checkpoint and no delta answers the same and changes nothing |
| `Safety.SoundRowsListOnce` | internal/indexer/service.go:600-619 | in every sound store the rows point at snapshots that list each name once, which repeated archival relies on |
| `Safety.CheckpointNameInjective` | internal/indexer/service.go:622-629 | the id of a checkpoint determines its list of names |
| `Safety.ResolvesToItsNames` | internal/indexer/service.go:600-619 | a stored snapshot under the id of a name list has that very list |
| `Safety.UploadGrows` | internal/indexer/service.go:167-211 | an upload adds the batch's names, removes nothing and keeps the store sound |
| `Safety.PurgeRemovesExactly` | internal/store/memory.go:674-761 | the snapshots a purge removes are exactly those of the declarative definition; the others stay as they were |
| `Safety.PurgeByHalf` | internal/store/memory.go:692-724 | in sets and numbers: a checkpoint that no row, other user or repository needs goes with another one exactly when they share a name and the shared names are at least half of the smaller of the two |
| `Safety.QuarterStaysHalfGoes` | internal/store/memory.go:714-723 | instances: of two checkpoints of four names, one shared name keeps the other, two take it along |
| `Safety.PurgeLeavesRest` | internal/store/memory.go:674-691 | the rows other than the purged, the repository files, the hash vectors, the jobs of others or with another label, and the pointers of others stay as they were |
| `Safety.PurgeSparesOthers` | internal/store/memory.go:674-761 | no other user's row, pointer or job is touched by a purge |
| `Safety.PurgeTakesOnlyTheirs` | internal/store/memory.go:745-759 | what goes with the dead blobs is exactly what their chunks own |
| `Safety.PurgeSparesNeeded` | internal/store/memory.go:692-724 | every snapshot that a remaining row, another user's checkpoint or a repository needs survives |
| `Safety.PurgeRemovesDeadBlobs` | internal/store/memory.go:725-744 | the blobs a purge removes are exactly those that only doomed snapshots list and no repository file names |
| `Safety.PurgeLeavesNothing` | internal/store/memory.go:745-759 | of a dead blob no chunk list, posting, legacy vector or chunk hash remains |
| `Safety.PurgeKeepsSound` | internal/store/memory.go:674-761 | after a purge every remaining row and pointer resolves, the caller's own included |
| `State.LoopsAgreeWithSQL` | internal/store/postgres.go:1298-1322 | counting shared names over a snapshot's list is the size of the intersection of the sets, so loops and SQL decide alike |
| `State.PurgesAgree` | internal/store/postgres.go:1298-1342 | where checkpoints list each name once and listed names that are not stored have no chunks, the transaction's deletions table by table are those of the loops |
| `State.SharedIsIntersection` | internal/store/memory.go:714-723 | counting over the list of names is counting the intersection |
| `MemoryStore.Memory.PurgeACEProject` | internal/store/memory.go:674-761 | the loops over rows, checkpoints, snapshots, blobs and seven maps leave exactly the declaratively purged store, or refuse an unknown row |
| `MemoryStore.Memory.PutBlob` | internal/store/memory.go:235-242 | a stored name keeps its first blob |
| `MemoryStore.Memory.ExistingBlobNames` | internal/store/memory.go:243-253 | exactly the listed names that are stored |
| `MemoryStore.Memory.PutChunks` | internal/store/memory.go:293-312 | chunks, content hashes and postings of a blob, once |
| `MemoryStore.Memory.ChunkPostings` | internal/store/memory.go:313-333 | exactly the stored rows of the listed terms and chunks |
| `MemoryStore.Memory.PutEmbeddings` | internal/store/memory.go:359-376 | vectors by content hash, or by chunk id when there is none |
| `MemoryStore.HashVectorIs` | internal/store/memory.go:359-376 | the last embedding of a model and content hash is what is found under them |
| `MemoryStore.VectorIs` | internal/store/memory.go:359-376 | without a content hash the last embedding of a model and chunk id is what is found under them |
| `MemoryStore.Memory.UserOwnsSnapshot` | internal/store/memory.go:593-605 | exactly when the user's pointer or one of his rows holds the id; a user without a pointer holds the empty id |
| `MemoryStore.Memory.ReplaceRepositoryFiles` | internal/store/memory.go:265-278 | the repository's manifest without the deleted paths, with the new files |
| `MemoryStore.NewFileIsListed` | internal/store/memory.go:265-278 | a path has the last new file given for it |
| `MemoryStore.DeletedIsGone` | internal/store/memory.go:265-278 | a deleted path without a new file has none |
| `MemoryStore.OtherFilesStay` | internal/store/memory.go:265-278 | every other path, and every other repository, keeps what it had |
| `MemoryStore.Memory.SaveACEProject` | internal/store/memory.go:762-770 | the row of user, name and branch is written, no other changes |
| `MemoryStore.Memory.DeleteACEProject` | internal/store/memory.go:624-629 | that row goes, no other changes |
| `MemoryStore.Memory.EnsureACEProject` | internal/store/memory.go:771-782 | a pending row is added exactly when there is none |
| `MemoryStore.Memory.RenameACEJobs` | internal/store/memory.go:647-657 | exactly the user's activity jobs with the old label get the new one |
| `MemoryStore.RenameIs` | internal/store/memory.go:647-657 | another user's job, another label's and a repository's stay as they are |
| `MemoryStore.Memory.UserStorageBytes` | internal/store/memory.go:658-673 | the lengths of all stored contents the user's rows hold, each name once |
| `Ledger.TotalIsLength` | internal/store/memory.go:658-673 | an instance: one file held by two rows of a user counts its length once |
| `MemoryStore.Memory.UserHeldBlobNames` | internal/store/memory.go:630-646 | exactly the listed names that a row of the user holds |
| `Archive.ArchivalFolds` | internal/indexer/aceproject.go:72-125 | one row, the landing, has the new snapshot; the rows that go are exactly the other matched ones that are auto-named or, for a git-aware client, branch-less; other rows are untouched and no job is lost |
| `Archive.BranchRowsSurvive` | internal/indexer/aceproject.go:103-113 | a row with a branch and a name that is not auto-minted is never removed |
| `Archive.BranchRowGoes` | internal/indexer/aceproject.go:103-113 | a branch row goes exactly when it is a matched row of the user, is not the landing and has a name of the auto-minted form |
| `Archive.NamedBranchRowLost` | internal/indexer/aceproject.go:103-113 | an instance: the row project-x on branch main goes when the same snapshot is archived from repo on main |
| `Archive.NamelessAddsNoRow` | internal/indexer/aceproject.go:81-102 | a client without a name adds no row while one of its rows matches |
| `Archive.LandingIsStable` | internal/indexer/aceproject.go:72-125 | archiving the same snapshot again lands in the same row |
| `Archive.ArchivalIdempotent` | internal/indexer/aceproject.go:72-125 | archiving the same snapshot again changes nothing |
| `Archive.ClosestUnique` | internal/indexer/aceproject.go:196-207 | score, then name and branch, leave one closest row, whatever the order of the sort |
| `Archive.MatchingACEProjects` | internal/indexer/aceproject.go:154-212 | exactly the user's rows on the snapshot or sharing half of the smaller side, ranked by score, name and branch |
| `Archive.LandingOf` | internal/indexer/aceproject.go:72-102 | the landing: the reported name, the closest admissible row, or a minted name |
| `Archive.MatchesByHalf` | internal/indexer/aceproject.go:154-212 | in sets and numbers: a row matches exactly when it is on the snapshot, or shares at least half of the smaller side with it |
| `Archive.GitLanding` | internal/indexer/aceproject.go:72-80 | a named git client lands under its own clipped name, branch and worktree flag |
| `Archive.PlainLanding` | internal/indexer/aceproject.go:81-91 | a named client without git lands in the best ranked matching row that has a branch, and under its own name without branch if there is none |
| `Archive.NamelessLanding` | internal/indexer/aceproject.go:92-102 | a nameless client lands in the best ranked matching row with a name of its own, else the best ranked one, else under the minted name |
| `Archive.ClipIs` | internal/indexer/aceproject.go:126-147 | a clipped name is what lies between the outer white space, at most as long as the limit |
| `Archive.MintedIsPrefix` | internal/indexer/aceproject.go:92-102 | a minted name is project- and the first eight characters of the checkpoint id's digest |
| `Archive.JobsFollow` | internal/indexer/aceproject.go:103-125 | an existing job keeps owner and repository id, and gets the landing's label exactly when it is the user's and carries the label of a row that went |
| `Archive.ArchiveACEProject` | internal/indexer/aceproject.go:72-125 | the store after folding, relabelling, saving the landing and recording the job |
| `IndexSafety.IndexAgreesWithText` | internal/indexer/lexical.go:193-205 | over every run of uploads, syncs, purges and rounds: a stored chunk's text is its own line range of the stored content, its length, hash and per-term frequencies are those counted from that text, and no term it lacks is persisted |
| `SearchRuns.IndexAgreesInterleaved` | internal/indexer/lexical.go:193-205 | the same in every interleaving of uploads, retrievals, purges and syncs |
| `SearchRuns.StepKeepsIndex` | internal/indexer/lexical.go:193-205 | each of those steps keeps chunks, postings and blobs in agreement |
| `IndexSafety.RunKeepsIndexed` | internal/store/memory.go:293-312 | over every run, stored chunks are the chunking of their blob, postings are its rows, content hashes are those of the chunks, nothing is orphaned, and a stored blob has a chunk list exactly when its path is not excluded |
| `IndexSafety.StoredIsChunked` | internal/indexer/service.go:198-203 | after every run a stored blob has a chunk list exactly when its path is not excluded, and then the list is the chunking of its own content |
| `IndexSafety.UploadedAreChunked` | internal/indexer/service.go:167-211 | after an upload every file of the batch whose path is not excluded has its chunks stored, and no excluded one has any |
| `SearchRuns.StoredIsChunkedInterleaved` | internal/indexer/service.go:198-203 | the same in every interleaving |
| `IndexSafety.PurgeKeepsIndexed` | internal/store/memory.go:745-759 | a purge leaves the rows of every surviving blob and none of a dead one |
| `IndexSafety.WorkspaceIsStored` | cmd/mcp/main.go:108-156 | an answered round leaves each workspace file stored under its name with its own path and content, and listed by the checkpoint |
| `IndexSafety.NamesClashExactly` | internal/indexer/service.go:128-133 | even under a perfect hash two files share a name exactly when path and content run together agree |
| `IndexSafety.ClashLosesAFile` | internal/indexer/service.go:128-133 | an instance: uploading the second file changes nothing |
| `IndexSafety.NoClashExactly` | internal/indexer/service.go:128-133 | names determine files exactly when no two uploads agree run together |
| `IndexSafety.SourceIsLawful` | internal/indexer/chunker.go:174-186 | chunks of different blobs have different ids, and a blob's rows belong to its chunks |
| `Lexical.NewChunkStats` | internal/indexer/lexical.go:158-165 | the counts are the occurrences of each token, the length their number |
| `Lexical.ChunkTextIsCut` | internal/indexer/chunker.go:291-301 | the text of a chunk splits into exactly the lines startLine to endLine of the split content |
| `Lexical.IndexPostings` | internal/indexer/lexical.go:193-205 | the chunks stamped with length and hash, and the rows of each term of each chunk, in whatever order the map is walked |
| `Lexical.EntriesOfChunk` | internal/indexer/lexical.go:193-205 | the rows of a chunk are exactly its terms with their counts |
| `Lexical.StoringAddsRows` | internal/store/memory.go:305-310 | storing the postings in any order adds exactly the rows |
| `Ranking.Scorer.BM25Values` | internal/indexer/lexical.go:230-309 | the answer and memo of the functions those theorems are about, and so the directly counted scores, to the last bit of whatever arithmetic, for candidates whose ids stand for one text |
| `Ranking.Scorer.ChunkStatsFor` | internal/indexer/lexical.go:171-186 | reset past the limit, then the kept counts, or fresh ones that are kept |
| `Ranking.AnswerIsDirect` | internal/indexer/lexical.go:230-309 | whether the index could be reached, which candidates it has and what the memo holds makes no difference: every score is the one counted from the texts |
| `Ranking.DocsWithIsDirect` | internal/indexer/lexical.go:277-294 | the document frequency over mixed sources is the direct one |
| `Ranking.DocFrequencyIs` | internal/indexer/lexical.go:288-294 | the document frequency is the number of candidates whose text has the term |
| `Ranking.MemoIsBounded` | internal/indexer/lexical.go:171-186 | the memo never holds more than one entry past its limit |
| `Bm25.MatchesExactly` | internal/indexer/lexical.go:288-308 | on real numbers, a candidate scores above zero exactly when it holds a term of the query |
| `Bm25.MoreOftenScoresHigher` | internal/indexer/lexical.go:288-308 | of two candidates of one length the one that has the queried term more often scores higher |
| `Bm25.ShorterScoresHigher` | internal/indexer/lexical.go:288-308 | of two candidates with the queried term equally often the shorter one scores higher |
| `Bm25.RarerScoresHigher` | internal/indexer/lexical.go:288-308 | of two terms a candidate has equally often the one that fewer candidates hold scores higher |
| `Bm25.ScoresAdd` | internal/indexer/lexical.go:288-308 | the score of a longer query is the sum over its terms, a repeated one counted once |
| `Bm25.AverageIs` | internal/indexer/lexical.go:262-285 | the average length times the number of candidates is the number of all their tokens |
| `Bm25.NormScale` | internal/indexer/lexical.go:288-308 | one occurrence in a text of average length weighs one, and no frequency as much as 2.2 |
| `Ranking.RepeatsDoNotCount` | internal/indexer/lexical.go:241-248 | repeating a term of the query changes no score |
| `Ranking.AddTerm` | internal/indexer/lexical.go:288-308 | one term's turn over the values, a term nobody holds skipped, adds what the sources make the term worth to each candidate |
| `Ranking.CountDocs` | internal/indexer/lexical.go:289-294 | the document frequency by the sources, index rows and memo mixed |
| `RankingSafety.IndexScoresAfterAnyRun` | internal/indexer/lexical.go:230-309 | after any run every stored chunk is fit to be scored from the index |
| `SearchRuns.EveryScoreIsDirect` | internal/indexer/lexical.go:167-309 | over every history of uploads, retrievals, purges, re-uploads, restarts and searches in any interleaving, every score returned is the one counted directly from the candidates' texts |
| `RankingSafety.DrawnText` | internal/indexer/lexical.go:167-186 | a candidate of any reachable store has the text that its id stands for |
| `RankingSafety.SameIDSameText` | internal/indexer/lexical.go:167-186 | a chunk id stands for one text across all reachable stores, so the memo cannot lie |
| `Stats.DeltaIsExact` | internal/store/postgres.go:1530-1558 | bytes, chunks and embedded of the difference refresh are those of the full aggregate; the file count is exactly when as many logical paths are both added and kept as are both removed and kept |
| `Stats.WholeFilesMakeExact` | internal/store/postgres.go:1530-1558 | over whole files the difference refresh equals the full aggregate in every column |
| `Stats.AddedPartReplacesOne` | internal/store/postgres.go:1555-1558 | with whole files on both sides a path with an added and a kept blob also lost one |
| `Stats.HashInPathMiscounts` | internal/store/postgres.go:1536-1538 | a directory name with '#' defeats the file count |
| `StatsRuns.RefreshIsExact` | internal/store/postgres.go:1512-1593 | whichever way it measured, a refresh leaves the full aggregate in the row, complete exactly when every chunk is embedded; without whole files the file count excepted |
| `StatsRuns.CompleteRowStands` | internal/store/postgres.go:1179-1190 | over any run a complete row keeps bytes, chunks, embedded and flag while its snapshot lives, and they stay those of the full aggregate; in runs over whole files the whole row stands, file count included |
| `StatsRuns.EveryRefreshIsExact` | internal/store/postgres.go:1503-1593 | from an empty database, after any run of writes, any refresh gives bytes, chunks, embedded and flag of the full aggregate, and in runs over whole files the file count too |
| `StatsRuns.StepKeepsSound` | internal/store/postgres.go:1163-1215 | uploads, embeddings, checkpoints, pointer moves, refreshes and purges keep complete rows exact |
| `StatsRuns.StepKeepsComplete` | internal/store/postgres.go:1179-1190 | no step changes a complete row of a living snapshot; without whole files the file count excepted |
| `StatsRuns.RefreshKeepsExact` | internal/store/postgres.go:1512-1593 | a refresh leaves other exact rows exact and complete rows untouched |
| `StatsRuns.MoveSeedsUsableBase` | internal/store/postgres.go:1179-1190 | moving a pointer off a complete snapshot lets the new one refresh by difference from it |
| `StatsRuns.MoveShowsOldNumbers` | internal/store/postgres.go:1437-1478 | until it is measured the new snapshot shows the old one's numbers, not complete, for exactly the models that only the old one was measured for |
| `StatsQueue.SnapshotStats.SaveACEProject` | internal/store/postgres.go:1163-1215 | the pointer and its provisional rows are written; one seeded model is queued, so all are exactly when at most one was seeded |
| `StatsQueue.SecondModelIsLost` | internal/store/postgres.go:1463-1478 | an instance: two models are seeded, and no queue holds both |
| `StatsQueue.SnapshotStats.RefreshSnapshotStats` | internal/store/postgres.go:1512-1593 | the row by difference when the base row is complete, in full otherwise, nothing for an unknown snapshot |
| `StatsRuns.RefreshedRow` | internal/store/postgres.go:1512-1593 | a refreshed row written out: the bytes of the snapshot's blobs, the number of their chunks, the number of those with a vector under id or content hash, complete exactly when all have one, and over whole files the number of distinct paths up to the hash sign |
| `StatsRuns.EmbeddingByHashCounts` | internal/store/postgres.go:725-745 | once its content hash has a vector of the model a chunk counts as embedded |
| `StatsRuns.HashedIsComplete` | internal/store/postgres.go:1543-1578 | an instance: one chunk with a vector under its hash only makes a complete row with one of one embedded |
| `StatsQueue.SnapshotStats.DrainSnapshotStats` | internal/store/postgres.go:1480-1501 | the queue empties; every living snapshot that was pending has an exact row; complete rows are untouched |
| `Layout.LayoutTiles` | internal/indexer/astchunker.go:182-225 | the layout tiles its range without gap or overlap, however declarations overlap, exceed it or come out of order |
| `Layout.LayoutSegments` | internal/indexer/astchunker.go:182-225 | the loop with cursor and recursion refines the layout, so it tiles its range and ends |
| `Layout.DeclarationKeptWhole` | internal/indexer/astchunker.go:182-225 | a declaration that fits a chunk is one segment under its symbol, with its attached comments down to the previous declaration |
| `Layout.InnerKeptWhole` | internal/indexer/astchunker.go:182-225 | a declaration too long for one chunk is laid out by the declarations in it: those that fit are whole, with their comments down to its own start |
| `Layout.NodeLines` | internal/indexer/astchunker.go:228-236 | a node's lines are those it has a column on, so not the last one when it ends before its first column |
| `Layout.FillerCarriesParent` | internal/indexer/astchunker.go:182-225 | a line no declaration takes is in a segment of the enclosing symbol |
| `Layout.DeclsAreOutermost` | internal/indexer/astchunker.go:156-174 | the descent finds exactly the outermost declarations within its depth guard |
| `Layout.CollectDecls` | internal/indexer/astchunker.go:156-174 | the recursive walk collects those declarations in order |
| `Layout.TilesOnce` | internal/indexer/astchunker.go:176-181 | in a tiling every line lies in exactly one segment |
| `Chunker.VueSegments` | internal/indexer/astchunker.go:280-340 | a tiling of the whole file with shifted inner layouts, or nothing exactly when no block opens and closes |
| `Chunker.ScriptLanguage` | internal/indexer/astchunker.go:312-330 | a script is parsed as TypeScript exactly when its opening line says so, as JavaScript otherwise |
| `Chunker.Fenced` | internal/indexer/astchunker.go:312-330 | a script's inner layout, shifted between its fences, tiles the block |
| `Chunker.StartOfMonotone` | internal/indexer/chunker.go:246-253 | starts with attached comments are monotone across boundaries, comment lines or not |
| `Chunker.BoundarySegment` | internal/indexer/chunker.go:257-267 | a boundary is dropped exactly when only comment lines lie up to the next one; a kept one's segment holds its line |
| `Chunker.BoundsAre` | internal/indexer/chunker.go:214-231 | the boundaries are exactly the lines that match, under what they match |
| `Chunker.HeuristicSpec` | internal/indexer/chunker.go:208-269 | a tiling of the file as soon as one boundary matches, overlapping windows otherwise |
| `Chunker.HeuristicSegments` | internal/indexer/chunker.go:208-269 | the pattern scan, the attachment loop and the boundary loop refine those segments |
| `Chunker.WindowsCover` | internal/indexer/chunker.go:187-201 | windows cover exactly their range, none longer than a window |
| `Chunker.WindowsAre` | internal/indexer/chunker.go:187-201 | windows start 68 lines apart, neighbours share twelve, and only the last is shorter than eighty |
| `Chunking.MergeTinySegments` | internal/indexer/chunker.go:274-288 | the in-place fold, reading ahead of its own writes, leaves the merged segments |
| `Chunking.MergeTiles` | internal/indexer/chunker.go:274-288 | a tiling goes to a tiling whose segments past the first have at least four lines |
| `Chunking.MergedNames` | internal/indexer/chunker.go:274-288 | every merged segment is a stretch of the given ones in which all but the first are below four lines, and has symbol and kind of the first of them that has a symbol |
| `Chunking.ChunksKeepLine` | internal/indexer/chunker.go:157-203 | every non-blank line lies in some chunk |
| `Chunking.ChunksSound` | internal/indexer/chunker.go:157-203 | chunks are ranges of the file of at most 120 lines with text, numbered consecutively, so ids are distinct |
| `Chunking.ChunkIsNamed` | internal/indexer/chunker.go:157-203 | a chunk has symbol and kind of the merged segment that holds its lines, and its blob's name and language |
| `Chunking.SegmentIsChunk` | internal/indexer/chunker.go:157-203 | a merged segment of at most 120 lines with text is one chunk, line for line, under its symbol and kind |
| `Chunking.ChunkIDInjective` | internal/indexer/chunker.go:174-186 | a chunk id determines blob name and number |
| `Chunking.ChunkBlob` | internal/indexer/chunker.go:157-203 | the choice of splitter, the merge and the emit loop with its window loop give the chunks those lemmas are about |
| `SourceChunks.TextIsChunked` | internal/indexer/chunker.go:157-203 | every character that is not white space is on a line some chunk holds |
| `SourceChunks.ChunksHoldText` | internal/indexer/chunker.go:174-186 | every chunk holds such a character |
| `SourceChunks.AnnotationsStay` | internal/indexer/astchunker.go:195-206 | a declaration is in one segment with the comments, annotations and attributes stacked on it |
| `SourceChunks.AttachableExactly` | internal/indexer/astchunker.go:195-206 | a line is attached exactly by one of eight marks it starts with |
| `SourceChunks.VueSplitExactly` | internal/indexer/astchunker.go:280-340 | a Vue file is laid out by blocks exactly when a script, template or style tag at the start of a line has its end tag at the start of a later one |
| `SourceChunks.VueBlockStands` | internal/indexer/astchunker.go:280-340 | in a Vue file a template or style block is one segment from its tag to its end tag when every block opened before it is closed before it |
| `SourceChunks.ExemptIsWindowed` | internal/indexer/chunker.go:157-172 | a file of an exempt language without a boundary is cut in windows, tree or no tree |
| `Pseudo.ParseInvertsPrint` | internal/indexer/curate.go:29-45 | parsing a printed part suffix gives base, number and count back, whatever the base |
| `Pseudo.SecondOfThree` | internal/indexer/curate.go:29-45 | an instance: base#chunk2of3 is part two of three of base |
| `Pseudo.ShiftedLineIsOwnLine` | internal/indexer/curate.go:103-110 | line j of part k is line offset + j of the rejoined file |
| `Pseudo.OffsetsExact` | internal/indexer/curate.go:103-109 | the offsets are true for every part exactly when no part but the last is empty |
| `Pseudo.RejoinedLines` | internal/indexer/curate.go:103-110 | the lines of the rejoined file are those of its parts in order |
| `Pseudo.PartLines` | internal/indexer/curate.go:103-110 | the parts tile the rejoined file |
| `PseudoIndex.BuildPseudoIndex` | internal/indexer/curate.go:68-113 | from raw paths: a split file is remapped exactly when all parts its paths name are present and agree, in any order of arrival; nothing else gets an offset |
| `PseudoIndex.SplitFileRejoined` | internal/indexer/curate.go:63-113 | a text cut at its line ends in any way and stored under the printed part paths in any order is rejoined exactly |
| `PseudoIndex.SplitFileLines` | internal/indexer/curate.go:103-110 | and every line of every part is found at its offset, when no part but the last is one empty line |
| `PseudoIndex.TableDecides` | internal/indexer/curate.go:69-102 | the table is consistent and complete exactly when the files are one whole set of parts |
| `PseudoIndex.PartsUnique` | internal/indexer/curate.go:69-102 | a complete set of parts is one set in one order |
| `PseudoIndex.PlaceParts` | internal/indexer/curate.go:103-110 | each part's blob maps to its running line offset, and the text is rejoined |
| `Curate.SeparatedByCuts` | internal/indexer/curate.go:265-281 | two selected chunks land in different groups exactly when a line cut separates them: the groups depend on the spans alone |
| `Curate.GroupPieces` | internal/indexer/curate.go:255-281 | groups partition the selection, are chained, have their exact spans and best ranks, and those of one unit are more than the gap apart |
| `Curate.MemberInSpan` | internal/indexer/curate.go:266-281 | a group's span runs from the least start to the greatest end |
| `Curate.MergeRun` | internal/indexer/curate.go:266-281 | the sorted ranks of one unit become chained groups further apart than the gap |
| `Curate.SortByRank` | internal/indexer/curate.go:282-282 | the same groups in the order of their best ranks |
| `Hits.CurateHits` | internal/indexer/curate.go:231-345 | one hit per group in best-rank order, with padding, excerpt, top scores and symbol of the group |
| `Hits.HitSpeaksOfMembers` | internal/indexer/curate.go:281-313 | a hit has the base path of the split file its best member is a part of, and that member's own path otherwise; its fused score is that member's, its symbol the best member's or, without that, a member's, and each other score is the greatest of its members' |
| `Hits.HitWithoutText` | internal/indexer/curate.go:305-313 | without the unit's text a hit is its best member's content and lines |
| `Hits.PlainPathIsCited` | internal/indexer/curate.go:301-303 | an instance: one chunk of blob b at a.go is cited as a.go |
| `Hits.HitCitesItsLines` | internal/indexer/curate.go:315-343 | the content is exactly the cited line slice; padding adds at most three lines a side and stays in the file |
| `Hits.MemberLinesShown` | internal/indexer/curate.go:315-343 | every line of every selected chunk is in its hit, under its own number |
| `Hits.PartLinesShown` | internal/indexer/curate.go:239-254 | a chunk of a split file is shown at its true lines of the rejoined file |
| `Hits.PaddingCanOverlap` | internal/indexer/curate.go:331-335 | candidates and a result: of three four-line chunks of a twelve-line file the outer two are selected and show lines 1-7 and 6-12 |
| `Hits.HitsOverlapExactly` | internal/indexer/curate.go:231-345 | two hits of one unit share a shown line exactly when both spans are small and less than twice the padding lies between them |
| `Hits.PaddingMeets` | internal/indexer/curate.go:331-335 | the same of two groups and a text length |
| `Diversify.PicksAreDiverse` | internal/indexer/curate.go:158-222 | picks are distinct ranked indices, at most the limit, never byte-identical, each seated with fewer than two near-copies before it |
| `Diversify.NoThirdCopy` | internal/indexer/curate.go:177-216 | of three picks under one base name the last is no near-copy of both others |
| `Diversify.NoThreeCopies` | internal/indexer/curate.go:131-216 | with the server's line sets and base names of logical paths, no three picks have one base name and the same non-blank lines |
| `Diversify.NearCopyIs` | internal/indexer/curate.go:141-156 | two line sets are near copies exactly when neither is empty and the shared lines are at least seven tenths of all |
| `Diversify.SevenOfTen` | internal/indexer/curate.go:141-156 | instances: seven of ten lines are enough, six of nine are not |
| `Diversify.LineSetIs` | internal/indexer/curate.go:131-140 | the line set of a text is the set of its trimmed lines that are not empty |
| `Diversify.TwoCopiesSeated` | internal/indexer/curate.go:158-222 | an instance: of three chunks of three files with one base name and the same lines the first two are seated, whatever the room |
| `Diversify.ShortListIsExhaustive` | internal/indexer/curate.go:158-222 | of a list shorter than the limit every index left out repeats a picked content or has two near-copies seated |
| `Diversify.CapYieldsLast` | internal/indexer/curate.go:184-221 | up to some pick no file exceeds its cap, and every later pick is from a file at its cap |
| `Diversify.FileCountIs` | internal/indexer/curate.go:177-216 | what the cap counts is the number of picks of the file |
| `Diversify.DiversifyOrder` | internal/indexer/curate.go:158-222 | the two passes over seats, counters and overflow give that seating |
| `Diversify.Intersection` | internal/indexer/curate.go:141-156 | counting over the smaller set is the size of the intersection |
| `Output.CdataRoundTrip` | internal/indexer/service.go:1497-1501 | reading consecutive CDATA sections by section 2.7 of W3C XML 1.0 gives the content back, whatever it is |
| `Output.AnswerRoundTrip` | internal/indexer/service.go:1497-1501 | the whole file list reads back as the hits it was written from, whatever follows it |
| `Output.AnswersDiffer` | internal/indexer/service.go:1497-1501 | different hits give different answers |
| `Output.AnswerMeansHits` | internal/indexer/service.go:1497-1501 | un-escaping the read paths by the standard entities and reading the numbers as decimals gives path, lines and content of every hit |
| `Output.PathReadsBack` | internal/indexer/service.go:1499-1499 | un-escaping an escaped path gives the path |
| `Output.EscapeHTMLInjective` | internal/indexer/service.go:1499-1499 | the escaped path determines the path |
| `Output.WriteContext` | internal/indexer/service.go:1497-1501 | the builder loop writes exactly the file list that reads back |
| `Prefilter.AllocationIsMaximal` | internal/indexer/prefilter.go:266-308 | the total is the summed cost of the kept files, within the budget, and no nominated file left out would still fit |
| `Prefilter.KeptChunksFit` | internal/indexer/prefilter.go:266-299 | counted on the chunk lists themselves: the kept files' chunks, with one for each kept file that has none, are within the budget |
| `Prefilter.BestOfEveryTierKept` | internal/indexer/prefilter.go:263-299 | when no file is nominated twice and the best files of every tier fit together, all of them are kept, however heavy one tier is beyond that |
| `Prefilter.BestKeptWithinBudget` | internal/indexer/prefilter.go:263-299 | whatever files the tiers share: when no file costs more than a bound and depth times tiers times the bound is within the budget, the best depth files of every tier are kept |
| `Prefilter.DrainTiers` | internal/indexer/prefilter.go:266-299 | the nested loops end and keep what the rounds keep |
| `Skeleton.ElisionIsLossless` | internal/indexer/broad.go:283-327 | shown lines and cited ranges read back as the excerpt; head and first ten mentions are shown; every elided run has at least three lines and is as long as can be |
| `Skeleton.TextReadsBack` | internal/indexer/broad.go:303-327 | the rendered text itself: reading every line as it stands, and for a line that points at a range of the path that range of the file, gives the excerpt |
| `Skeleton.KeptExactly` | internal/indexer/broad.go:288-302 | a line stays exactly when it is one of the first twelve, or has a query term in its lowered text and fewer than ten lines since the twelfth do |
| `Skeleton.Skeletonize` | internal/indexer/broad.go:283-327 | a short excerpt is untouched, a long one becomes those pieces, rendered and trimmed |
| `Skeleton.MarkKept` | internal/indexer/broad.go:288-302 | the marks are the head and the first ten mentions after it |
| `Skeleton.WriteSkeleton` | internal/indexer/broad.go:303-326 | the index walk writes the pieces of the marks |
| `Ledger.DayBounded` | internal/httpapi/server.go:268-311 | over a day of requests by anyone, whatever sizes the store reports: a user's counter stays within zero and the limit, what was accepted never exceeds the limit plus what his deletions freed, and no more uploads than the daily number pass |
| `Ledger.CeilingHolds` | internal/httpapi/server.go:268-311 | where sizes are the estimates and the total was measured at the check, what the user held together with what an accepted upload sent stays within the storage limit |
| `Ledger.DeleteFreesExactly` | internal/httpapi/server.go:624-650 | the storage total moves by exactly the sizes of the names no other row of the user holds |
| `Ledger.ReuploadIsNeutral` | internal/httpapi/server.go:637-647 | where sizes are the estimates, deleting a project and uploading it again ends at the larger of the counter and the project, and is refused for daily volume only if the project alone is over the limit |
| `Ledger.PlainReuploadExactly` | internal/httpapi/server.go:637-647 | where sizes are plain lengths an accepted round leaves the counter as it was exactly when nothing was freed, and never lowers it |
| `Ledger.PlainReuploadRaises` | internal/httpapi/server.go:637-647 | an instance within the limits: one file deleted and uploaded again takes the counter from zero to its estimate |
| `Ledger.ReuploadCharge` | internal/httpapi/server.go:674-697 | a deleted project uploaded again is charged the estimate of exactly what the purge freed |
| `Ledger.SharedRefundsNothing` | internal/httpapi/server.go:638-647 | content a sibling row still holds refunds nothing |
| `Ledger.RequestKeepsLedger` | internal/httpapi/server.go:268-311 | each request keeps both counters in bounds and accounts for its charge, call and refund |
| `Ledger.HeldIsFree` | internal/httpapi/server.go:684-697 | an upload is free exactly when the user holds all of it |
| `Ledger.EstimateIsStoredSize` | internal/store/postgres.go:525-549 | the estimate is the length of prefix and unpadded base64 of nonce, ciphertext and tag |
| `Ledger.Accounts.AddQuotaUsage` | internal/store/memory.go:941-946 | the counter of user and kind moves by the amount and stops at zero |
| `Ledger.Accounts.BatchUpload` | internal/httpapi/server.go:652-729 | acceptance by rate, daily calls, daily volume and storage ceiling; only an accepted upload stores, shows its project and is counted and charged |
| `Ledger.Accounts.EnsurePending` | internal/indexer/aceproject.go:126-147 | a named first upload adds a pending row under the clipped name and branch, unless there is one |
| `Ledger.PendingIs` | internal/indexer/aceproject.go:126-147 | the pending row has the trimmed and clipped name and branch, no snapshot, and a row that is there stays |
| `Ledger.PendingKeepsRest` | internal/indexer/aceproject.go:126-147 | and nothing but the rows moves |
| `Ledger.Accounts.DeleteProject` | internal/httpapi/server.go:624-650 | the purge and the refund of the measured difference |
| `RateLimit.AnySpanBounded` | internal/httpapi/server.go:322-334 | over any run with a monotone clock, any requests that span at most a minute let at most twice a key's limit through, whoever resets the shared window |
| `RateLimit.WindowsBounded` | internal/httpapi/server.go:322-334 | no window lets more than the limit of a key through, and the counter is that number |
| `RateLimit.TwiceIsReached` | internal/httpapi/server.go:322-334 | for every key and limit, twice the limit passes within two nanoseconds around a reset |
| `RateLimit.KeyInjective` | internal/httpapi/server.go:329-329 | users and kinds do not share counters |
| `RateLimit.Quota.AllowRPM` | internal/httpapi/server.go:316-335 | the decision and the window after it |
| `Text.EncodeInjective` | internal/indexer/service.go:622-629 | the hashed encoding of a list of newline-free names determines the list |
| `Text.SortedListingUnique` | internal/indexer/service.go:600-611 | a set of names has one sorted listing, so the id is a function of the set |
| `Text.LessIs` | internal/indexer/service.go:600-611 | the order is that of the first differing character, a shorter text before its extensions |
| `Text.LineCountIsSplitLength` | internal/indexer/service.go:1513-1518 | the line count is the number of split lines, except for the empty text |

## Left out

- HTTP routing, sessions, OAuth, mail, streaming, the web UI and the console: input, output and presentation.
- Embedding, rerank and chat calls, their time budgets and cooldowns: network effects and wall-clock heuristics.
- The fusion of rankings and structural scores: the order of the candidates is an input of `Diversify` and `Curate`.
- tree-sitter and regular expressions: any tree of node spans and any per-line matcher stand for them.
- SHA-256, AES-GCM and pgvector arithmetic: functions with the injectivity stated above.
- Bm25.MatchesExactly: is about real numbers; that scores do not depend on their source (`Ranking`) holds in any arithmetic, floating point included.
- Go's maps of maps: flat maps keyed by the pair; project rows are keyed by user, name and branch instead of a joined string.
- Timestamps of rows, and whatever is ordered by them: no result here depends on them.
- The Redis paths of quota and rate limiting: accelerators that switch with the in-process ones on errors.
- Concurrent uploads between quota check and charge, and store errors that fail open: the ledger is serial and error-free.
- Ledger.Accounts.BatchUpload: leaves out the one-minute cache of storage totals, whose answer is an arbitrary input, the quota block, metrics and the embedding queue.
- cmd/agent's sync: plain convergence does not hold for it.
- The abuse guard, analytics, percentiles, announcements and settings.
- The candidate tiers of the prefilter: any lists of names; only their allocation is modelled.
- Curate.GroupPieces: lists members by rank of the selection, so a candidate selected twice would be two members; the seating never selects one twice.
- Diversify.ShortListIsExhaustive: takes equal content hashes to mean equal content.
- Ranking.Scorer.BM25Values: gives the direct scores for candidates whose ids stand for one text; `RankingSafety.DrawnText` proves that of stored chunks.
- Hits.HitSpeaksOfMembers: supposes that no blob name is the base path of a split file; blob names are hashes.
- Skeleton.TextReadsBack: is about the text before its trailing newlines are trimmed, and about excerpts without a line that itself looks like a pointer.
- Protocol.SyncIsSafe: a repository sync is one step; a purge between its upload and its manifest is not modelled.
- Prefilter.BestOfEveryTierKept: says nothing when a file is nominated by two tiers, where a skipped duplicate gives its tier an extra turn; `Prefilter.BestKeptWithinBudget` is for any tiers.
